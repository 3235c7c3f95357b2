/**
  The orphan drain of the process coordinator
  (scripts/canary_process_custody.py, Custody.drain_orphans).

  Children the coordinator did not start, but inherited as a subreaper, are killed and reaped in
  waves.  Reaping one may hand its own children to the coordinator.  Processes no longer fork,
  so the processes below the coordinator are a finite set that only shrinks by reaping; any
  system call may fail, and the inherited ones may arrive between any two calls.

  A pid here stands for a process: the number together with its generation.
*/
module OrphanDrain {
  import opened Numbers

  type Pid = int

  datatype Event = Pin(wave: nat, pid: Pid) | Kill(wave: nat, pid: Pid) | Reap(wave: nat, pid: Pid)

  class Kernel {
    /** Which calls fail, counted from the first. */
    const fails: nat -> bool
    var calls: nat
    /** Direct children of the coordinator, dead or alive, and the processes below those. */
    var children: set<Pid>
    var below: set<Pid>
    /** Every process there was, and those the coordinator has reaped, in whatever way. */
    var ever: set<Pid>
    ghost var gone: seq<Pid>
    /** Descriptors of the current wave that are open. */
    ghost var held: multiset<Pid>
    ghost var log: seq<Event>
    ghost var waves: nat
    /** How many calls failed. */
    ghost var faults: nat

    constructor (children: set<Pid>, below: set<Pid>, fails: nat -> bool)
      requires children !! below
      ensures this.children == children && this.below == below && this.fails == fails && held == multiset{} && log == []
      ensures gone == [] && faults == 0 && InOrder() && Tidy()
    {
      this.children, this.below, this.fails, calls := children, below, fails, 0;
      ever, gone, held, log, waves, faults := children + below, [], multiset{}, [], 0, 0;
    }

    ghost predicate InOrder()
      reads this`log, this`waves
    {
      WavesInOrder(log) && UpTo(log, waves)
    }

    ghost function Forest(): set<Pid>
      reads this`children, this`below
    {
      children + below
    }

    ghost predicate Split()
      reads this`children, this`below
    {
      children !! below
    }

    /** Nobody is in two places, or reaped twice. */
    ghost predicate Tidy()
      reads this`children, this`below, this`ever, this`gone
    {
      && Split() && Once(gone)
      && (forall pid :: pid in Forest() ==> pid in ever && pid !in gone)
      && (forall pid :: pid in gone ==> pid in ever)
    }

    lemma InOnePlace(pid: Pid)
      requires Tidy()
      ensures pid in children ==> pid !in below
      ensures pid in children || pid in below ==> pid in ever && pid !in gone
    {
      assert pid in children || pid in below ==> pid in Forest();
    }

    ghost predicate Faultless() {
      forall n: nat :: !fails(n)
    }

    method Call() returns (ok: bool)
      modifies this`calls
      ensures calls == old(calls) + 1 && ok == !fails(old(calls)) && (Faultless() ==> ok)
    {
      ok := !fails(calls);
      calls := calls + 1;
    }

    /** Parents die meanwhile, and their children become ours. */
    method Drift()
      modifies this`children, this`below
      ensures Forest() == old(Forest()) && old(children) <= children && (old(Split()) ==> Split())
    {
      var arrived: set<Pid> :| arrived <= below;
      children, below := children + arrived, below - arrived;
    }

    /** The children, each once, or a failed census. */
    method Census() returns (ok: bool, pids: seq<Pid>)
      modifies this`calls, this`children, this`below, this`faults
      ensures Forest() == old(Forest()) && old(children) <= children && (old(Split()) ==> Split())
      ensures ok ==> Listed(pids, children)
      ensures faults == old(faults) + (if ok then 0 else 1) && (Faultless() ==> ok)
    {
      Drift();
      ok := Call();
      pids := List(children);
      if !ok { faults := faults + 1; }
    }

    method Open(pid: Pid) returns (ok: bool)
      modifies this`calls, this`children, this`below, this`held, this`faults
      ensures Forest() == old(Forest()) && old(children) <= children && (old(Split()) ==> Split())
      ensures held == if ok then old(held) + multiset{pid} else old(held)
      ensures faults == old(faults) + (if ok then 0 else 1) && (Faultless() ==> ok)
    {
      Drift();
      ok := Call();
      if ok { held := held + multiset{pid}; } else { faults := faults + 1; }
    }

    /** Whether or not close reports an error, the descriptor is gone. */
    method Shut(pid: Pid) returns (ok: bool)
      modifies this`calls, this`children, this`below, this`held
      ensures Forest() == old(Forest()) && old(children) <= children && (old(Split()) ==> Split())
      ensures held == old(held) - multiset{pid}
    {
      Drift();
      ok := Call();
      held := held - multiset{pid};
    }

    /** Identity, parent and exit status twice over; any check may fail. */
    method Validate(ghost wave: nat, pid: Pid) returns (ok: bool)
      modifies this`calls, this`children, this`below, this`log, this`faults
      ensures Forest() == old(Forest()) && old(children) <= children && (old(Split()) ==> Split())
      ensures log == if ok then old(log) + [Pin(wave, pid)] else old(log)
      ensures faults == old(faults) + (if ok then 0 else 1) && (Faultless() ==> ok)
    {
      Drift();
      ok := Call();
      if ok { log := log + [Pin(wave, pid)]; } else { faults := faults + 1; }
    }

    /** The attempt is logged whether or not it succeeds. */
    method SendKill(ghost wave: nat, pid: Pid) returns (ok: bool)
      modifies this`calls, this`children, this`below, this`log
      ensures Forest() == old(Forest()) && old(children) <= children && (old(Split()) ==> Split())
      ensures log == old(log) + [Kill(wave, pid)]
    {
      Drift();
      ok := Call();
      log := log + [Kill(wave, pid)];
    }

    /** Only a direct child can be reaped. */
    method TryReap(ghost wave: nat, pid: Pid) returns (ok: bool)
      modifies this`calls, this`children, this`below, this`log, this`faults, this`gone
      ensures ok || pid !in old(children) ==> faults == old(faults)
      ensures !ok && pid in old(children) ==> faults == old(faults) + 1 && !Faultless()
      ensures ok ==> pid in old(Forest()) && Forest() == old(Forest()) - {pid}
                     && log == old(log) + [Reap(wave, pid)] && gone == old(gone) + [pid]
      ensures !ok ==> Forest() == old(Forest()) && log == old(log) && gone == old(gone)
      ensures old(children) - (if ok then {pid} else {}) <= children && (old(Split()) ==> Split())
    {
      ok := Call();
      if !ok && pid in children { faults := faults + 1; }
      ok := ok && pid in children;
      Drift();
      if ok {
        children, below := children - {pid}, below - {pid};
        log, gone := log + [Reap(wave, pid)], gone + [pid];
        Drift();
      }
    }

    // ------------------------------------------------ outside the drain

    method Unseen() returns (pid: Pid)
      ensures pid !in ever
    {
      ghost var free := Unused(ever);
      assert free !in ever;
      pid :| pid !in ever;
    }

    /** The coordinator starts a process. */
    method Fork() returns (pid: Pid)
      modifies this`children, this`ever
      ensures pid !in old(ever) && children == old(children) + {pid} && ever == old(ever) + {pid}
      ensures old(Tidy()) ==> Tidy()
    {
      pid := Unseen();
      children, ever := children + {pid}, ever + {pid};
    }

    /** Some process below the coordinator starts another one. */
    method Born() returns (pid: Pid)
      modifies this`below, this`ever
      ensures pid !in old(ever) && below == old(below) + {pid} && ever == old(ever) + {pid}
      ensures old(Tidy()) ==> Tidy()
    {
      pid := Unseen();
      below, ever := below + {pid}, ever + {pid};
    }

    /** A process that is none of ours becomes known. */
    method Know(pid: Pid)
      modifies this`ever
      ensures ever == old(ever) + {pid} && (old(Tidy()) ==> Tidy())
    {
      ever := ever + {pid};
    }

    /** Parents end, and these of their children become ours. */
    method Inherit(arrived: set<Pid>)
      modifies this`children, this`below
      ensures children == old(children) + (arrived * old(below)) && below == old(below) - arrived
      ensures old(Tidy()) ==> Tidy()
    {
      children, below := children + (arrived * below), below - arrived;
    }

    /** Processes below are reaped by their own parents. */
    method Vanish(pids: set<Pid>)
      modifies this`below
      ensures below == old(below) - pids && (old(Tidy()) ==> Tidy())
    {
      below := below - pids;
    }

    /** The coordinator waits for one of its children successfully. */
    method WaitFor(pid: Pid)
      requires pid in children
      modifies this`children, this`gone
      ensures children == old(children) - {pid} && gone == old(gone) + [pid]
      ensures old(Tidy()) ==> Tidy()
    {
      assert Tidy() ==> pid !in gone && forall i :: 0 <= i < |gone| ==> gone[i] != pid;
      children, gone := children - {pid}, gone + [pid];
    }
  }

  method List(s: set<Pid>) returns (pids: seq<Pid>)
    ensures Listed(pids, s)
  {
    pids := [];
    if pid :| pid in s {
      pids := List(s - {pid});
      pids := pids + [pid];
    }
  }

  /** These are the members of a set, each once. */
  ghost predicate Listed(pids: seq<Pid>, s: set<Pid>) {
    (forall pid :: pid in pids <==> pid in s) && Once(pids)
  }

  ghost predicate Once(pids: seq<Pid>) {
    forall i, j :: 0 <= i < j < |pids| ==> pids[i] != pids[j]
  }

  // ---------------------------------------------------------------- what the log shows

  /** Nobody is killed or reaped who was not pinned and validated in the same wave before. */
  ghost predicate PinnedBefore(log: seq<Event>) {
    forall j :: 0 <= j < |log| && !log[j].Pin? ==> Pin(log[j].wave, log[j].pid) in log[..j]
  }

  /** After the first kill or reap of a wave, nobody is pinned in it any more. */
  ghost predicate WholeWaveFirst(log: seq<Event>) {
    forall i, j :: 0 <= i < j < |log| && !log[i].Pin? && log[j].Pin? ==> log[i].wave < log[j].wave
  }

  /** After the first reap of a wave, nobody is killed in it any more. */
  ghost predicate KillsFirst(log: seq<Event>) {
    forall i, j :: 0 <= i < j < |log| && log[i].Reap? && log[j].Kill? ==> log[i].wave < log[j].wave
  }

  /** Nobody is reaped whom no kill was attempted on in the same wave. */
  ghost predicate KilledBefore(log: seq<Event>) {
    forall j :: 0 <= j < |log| && log[j].Reap? ==> Kill(log[j].wave, log[j].pid) in log[..j]
  }

  ghost predicate WavesInOrder(log: seq<Event>) {
    PinnedBefore(log) && WholeWaveFirst(log) && KillsFirst(log) && KilledBefore(log)
  }

  ghost predicate UpTo(log: seq<Event>, wave: nat) {
    forall i :: 0 <= i < |log| ==> log[i].wave < wave
  }

  /** What may follow in this wave: pins while there are only pins, kills before reaps. */
  ghost predicate NoReapIn(log: seq<Event>, wave: nat) {
    forall i :: 0 <= i < |log| && log[i].Reap? ==> log[i].wave < wave
  }

  ghost predicate OnlyPinsIn(log: seq<Event>, wave: nat) {
    forall i :: 0 <= i < |log| && !log[i].Pin? ==> log[i].wave < wave
  }

  lemma Append(log: seq<Event>, e: Event)
    requires WavesInOrder(log)
    requires match e {
               case Pin(w, _) => OnlyPinsIn(log, w)
               case Kill(w, p) => NoReapIn(log, w) && Pin(w, p) in log
               case Reap(w, p) => Pin(w, p) in log && Kill(w, p) in log
             }
    ensures WavesInOrder(log + [e])
  {
    hide WholeWaveFirst, KillsFirst;
    PrefixesOf(log, e);
    assert PinnedBefore(log + [e]) && KilledBefore(log + [e]);
    assert WholeWaveFirst(log + [e]) && KillsFirst(log + [e]) by { AppendOrder(log, e); }
  }

  lemma PrefixesOf(log: seq<Event>, e: Event)
    ensures forall j :: 0 <= j <= |log| ==> (log + [e])[..j] == log[..j]
    ensures (log + [e])[..|log|] == log
  {}

  lemma AppendOrder(log: seq<Event>, e: Event)
    requires WholeWaveFirst(log) && KillsFirst(log)
    requires e.Pin? ==> OnlyPinsIn(log, e.wave)
    requires e.Kill? ==> NoReapIn(log, e.wave)
    ensures WholeWaveFirst(log + [e]) && KillsFirst(log + [e])
  {}

  /** Only these were reaped between one log and a longer one. */
  ghost predicate NewReaps(a: seq<Event>, b: seq<Event>, reaped: seq<Pid>) {
    forall e :: e in b && e.Reap? ==> e in a || e.pid in reaped
  }

  ghost predicate SameReaps(a: seq<Event>, b: seq<Event>) {
    NewReaps(a, b, [])
  }

  lemma ReapsMore(a: seq<Event>, b: seq<Event>, reaped: seq<Pid>, e: Event)
    requires NewReaps(a, b, reaped)
    ensures !e.Reap? ==> NewReaps(a, b + [e], reaped)
    ensures NewReaps(a, b + [e], reaped + [e.pid])
  {}

  ghost predicate Joined(a: seq<Pid>, more: seq<Pid>, b: seq<Pid>) {
    b == a + more
  }

  lemma JoinedMore(a: seq<Pid>, more: seq<Pid>, b: seq<Pid>, pid: Pid)
    requires Joined(a, more, b)
    ensures Joined(a, more + [pid], b + [pid])
  {}

  lemma NoReaps(a: seq<Event>)
    ensures NewReaps(a, a, [])
  {}

  lemma NewReapsOn(a: seq<Event>, b: seq<Event>, c: seq<Event>, reaped: seq<Pid>, more: seq<Pid>)
    requires NewReaps(a, b, reaped) && NewReaps(b, c, more)
    ensures NewReaps(a, c, reaped + more)
  {}

  // ---------------------------------------------------------------- the drain

  /** Everything a wave is about to touch is ordered and pinned. */
  ghost predicate Ready(log: seq<Event>, wave: nat, pinned: seq<Pid>) {
    WavesInOrder(log) && UpTo(log, wave + 1) && forall i :: 0 <= i < |pinned| ==> Pin(wave, pinned[i]) in log
  }

  lemma ReadyPin(log: seq<Event>, wave: nat, pinned: seq<Pid>, pid: Pid)
    requires Ready(log, wave, pinned) && OnlyPinsIn(log, wave)
    ensures Ready(log + [Pin(wave, pid)], wave, pinned + [pid]) && OnlyPinsIn(log + [Pin(wave, pid)], wave)
  {
    Append(log, Pin(wave, pid));
    hide WavesInOrder;
  }

  /** How a wave sorts the children of a census. */
  ghost predicate Sorted(pids: seq<Pid>, blocked: set<Pid>, pinned: seq<Pid>, failed: set<Pid>) {
    && Once(pinned)
    && (forall pid :: pid in pinned ==> pid in pids && pid !in blocked && pid !in failed)
    && (forall pid :: pid in failed ==> pid in pids && pid !in blocked)
    && (forall pid :: pid in pids ==> pid in blocked || pid in pinned || pid in failed)
  }

  lemma SortedMore(pids: seq<Pid>, k: nat, blocked: set<Pid>, pinned: seq<Pid>, failed: set<Pid>)
    requires k < |pids| && Once(pids) && Sorted(pids[..k], blocked, pinned, failed)
    ensures pids[k] in blocked ==> Sorted(pids[..k + 1], blocked, pinned, failed)
    ensures pids[k] !in blocked ==> Sorted(pids[..k + 1], blocked, pinned + [pids[k]], failed)
    ensures pids[k] !in blocked ==> Sorted(pids[..k + 1], blocked, pinned, failed + {pids[k]})
  {
    assert pids[..k + 1] == pids[..k] + [pids[k]];
    assert pids[k] !in pids[..k];
  }

  /** Pins and validates one child; on failure its descriptor is closed again. */
  method PinOne(os: Kernel, ghost wave: nat, pid: Pid) returns (ok: bool)
    modifies os`calls, os`children, os`below, os`held, os`log, os`faults
    ensures os.Forest() == old(os.Forest()) && old(os.children) <= os.children
    ensures (old(os.Split()) ==> os.Split()) && (os.Faultless() ==> ok)
    ensures os.log == if ok then old(os.log) + [Pin(wave, pid)] else old(os.log)
    ensures os.held == if ok then old(os.held) + multiset{pid} else old(os.held)
    ensures if ok then os.faults == old(os.faults) else os.faults > old(os.faults)
  {
    hide Kernel.Split, Kernel.Faultless;
    ok := os.Open(pid);
    if !ok {
      return;
    }
    ok := os.Validate(wave, pid);
    if !ok {
      var shut := os.Shut(pid);
    }
  }

  ghost function Holding(held: multiset<Pid>, pinned: seq<Pid>): multiset<Pid> {
    held + multiset(pinned)
  }

  lemma HoldingMore(held: multiset<Pid>, pinned: seq<Pid>, pid: Pid)
    ensures Holding(held, pinned + [pid]) == Holding(held, pinned) + multiset{pid}
  {}

  lemma HoldingLess(held: multiset<Pid>, pinned: seq<Pid>, k: nat)
    requires k < |pinned|
    ensures Holding(held, pinned[k..]) - multiset{pinned[k]} == Holding(held, pinned[k + 1..])
  {
    assert pinned[k..] == [pinned[k]] + pinned[k + 1..];
  }

  /** The whole wave is pinned and validated before anything is done to it. */
  method PinWave(os: Kernel, ghost wave: nat, pids: seq<Pid>, blocked: set<Pid>)
    returns (pinned: seq<Pid>, failed: set<Pid>)
    requires WavesInOrder(os.log) && UpTo(os.log, wave) && Once(pids)
    modifies os`calls, os`children, os`below, os`held, os`log, os`faults
    ensures os.Forest() == old(os.Forest()) && old(os.children) <= os.children && old(os.log) <= os.log
    ensures (old(os.Split()) ==> os.Split()) && SameReaps(old(os.log), os.log)
    ensures Ready(os.log, wave, pinned) && OnlyPinsIn(os.log, wave) && NoReapIn(os.log, wave)
    ensures os.held == Holding(old(os.held), pinned)
    ensures Sorted(pids, blocked, pinned, failed) && Once(pinned)
    ensures os.faults >= old(os.faults) && (failed != {} ==> os.faults > old(os.faults))
    ensures os.Faultless() ==> os.faults == old(os.faults)
  {
    pinned, failed := [], {};
    assert Ready(os.log, wave, []) && OnlyPinsIn(os.log, wave);
    assert Sorted(pids[..0], blocked, [], {});
    assert os.held == Holding(os.held, []);
    NoReaps(os.log);
    hide Ready, Sorted, OnlyPinsIn, WavesInOrder, UpTo, Once, Holding, NewReaps, Kernel.Split, Kernel.Faultless;
    for k := 0 to |pids|
      invariant os.Forest() == old(os.Forest()) && old(os.children) <= os.children && old(os.log) <= os.log
      invariant Ready(os.log, wave, pinned) && OnlyPinsIn(os.log, wave)
      invariant os.held == Holding(old(os.held), pinned)
      invariant Sorted(pids[..k], blocked, pinned, failed) && SameReaps(old(os.log), os.log)
      invariant os.faults >= old(os.faults) && (failed != {} ==> os.faults > old(os.faults))
      invariant (os.Faultless() ==> os.faults == old(os.faults)) && (old(os.Split()) ==> os.Split())
    {
      var pid := pids[k];
      SortedMore(pids, k, blocked, pinned, failed);
      if pid !in blocked {
        ReadyPin(os.log, wave, pinned, pid);
        HoldingMore(old(os.held), pinned, pid);
        ReapsMore(old(os.log), os.log, [], Pin(wave, pid));
        var ok := PinOne(os, wave, pid);
        if ok {
          pinned := pinned + [pid];
        } else {
          failed := failed + {pid};
        }
      }
    }
    assert pids[..|pids|] == pids;
    OnlyPinsNoReap(os.log, wave);
    SortedOnce(pids, blocked, pinned, failed);
  }

  lemma SortedOnce(pids: seq<Pid>, blocked: set<Pid>, pinned: seq<Pid>, failed: set<Pid>)
    requires Sorted(pids, blocked, pinned, failed)
    ensures Once(pinned)
  {}

  lemma OnlyPinsNoReap(log: seq<Event>, wave: nat)
    requires OnlyPinsIn(log, wave)
    ensures NoReapIn(log, wave)
  {}

  lemma ReadyAct(log: seq<Event>, wave: nat, pinned: seq<Pid>, i: nat, e: Event)
    requires Ready(log, wave, pinned) && i < |pinned|
    requires (e == Reap(wave, pinned[i]) && Kill(wave, pinned[i]) in log) || (e == Kill(wave, pinned[i]) && NoReapIn(log, wave))
    ensures Ready(log + [e], wave, pinned)
    ensures e.Kill? ==> NoReapIn(log + [e], wave)
  {
    Append(log, e);
    hide WavesInOrder;
  }

  method KillWave(os: Kernel, ghost wave: nat, pinned: seq<Pid>)
    requires Ready(os.log, wave, pinned) && NoReapIn(os.log, wave)
    modifies os`calls, os`children, os`below, os`log
    ensures os.Forest() == old(os.Forest()) && old(os.children) <= os.children && old(os.log) <= os.log
    ensures (old(os.Split()) ==> os.Split()) && SameReaps(old(os.log), os.log)
    ensures Doomed(os.log, wave, pinned)
  {
    NoReaps(os.log);
    hide Ready, NoReapIn, NewReaps, Kernel.Split;
    for k := 0 to |pinned|
      invariant os.Forest() == old(os.Forest()) && old(os.children) <= os.children && old(os.log) <= os.log
      invariant Ready(os.log, wave, pinned) && NoReapIn(os.log, wave) && SameReaps(old(os.log), os.log)
      invariant AllKilled(os.log, wave, pinned[..k]) && (old(os.Split()) ==> os.Split())
    {
      ReadyAct(os.log, wave, pinned, k, Kill(wave, pinned[k]));
      ReapsMore(old(os.log), os.log, [], Kill(wave, pinned[k]));
      var ok := os.SendKill(wave, pinned[k]);
    }
    assert pinned[..|pinned|] == pinned;
  }

  /** Pinned, and a kill was attempted: what a wave may reap. */
  ghost predicate Doomed(log: seq<Event>, wave: nat, pinned: seq<Pid>) {
    Ready(log, wave, pinned) && AllKilled(log, wave, pinned)
  }

  lemma DoomedReap(log: seq<Event>, wave: nat, pinned: seq<Pid>, i: nat)
    requires Doomed(log, wave, pinned) && i < |pinned|
    ensures Doomed(log + [Reap(wave, pinned[i])], wave, pinned)
  {
    ReadyAct(log, wave, pinned, i, Reap(wave, pinned[i]));
    hide Ready;
  }

  ghost predicate AllKilled(log: seq<Event>, wave: nat, pinned: seq<Pid>) {
    forall i :: 0 <= i < |pinned| ==> Kill(wave, pinned[i]) in log
  }

  method ReapOne(os: Kernel, ghost wave: nat, pid: Pid) returns (ok: bool)
    modifies os`calls, os`children, os`below, os`held, os`log, os`faults, os`gone
    ensures old(os.Split()) ==> os.Split()
    ensures os.held == old(os.held) - multiset{pid}
    ensures ok ==> pid in old(os.Forest()) && os.Forest() == old(os.Forest()) - {pid}
                   && os.log == old(os.log) + [Reap(wave, pid)] && os.gone == old(os.gone) + [pid]
                   && old(os.children) - {pid} <= os.children
    ensures !ok ==> os.Forest() == old(os.Forest()) && os.log == old(os.log) && os.gone == old(os.gone)
                    && old(os.children) <= os.children
    ensures os.Faultless() && pid in old(os.children) ==> os.faults == old(os.faults)
    ensures os.faults >= old(os.faults) && (!ok && pid in old(os.children) ==> os.faults > old(os.faults))
  {
    hide Kernel.Split;
    ok := os.TryReap(wave, pid);
    var shut := os.Shut(pid);
  }

  /** Reaps the wave; who cannot be reaped is blocked. */
  method ReapWave(os: Kernel, ghost wave: nat, pinned: seq<Pid>, ghost held: multiset<Pid>)
    returns (reaped: seq<Pid>, failed: set<Pid>)
    requires Doomed(os.log, wave, pinned) && Once(pinned) && os.held == Holding(held, pinned)
    modifies os`calls, os`children, os`below, os`held, os`log, os`faults, os`gone
    ensures Joined(old(os.gone), reaped, os.gone) && NewReaps(old(os.log), os.log, reaped)
    ensures old(os.Split()) ==> os.Split()
    ensures Doomed(os.log, wave, pinned) && old(os.log) <= os.log && os.held == held
    ensures Sorted(pinned, {}, reaped, failed)
    ensures Gone(old(os.Forest()), old(os.children), os.Forest(), os.children, reaped)
    ensures os.faults >= old(os.faults)
    ensures failed != {} && Members(pinned) <= old(os.children) ==> os.faults > old(os.faults)
    ensures os.Faultless() && Members(pinned) <= old(os.children) ==> os.faults == old(os.faults)
  {
    reaped, failed := [], {};
    assert Sorted(pinned[..0], {}, [], {});
    assert pinned[0..] == pinned && held == Holding(held, []);
    NobodyGone(os.Forest(), os.children);
    NoReaps(os.log);
    assert Joined(os.gone, [], os.gone);
    hide Doomed, Sorted, Once, Holding, Gone, NewReaps, Members, Joined, Kernel.Split, Kernel.Faultless;
    for k := 0 to |pinned|
      invariant Doomed(os.log, wave, pinned) && old(os.log) <= os.log
      invariant os.held == Holding(held, pinned[k..])
      invariant Sorted(pinned[..k], {}, reaped, failed)
      invariant Gone(old(os.Forest()), old(os.children), os.Forest(), os.children, reaped)
      invariant Joined(old(os.gone), reaped, os.gone) && NewReaps(old(os.log), os.log, reaped)
      invariant old(os.Split()) ==> os.Split()
      invariant os.faults >= old(os.faults)
      invariant failed != {} && Members(pinned) <= old(os.children) ==> os.faults > old(os.faults)
      invariant os.Faultless() && Members(pinned) <= old(os.children) ==> os.faults == old(os.faults)
    {
      var pid := pinned[k];
      SortedMore(pinned, k, {}, reaped, failed);
      DoomedReap(os.log, wave, pinned, k);
      ReapsMore(old(os.log), os.log, reaped, Reap(wave, pid));
      JoinedMore(old(os.gone), reaped, os.gone, pid);
      HoldingLess(held, pinned, k);
      ghost var forest, children := os.Forest(), os.children;
      StillChild(old(os.Forest()), old(os.children), forest, children, pinned, k, reaped, failed);
      var ok := ReapOne(os, wave, pid);
      GoneOn(old(os.Forest()), old(os.children), forest, children, reaped, pid, ok, os.Forest(), os.children);
      if ok {
        reaped := reaped + [pid];
      } else {
        failed := failed + {pid};
      }
    }
    assert pinned[..|pinned|] == pinned && pinned[|pinned|..] == [];
  }

  /** A child of the wave stays a child until it is reaped. */
  lemma StillChild(forest: set<Pid>, children: set<Pid>, now: set<Pid>, left: set<Pid>,
                   pinned: seq<Pid>, k: nat, reaped: seq<Pid>, failed: set<Pid>)
    requires Gone(forest, children, now, left, reaped) && k < |pinned| && Once(pinned)
    requires Sorted(pinned[..k], {}, reaped, failed)
    ensures Members(pinned) <= children ==> pinned[k] in left
  {
    assert pinned[k] !in pinned[..k];
    assert pinned[k] in Members(pinned);
  }

  /** Exactly the reaped are gone, and no other child. */
  ghost predicate Gone(forest: set<Pid>, children: set<Pid>, now: set<Pid>, left: set<Pid>, reaped: seq<Pid>) {
    now == forest - Members(reaped) && Members(reaped) <= forest && children - Members(reaped) <= left
  }

  lemma NobodyGone(forest: set<Pid>, children: set<Pid>)
    ensures Gone(forest, children, forest, children, [])
  {
    assert Members([]) == {};
  }

  lemma GoneOn(forest: set<Pid>, children: set<Pid>, was: set<Pid>, had: set<Pid>, reaped: seq<Pid>,
               pid: Pid, ok: bool, now: set<Pid>, left: set<Pid>)
    requires Gone(forest, children, was, had, reaped)
    requires if ok then pid in was && now == was - {pid} && had - {pid} <= left else now == was && had <= left
    ensures Gone(forest, children, now, left, if ok then reaped + [pid] else reaped)
  {
    MembersMore(reaped, pid);
    hide Members;
  }

  lemma MembersMore(pids: seq<Pid>, pid: Pid)
    ensures Members(pids + [pid]) == Members(pids) + {pid}
  {}

  /**
    Drains the inherited children.  Every child of a census is pinned, then reaped or blocked;
    the processes that are gone are exactly the reaped ones, each reaped once.  It comes back
    without an error only if it never saw a child, and otherwise stops when a census fails or
    every remaining child is blocked.
  */
  method Drain(os: Kernel) returns (ok: bool, reaped: seq<Pid>, blocked: set<Pid>, cut: bool)
    requires os.InOrder()
    modifies os`calls, os`children, os`below, os`held, os`log, os`faults, os`gone, os`waves
    ensures os.gone == old(os.gone) + reaped && NewReaps(old(os.log), os.log, reaped)
    ensures old(os.children) - Members(reaped) <= os.children && (old(os.Split()) ==> os.Split())
    ensures os.Faultless() ==> os.faults == old(os.faults)
    ensures old(os.Tidy()) ==> os.Tidy()
    ensures os.InOrder() && old(os.log) <= os.log && os.held == old(os.held)
    ensures os.Forest() == old(os.Forest()) - Members(reaped) && Members(reaped) <= old(os.Forest()) && Once(reaped)
    ensures blocked <= os.Forest()
    ensures ok ==> os.children == {} && os.log == old(os.log) && reaped == []
    ensures cut || os.children <= blocked
    ensures cut ==> !ok
    ensures os.faults == old(os.faults) ==> !cut && blocked == {} && os.children == {}
    ensures os.faults == old(os.faults) && old(os.Forest()) == {} ==> ok
  {
    reaped, blocked, cut := [], {}, false;
    var errors := false;
    assert Members([]) == {};
    NoReaps(os.log);
    while true
      invariant os.InOrder() && old(os.log) <= os.log && os.held == old(os.held)
      invariant os.Forest() == old(os.Forest()) - Members(reaped) && Members(reaped) <= old(os.Forest()) && Once(reaped)
      invariant blocked <= os.Forest()
      invariant !errors ==> os.log == old(os.log) && reaped == []
      invariant os.faults >= old(os.faults) && (blocked != {} ==> os.faults > old(os.faults)) && !cut
      invariant errors ==> old(os.Forest()) != {}
      invariant os.gone == old(os.gone) + reaped && NewReaps(old(os.log), os.log, reaped)
      invariant old(os.children) - Members(reaped) <= os.children && (old(os.Split()) ==> os.Split())
      invariant os.Faultless() ==> os.faults == old(os.faults)
      decreases os.Forest() - blocked
    {
      hide Members, WavesInOrder, Once, NewReaps, Kernel.Split, Kernel.Faultless;
      var known, pids := os.Census();
      if !known {
        errors, cut := true, true;
        break;
      }
      if pids == [] {
        ListedWithin(pids, os.children, {});
        break;
      }
      ListedFirst(pids, os.children);
      errors := true;
      if forall pid | pid in pids :: pid in blocked {
        ListedWithin(pids, os.children, blocked);
        break;
      }
      ghost var log := os.log;
      var more, stuck := Wave(os, pids, blocked);
      NewReapsOn(old(os.log), log, os.log, reaped, more);
      ReapedMore(reaped, more, old(os.Forest()));
      reaped, blocked := reaped + more, blocked + stuck;
    }
    ok := !errors;
    if old(os.Tidy()) {
      ReapedTidy(old(os.Forest()), old(os.gone), os.ever, reaped);
    }
  }

  lemma ReapedTidy(forest: set<Pid>, gone: seq<Pid>, ever: set<Pid>, reaped: seq<Pid>)
    requires Once(gone) && Once(reaped) && Members(reaped) <= forest
    requires (forall pid :: pid in forest ==> pid in ever && pid !in gone) && (forall pid :: pid in gone ==> pid in ever)
    ensures Once(gone + reaped) && (forall pid :: pid in gone + reaped ==> pid in ever)
    ensures forall pid :: pid in forest - Members(reaped) ==> pid in ever && pid !in gone + reaped
  {
    assert forall i :: 0 <= i < |reaped| ==> reaped[i] in Members(reaped);
  }

  lemma ReapedMore(reaped: seq<Pid>, more: seq<Pid>, forest: set<Pid>)
    requires Once(reaped) && Once(more) && Members(more) <= forest - Members(reaped)
    ensures Once(reaped + more) && Members(reaped + more) == Members(reaped) + Members(more)
  {
    forall i, j | 0 <= i < |reaped| <= j < |reaped + more| ensures (reaped + more)[i] != (reaped + more)[j] {
      assert (reaped + more)[j] in Members(more) && (reaped + more)[i] in Members(reaped);
    }
  }

  lemma ListedWithin(pids: seq<Pid>, s: set<Pid>, t: set<Pid>)
    requires Listed(pids, s) && forall pid :: pid in pids ==> pid in t
    ensures s <= t
  {
    forall pid | pid in s ensures pid in t {
      assert pid in pids;
    }
  }

  lemma ListedFirst(pids: seq<Pid>, s: set<Pid>)
    requires Listed(pids, s) && pids != []
    ensures pids[0] in s
  {
    assert pids[0] in pids;
  }

  lemma ListedOnce(pids: seq<Pid>, s: set<Pid>)
    requires Listed(pids, s)
    ensures Once(pids)
  {}

  lemma PinnedAreChildren(children: set<Pid>, pids: seq<Pid>, blocked: set<Pid>, pinned: seq<Pid>, failed: set<Pid>)
    requires Listed(pids, children) && Sorted(pids, blocked, pinned, failed)
    ensures Members(pinned) <= children
  {
    forall pid | pid in Members(pinned) ensures pid in children {
      assert pid in pids;
    }
  }

  /** What a wave does to the processes that are neither gone nor blocked. */
  lemma WaveProgress(forest: set<Pid>, children: set<Pid>, pids: seq<Pid>, blocked: set<Pid>,
                     pinned: seq<Pid>, failed: set<Pid>, reaped: seq<Pid>, rest: set<Pid>)
    requires children <= forest && Listed(pids, children) && !(forall pid | pid in pids :: pid in blocked)
    requires Sorted(pids, blocked, pinned, failed) && Sorted(pinned, {}, reaped, rest)
    ensures failed + rest <= forest - Members(reaped) && Members(reaped) !! blocked && Once(reaped)
    ensures forest - Members(reaped) - (blocked + (failed + rest)) < forest - blocked
  {
    forall pid | pid in failed + rest ensures pid in forest - Members(reaped) {
      assert pid in failed ==> pid in pids;
      assert pid in rest ==> pid in pinned;
    }
    var pid :| pid in pids && pid !in blocked;
    assert pid in Members(reaped) || pid in failed + rest;
    assert pid in forest - blocked;
  }

  /** One wave: pin all, kill all, reap all. */
  method Wave(os: Kernel, pids: seq<Pid>, blocked: set<Pid>) returns (reaped: seq<Pid>, stuck: set<Pid>)
    requires os.InOrder() && Listed(pids, os.children) && !(forall pid | pid in pids :: pid in blocked)
    modifies os`calls, os`children, os`below, os`held, os`log, os`faults, os`gone, os`waves
    ensures os.gone == old(os.gone) + reaped && NewReaps(old(os.log), os.log, reaped)
    ensures old(os.children) - Members(reaped) <= os.children && (old(os.Split()) ==> os.Split())
    ensures os.Faultless() ==> os.faults == old(os.faults)
    ensures os.InOrder() && old(os.log) <= os.log && os.held == old(os.held)
    ensures os.Forest() == old(os.Forest()) - Members(reaped) && Members(reaped) <= old(os.Forest()) && Once(reaped)
    ensures stuck <= os.Forest() && Members(reaped) !! blocked
    ensures os.Forest() - (blocked + stuck) < old(os.Forest()) - blocked
    ensures os.faults >= old(os.faults) && (stuck != {} ==> os.faults > old(os.faults))
  {
    assert UpTo(os.log, os.waves);
    hide Members, WavesInOrder, Once, Sorted, Listed, Holding, UpTo, Ready, OnlyPinsIn, NoReapIn, NewReaps, Kernel.Split, Kernel.Faultless;
    ghost var wave, forest, children := os.waves, os.Forest(), os.children;
    ListedOnce(pids, os.children);
    var pinned, failed := PinWave(os, wave, pids, blocked);
    PinnedAreChildren(children, pids, blocked, pinned, failed);
    ghost var log := os.log;
    var rest;
    reaped, rest := EndWave(os, wave, pinned, old(os.held));
    NewReapsOn(old(os.log), log, os.log, [], reaped);
    assert [] + reaped == reaped;
    stuck := failed + rest;
    WaveProgress(forest, children, pids, blocked, pinned, failed, reaped, rest);
    os.waves := wave + 1;
  }

  /** Kills and reaps a pinned wave. */
  method EndWave(os: Kernel, ghost wave: nat, pinned: seq<Pid>, ghost held: multiset<Pid>)
    returns (reaped: seq<Pid>, failed: set<Pid>)
    requires Ready(os.log, wave, pinned) && NoReapIn(os.log, wave) && Once(pinned) && os.held == Holding(held, pinned)
    modifies os`calls, os`children, os`below, os`held, os`log, os`faults, os`gone
    ensures os.gone == old(os.gone) + reaped && NewReaps(old(os.log), os.log, reaped)
    ensures old(os.children) - Members(reaped) <= os.children && (old(os.Split()) ==> os.Split())
    ensures WavesInOrder(os.log) && UpTo(os.log, wave + 1) && old(os.log) <= os.log && os.held == held
    ensures Sorted(pinned, {}, reaped, failed)
    ensures os.Forest() == old(os.Forest()) - Members(reaped) && Members(reaped) <= old(os.Forest())
    ensures os.faults >= old(os.faults)
    ensures failed != {} && Members(pinned) <= old(os.children) ==> os.faults > old(os.faults)
    ensures os.Faultless() && Members(pinned) <= old(os.children) ==> os.faults == old(os.faults)
  {
    hide Members, WavesInOrder, Once, Sorted, Holding, UpTo, NoReapIn, NewReaps, Kernel.Split, Kernel.Faultless;
    ghost var log := os.log;
    KillWave(os, wave, pinned);
    ghost var killed := os.log;
    reaped, failed := ReapWave(os, wave, pinned, held);
    NewReapsOn(log, killed, os.log, [], reaped);
    assert [] + reaped == reaped;
  }

  ghost function Members(pids: seq<Pid>): set<Pid> {
    set pid | pid in pids
  }
}
