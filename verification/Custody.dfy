/**
  Custody of processes by one coordinator (scripts/canary_process_custody.py: Group,
  OwnedProcess and Custody).  Every system call may fail and every observation of a process may
  come out any way: what happens is a parameter, and a method that raises returns false.
*/
module Custody {
  import opened Options
  import opened OrphanDrain

  /** Who may wait for a process. */
  datatype WaitOwner = Shell | Observer | Custodian | Reaped

  /** What a bounded poll for an exit comes back with. */
  datatype Status = Pending | Exited(value: int)

  datatype Origin = External | Direct | ObserverChild

  function FirstOwner(origin: Origin): WaitOwner {
    match origin
    case External => Shell
    case Direct => Custodian
    case ObserverChild => Observer
  }

  /** Wait ownership moves from the observer to the custodian to nobody, and only for its child. */
  ghost predicate MovesOn(origin: Origin, a: WaitOwner, b: WaitOwner) {
    || a == b
    || (origin == ObserverChild && a == Observer && b == Custodian)
    || (origin == ObserverChild && a == Custodian && b == Reaped)
  }

  /** What comes of ending a process: the signal, the wait, and the second wait without patience. */
  datatype Ending = Ending(signalFails: bool, first: Option<int>, second: Option<int>)

  /** What comes of stopping a group; a cancellation may arrive before and after. */
  datatype Stopping = Stopping(cancelBefore: bool, unready: bool, sendFails: bool, unconfirmed: bool, cancelAfter: bool)

  datatype Resuming = Resuming(sendFails: bool, unconfirmed: bool)

  /** A CONT goes out if one is owed, the handle is open and the call works. */
  predicate Sends(owed: bool, closed: bool, f: Resuming) {
    owed && !closed && !f.sendFails
  }

  /** Nothing to complain about: nothing was owed, or it was paid and confirmed. */
  predicate Resumes(owed: bool, closed: bool, f: Resuming) {
    !closed && (!owed || (!f.sendFails && !f.unconfirmed))
  }

  datatype Launching = Launching(cancelBefore: bool, startFails: bool, opens: bool, valid: bool, cancelAfter: bool)

  datatype Retaining = Retaining(cancelBefore: bool, onlyChild: bool, opens: bool, valid: bool, still: bool, cancelAfter: bool)

  /** One look at a child that is waited for. */
  datatype Poll = Signalled | Running | Ended(mine: bool, value: int)

  /** What a series of looks finds before the deadline. */
  function Polled(polls: seq<Poll>): Status {
    if polls == [] then Pending
    else
      match polls[0]
      case Signalled => Pending
      case Running => Polled(polls[1..])
      case Ended(mine, value) => if mine then Exited(value) else Pending
  }

  /** Whether a signal ends the looks. */
  predicate Interrupted(polls: seq<Poll>) {
    polls != [] && (polls[0].Signalled? || (polls[0].Running? && Interrupted(polls[1..])))
  }

  /** All that may come of closing a scope. */
  datatype Closing = Closing(resume: Group -> Resuming, end: OwnedProcess -> Ending, policyFails: bool,
                             shutFails: Group -> bool, restoreFails: bool, signal: bool)

  /** Whether ending a process settles it, and whether it reports no error. */
  predicate Settles(launched: bool, f: Ending) {
    launched && (f.first.Some? || f.second.Some?)
  }

  predicate Ends(launched: bool, settled: bool, f: Ending) {
    !launched || settled || (!f.signalFails && f.first.Some?)
  }

  /** One child process and its ordinary waiter. */
  class OwnedProcess {
    const scope: Custody
    var launched: bool
    var pid: Pid
    var returncode: Option<int>
    var settled: bool
    var group: Group?
    ghost var attempts: nat

    constructor (scope: Custody)
      ensures this.scope == scope && !launched && returncode == None && !settled && group == null && attempts == 0
    {
      this.scope := scope;
      launched, pid, returncode, settled, group, attempts := false, 0, None, false, null, 0;
    }

    ghost predicate Sound()
      reads this
    {
      settled ==> launched && returncode.Some?
    }

    /** Until its status is known a started process is a child of the coordinator. */
    ghost predicate Waitable()
      reads this`launched, this`pid, this`returncode, scope.os`children
    {
      launched && returncode.None? ==> pid in scope.os.children
    }

    /** The kernel gives a status out once, and the child is gone with it. */
    twostate predicate TookStatus()
      reads this`launched, this`pid, this`returncode, scope.os`children, scope.os`below, scope.os`ever, scope.os`gone
    {
      var reaps := old(returncode).None? && returncode.Some?;
      && (old(returncode).Some? ==> returncode == old(returncode)) && (reaps ==> launched)
      && scope.os.children == old(scope.os.children) - (if reaps then {pid} else {})
      && scope.os.gone == old(scope.os.gone) + (if reaps then [pid] else [])
      && (old(scope.os.Tidy()) ==> scope.os.Tidy())
    }

    /** Looks for a status without settling the process. */
    method Poll(status: Option<int>)
      requires Sound() && Waitable()
      modifies this`returncode, scope.os`children, scope.os`gone
      ensures Sound() && Waitable() && TookStatus()
      ensures returncode == if launched && old(returncode).None? then status else old(returncode)
    {
      if launched && returncode.None? && status.Some? {
        scope.os.WaitFor(pid);
        returncode := status;
      }
    }

    /** Waits for an exit status or in vain; a status, once known, stays. */
    method Wait(status: Option<int>) returns (ok: bool, value: int)
      requires Sound() && Waitable()
      modifies this`returncode, this`settled, scope.os`children, scope.os`gone
      ensures Sound() && Waitable() && TookStatus() && (ok <==> launched && status.Some?)
      ensures returncode == if ok && old(returncode).None? then status else old(returncode)
      ensures settled == (old(settled) || ok) && (ok ==> returncode == Some(value))
    {
      value := 0;
      ok := launched && status.Some?;
      if ok {
        Poll(status);
        value := returncode.value;
        settled := true;
      }
    }

    /** Signals the process if it is not settled, then waits; a wait in vain is repeated once. */
    method Terminate(f: Ending) returns (ok: bool)
      requires Sound() && Waitable()
      modifies this`returncode, this`settled, this`attempts, scope.os`children, scope.os`gone
      ensures Sound() && Waitable() && TookStatus() && attempts == old(attempts) + 1
      ensures settled == (old(settled) || (scope.Open() && launched && (f.first.Some? || f.second.Some?)))
      ensures ok <==> scope.Open() && (!launched || old(settled) || (!f.signalFails && f.first.Some?))
    {
      attempts := attempts + 1;
      if !scope.Open() {
        return false;
      }
      if !launched || settled {
        return true;
      }
      var again, value;
      ok, value := Wait(f.first);
      if !ok {
        again, value := Wait(f.second);
      }
      ok := ok && !f.signalFails;
    }
  }

  /** A retained process group; a delivered STOP is a CONT owed. */
  class Group {
    const scope: Custody
    const pid: Pid
    const role: string
    const origin: Origin
    var waitOwner: WaitOwner
    var fd: bool
    var closed: bool
    var owed: bool
    var process: OwnedProcess?
    var observerParent: OwnedProcess?
    // What was done to the group so far.
    ghost var stops: nat
    ghost var conts: nat
    ghost var resumes: nat
    ghost var closes: nat
    ghost var handoffs: nat
    ghost var seenHere: bool

    constructor (scope: Custody, pid: Pid, role: string, origin: Origin)
      ensures this.scope == scope && this.pid == pid && this.role == role && this.waitOwner == FirstOwner(origin)
      ensures this.origin == origin && !fd && process == null && observerParent == null && Booked()
    {
      this.scope, this.pid, this.role, this.waitOwner, this.origin := scope, pid, role, FirstOwner(origin), origin;
      fd, closed, owed, process, observerParent := false, false, false, null, null;
      stops, conts, resumes, closes, handoffs, seenHere := 0, 0, 0, 0, 0, false;
    }

    /** The books of one group: one CONT owed per undone STOP, one close, one wait. */
    ghost predicate Booked()
      reads this
    {
      && stops == conts + (if owed then 1 else 0)
      && closes == (if closed then 1 else 0)
      && handoffs == (if waitOwner == Reaped then 1 else 0)
      && (owed || closed ==> fd)
      && (waitOwner == Reaped ==> seenHere)
      && (origin == External <==> waitOwner == Shell)
      && (origin == Direct ==> waitOwner == Custodian)
    }

    /** A STOP is sent only to an open group that owes nothing, and is then owed. */
    method Stop(f: Stopping) returns (ok: bool)
      requires Booked()
      modifies this`owed, this`stops, scope`cancelled
      ensures Booked()
      ensures var sent := !(old(scope.cancelled) || f.cancelBefore) && !old(owed) && !closed && fd && !f.unready && !f.sendFails;
              && stops == old(stops) + (if sent then 1 else 0) && owed == (old(owed) || sent)
              && scope.cancelled == (old(scope.cancelled) || f.cancelBefore || (sent && !f.unconfirmed && f.cancelAfter))
              && (ok <==> sent && !f.unconfirmed && !scope.cancelled)
    {
      ok := scope.CheckCancelled(f.cancelBefore);
      if !ok || owed || closed || !fd || f.unready || f.sendFails {
        return false;
      }
      owed, stops := true, stops + 1;
      if f.unconfirmed {
        return false;
      }
      ok := scope.CheckCancelled(f.cancelAfter);
    }

    /** Sends the CONT that is owed, whatever the deadline; confirmation may fail afterwards. */
    method Resume(f: Resuming) returns (ok: bool)
      requires Booked()
      modifies this`owed, this`conts, this`resumes
      ensures Booked() && resumes == old(resumes) + 1
      ensures var sent := scope.Open() && Sends(old(owed), closed, f);
              conts == old(conts) + (if sent then 1 else 0) && owed == (old(owed) && !sent)
      ensures ok <==> scope.Open() && Resumes(old(owed), closed, f)
    {
      resumes := resumes + 1;
      if !scope.Open() || closed {
        return false;
      }
      if !owed {
        return true;
      }
      if f.sendFails {
        return false;
      }
      owed, conts := false, conts + 1;
      ok := !f.unconfirmed;
    }

    /** The process of the group, if it has one of its own. */
    function Own(): set<OwnedProcess>
      reads this`process
    {
      if process == null then {} else {process}
    }

    /** The same where a successful exit is as good: then the owned wait, if there is one, decides. */
    method ResumeOrExit(f: Resuming, status: Option<int>) returns (ok: bool)
      requires Booked() && (process != null ==> process.scope == scope && process.Sound() && process.Waitable())
      modifies this`owed, this`conts, this`resumes, Own()`returncode, Own()`settled, scope.os`children, scope.os`gone
      ensures Booked() && resumes == old(resumes) + 1
      ensures var sent := scope.Open() && Sends(old(owed), closed, f);
              && conts == old(conts) + (if sent then 1 else 0) && owed == (old(owed) && !sent)
              && (ok <==> (scope.Open() && Resumes(old(owed), closed, f))
                          || (sent && process != null && process.launched && status.Some? && process.returncode == Some(0)))
      ensures process == null ==> scope.os.children == old(scope.os.children) && scope.os.gone == old(scope.os.gone)
      ensures process != null ==>
        process.Sound() && process.Waitable() && process.TookStatus() && (old(process.settled) ==> process.settled)
    {
      var was := owed;
      ok := Resume(f);
      if !ok && was && !owed && process != null {
        var value;
        ok, value := process.Wait(status);
        ok := ok && value == 0;
      }
    }

    /** Closes the descriptor at most once, even if close fails. */
    method Close(fails: bool) returns (ok: bool)
      requires Booked()
      modifies this`closed, this`closes
      ensures Booked() && closed == (old(closed) || fd) && closes == (if closed then 1 else 0)
      ensures ok <==> !(fd && !old(closed) && fails)
    {
      ok := true;
      if fd && !closed {
        closed, closes := true, closes + 1;
        ok := !fails;
      }
    }
  }

  class Custody {
    const os: Kernel
    var groups: seq<Group>
    var processes: seq<OwnedProcess>
    var reapedOrphans: seq<Pid>
    var cancelled: bool
    var active: bool
    var closed: bool
    var sealed: bool
    var helperDepth: nat

    constructor (os: Kernel)
      ensures this.os == os && groups == [] && processes == [] && reapedOrphans == []
      ensures !active && !closed && !sealed && !cancelled && helperDepth == 0
      ensures Valid() && (os.Tidy() && os.log == [] ==> Kin())
    {
      this.os := os;
      groups, processes, reapedOrphans, cancelled := [], [], [], false;
      active, closed, sealed, helperDepth := false, false, false, 0;
    }

    ghost predicate Valid()
      reads this`groups, this`processes, groups, processes
    {
      && Apart(groups) && Apart(processes)
      && (forall g :: g in groups ==> GroupKept(this, processes, g))
      && (forall p :: p in processes ==> p.scope == this && p.Sound())
    }

    predicate Open()
      reads this
    {
      active && !closed
    }

    /** A signal may have been recorded in the meantime. */
    method CheckCancelled(arrived: bool) returns (ok: bool)
      modifies this`cancelled
      ensures cancelled == (old(cancelled) || arrived) && (ok <==> !cancelled)
    {
      cancelled := cancelled || arrived;
      ok := !cancelled;
    }

    /** Groups are never dropped, and wait ownership only moves on. */
    twostate predicate Onward()
      reads this, groups
    {
      old(groups) <= groups && forall g :: g in old(groups) ==> MovesOn(g.origin, old(g.waitOwner), g.waitOwner)
    }

    twostate predicate NewGroups()
      reads this
    {
      forall k :: |old(groups)| <= k < |groups| ==> fresh(groups[k])
    }

    /**
      The books agree with the kernel.  A direct process is a child until its status is taken,
      and no drain ever took it; an adopted handoff is a child unless a drain took it; what was
      waited for is gone; and the drains reaped what they recorded, and nothing else.
    */
    ghost predicate Kin()
      reads this`groups, this`processes, this`reapedOrphans, groups`waitOwner
      reads processes`launched, processes`pid, processes`returncode
      reads os`children, os`below, os`ever, os`gone, os`log
    {
      && os.Tidy()
      && (forall p :: p in processes && p.launched ==> ChildKept(p))
      && (forall p, q :: p in processes && q in processes && p != q && p.launched && q.launched ==> p.pid != q.pid)
      && (forall g :: g in groups && g.origin == ObserverChild ==> HandoffKept(g))
      && (forall g, h :: g in groups && h in groups && g != h && g.origin == ObserverChild && h.origin == ObserverChild ==> g.pid != h.pid)
      && (forall pid :: pid in reapedOrphans ==> pid in os.gone)
      && (forall e :: e in os.log && e.Reap? ==> e.pid in reapedOrphans)
    }

    ghost predicate ChildKept(p: OwnedProcess)
      reads this`reapedOrphans, p`pid, p`returncode, os`children, os`gone, this`groups, os`ever
    {
      && p.pid in os.ever && p.pid !in reapedOrphans
      && (if p.returncode.None? then p.pid in os.children else p.pid in os.gone)
      && forall g :: g in groups && g.origin == ObserverChild ==> g.pid != p.pid
    }

    ghost predicate HandoffKept(g: Group)
      reads this`reapedOrphans, g`waitOwner, os`children, os`gone, os`ever
    {
      && g.pid in os.ever
      && (g.waitOwner == Custodian ==> g.pid in os.children || g.pid in reapedOrphans)
      && (g.waitOwner == Reaped ==> g.pid in os.gone && g.pid !in reapedOrphans)
    }

    /** An adopted child that nobody has waited for yet. */
    ghost predicate Awaited(g: Group)
      reads g`waitOwner, os`children
    {
      g.origin == ObserverChild && g.waitOwner == Custodian && g.pid in os.children
    }

    /** An adopted child that a drain has reaped; its group still says that it is to be waited for. */
    ghost predicate Stale(g: Group)
      reads this`reapedOrphans, g`waitOwner
    {
      g.origin == ObserverChild && g.waitOwner == Custodian && g.pid in reapedOrphans
    }

    /** The status of one process was taken. */
    twostate lemma KinTaken(p: OwnedProcess)
      requires old(Kin()) && unchanged(this`groups, this`processes, this`reapedOrphans) && p in processes && p.scope == this
      requires (forall g :: g in groups ==> unchanged(g`waitOwner)) && unchanged(os`below, os`ever, os`log)
      requires forall q :: q in processes ==> unchanged(q`launched, q`pid) && (q != p ==> unchanged(q`returncode))
      requires p.TookStatus()
      ensures Kin()
    {
      assert p.launched ==> old(ChildKept(p));
      assert os.Tidy();
      forall q | q in processes && q.launched ensures ChildKept(q) {
        assert old(ChildKept(q));
      }
      forall g | g in groups && g.origin == ObserverChild ensures HandoffKept(g) {
        assert old(HandoffKept(g));
      }
    }

    /** A process was started, and may have got a group. */
    twostate lemma KinStarted(new p: OwnedProcess)
      requires old(Kin()) && old(groups) <= groups && processes == old(processes) + [p] && unchanged(this`reapedOrphans)
      requires p !in old(processes) && p.returncode == None && unchanged(os`below, os`gone, os`log)
      requires forall q :: q in old(processes) ==> unchanged(q`launched, q`pid, q`returncode)
      requires forall g :: g in old(groups) ==> unchanged(g`waitOwner)
      requires forall k :: |old(groups)| <= k < |groups| ==> groups[k].origin == Direct
      requires if p.launched then p.pid !in old(os.ever) && os.children == old(os.children) + {p.pid} && os.ever == old(os.ever) + {p.pid}
               else unchanged(os`children, os`ever)
      requires os.Tidy()
      ensures Kin()
    {
      forall g | g in groups && g.origin == ObserverChild ensures HandoffKept(g) && g in old(groups) {
        var k :| 0 <= k < |groups| && groups[k] == g;
        assert g == old(groups)[k];
        assert old(HandoffKept(g));
      }
      assert old(os.Tidy());
      assert old(forall pid :: pid in reapedOrphans ==> pid in os.gone);
      var pid := p.pid;
      assert pid in reapedOrphans ==> pid in old(os.gone);
      forall q | q in processes && q.launched ensures ChildKept(q) {
        assert q != p ==> old(ChildKept(q));
        assert forall g :: g in groups && g.origin == ObserverChild ==> old(HandoffKept(g));
      }
      forall x, y | x in processes && y in processes && x != y && x.launched && y.launched ensures x.pid != y.pid {
        assert x != p ==> old(ChildKept(x));
        assert y != p ==> old(ChildKept(y));
      }
    }

    /** A group was added that is not a handoff, or is one of a process below. */
    twostate lemma KinPinned(new g: Group, pid: Pid)
      requires old(Kin()) && groups == old(groups) + [g] && unchanged(this`processes, this`reapedOrphans) && g !in old(groups)
      requires (forall h :: h in old(groups) ==> unchanged(h`waitOwner)) && (forall p :: p in processes ==> unchanged(p`launched, p`pid, p`returncode))
      requires unchanged(os`children, os`below, os`gone, os`log) && os.ever >= old(os.ever)
      requires g.origin == ObserverChild ==> g.waitOwner == Observer && g.pid == pid && pid in os.below && !old(Retained(pid))
      ensures Kin()
    {
      assert old(os.Tidy());
      assert os.Tidy();
      forall h | h in groups && h.origin == ObserverChild ensures HandoffKept(h) {
        assert h != g ==> old(HandoffKept(h));
      }
      forall p | p in processes && p.launched ensures ChildKept(p) {
        assert old(ChildKept(p));
      }
    }

    /** One handoff moved on. */
    twostate lemma KinMoved(g: Group)
      requires old(Kin()) && unchanged(this`groups, this`processes, this`reapedOrphans) && g in groups && g.origin == ObserverChild
      requires (forall h :: h in groups && h != g ==> unchanged(h`waitOwner)) && unchanged(os`below, os`ever, os`log)
      requires forall p :: p in processes ==> unchanged(p`launched, p`pid, p`returncode)
      requires g.pid in old(os.children)
      requires || (g.waitOwner == Custodian && unchanged(os`children, os`gone))
               || (g.waitOwner == Reaped && os.children == old(os.children) - {g.pid} && os.gone == old(os.gone) + [g.pid] && os.Tidy())
      ensures Kin()
    {
      assert old(HandoffKept(g)) && old(os.Tidy());
      forall h | h in groups && h.origin == ObserverChild ensures HandoffKept(h) {
        assert old(HandoffKept(h));
      }
      forall p | p in processes && p.launched ensures ChildKept(p) {
        assert old(ChildKept(p));
      }
    }

    /** A drain took these; no direct process and no handoff that was waited for is among them. */
    twostate lemma KinDrained(reaped: seq<Pid>)
      requires old(Kin()) && unchanged(this`groups, this`processes) && reapedOrphans == old(reapedOrphans) + reaped
      requires (forall h :: h in groups ==> unchanged(h`waitOwner)) && unchanged(os`ever)
      requires forall p :: p in processes ==> unchanged(p`launched, p`pid, p`returncode) && (p.launched ==> p.returncode.Some?)
      requires os.Tidy() && os.gone == old(os.gone) + reaped && NewReaps(old(os.log), os.log, reaped)
      requires Members(reaped) <= old(os.Forest()) && old(os.children) - Members(reaped) <= os.children
      ensures Kin()
    {
      assert old(os.Tidy());
      assert forall pid :: pid in reaped ==> pid in Members(reaped) && pid in old(os.Forest()) && pid !in old(os.gone);
      forall h | h in groups && h.origin == ObserverChild ensures HandoffKept(h) {
        assert old(HandoffKept(h));
        assert h.pid in old(os.children) && h.pid !in reaped ==> h.pid in old(os.children) - Members(reaped);
      }
      forall p | p in processes && p.launched ensures ChildKept(p) {
        assert old(ChildKept(p));
      }
    }

    /** Processes come, go and move among themselves; no child is lost. */
    twostate lemma KinElsewhere()
      requires old(Kin()) && unchanged(this`groups, this`processes, this`reapedOrphans) && unchanged(os`gone, os`log)
      requires (forall h :: h in groups ==> unchanged(h`waitOwner)) && (forall p :: p in processes ==> unchanged(p`launched, p`pid, p`returncode))
      requires os.Tidy() && old(os.children) <= os.children && old(os.ever) <= os.ever
      ensures Kin()
    {
      forall h | h in groups && h.origin == ObserverChild ensures HandoffKept(h) {
        assert old(HandoffKept(h));
      }
      forall p | p in processes && p.launched ensures ChildKept(p) {
        assert old(ChildKept(p));
      }
    }

    /** A change to one group is a matter of that group. */
    twostate lemma OneGroup(g: Group)
      requires old(Valid()) && groups == old(groups) && processes == old(processes)
      requires forall h :: h in groups && h != g ==> unchanged(h)
      requires forall p :: p in processes ==> unchanged(p)
      requires g in groups ==> GroupKept(this, processes, g)
      ensures Valid()
    {
      forall h | h in groups ensures GroupKept(this, processes, h) {
        if h != g {
          assert old(GroupKept(this, processes, h));
        }
      }
      forall p | p in processes ensures p.scope == this && p.Sound() {
        assert old(p.Sound());
      }
    }

    twostate lemma OneGroupBooked(g: Group)
      requires old(Valid()) && groups == old(groups) && processes == old(processes) && g in groups
      requires forall h :: h in groups && h != g ==> unchanged(h)
      requires forall p :: p in processes ==> unchanged(p)
      requires g.Booked() && unchanged(g`process, g`observerParent, g`waitOwner)
      ensures Valid()
    {
      assert old(GroupKept(this, processes, g));
      OneGroup(g);
    }

    /** A process may settle; what it did successfully stays so. */
    twostate lemma OneProcess(p: OwnedProcess)
      requires old(Valid()) && groups == old(groups) && processes == old(processes) && p in processes
      requires forall g :: g in groups ==> unchanged(g)
      requires forall q :: q in processes && q != p ==> unchanged(q)
      requires p.Sound() && (old(Succeeded(p)) ==> Succeeded(p))
      ensures Valid()
    {
      forall g | g in groups ensures GroupKept(this, processes, g) {
        assert old(GroupKept(this, processes, g));
        if g.observerParent != null && g.observerParent in processes && old(Succeeded(g.observerParent)) {
          assert Succeeded(g.observerParent);
        }
      }
      forall q | q in processes ensures q.scope == this && q.Sound() {
        assert old(q.Sound());
      }
    }

    /** The scope opens once, and for a coordinator without children; a policy that cannot be installed, or a signal, closes it for good. */
    method Enter(policyFails: bool, installFails: bool, signal: bool) returns (ok: bool)
      requires Valid()
      modifies this`active, this`closed, this`cancelled
      ensures Valid() && Onward()
      ensures var mayEnter := !old(active) && !old(closed) && !policyFails && os.children == {};
              && active == (old(active) || (mayEnter && !installFails))
              && closed == (old(closed) || (mayEnter && (installFails || cancelled)))
              && cancelled == (old(cancelled) || (mayEnter && !installFails && signal))
              && (ok <==> mayEnter && !installFails && !cancelled)
    {
      if active || closed || policyFails || os.children != {} {
        return false;
      }
      if installFails {
        closed := true;
        return false;
      }
      active := true;
      ok := CheckCancelled(signal);
      if !ok {
        closed := true;
      }
    }

    /** Retains a group; the group is on the list before its descriptor is opened. */
    method Pin(pid: Pid, role: string, origin: Origin, opens: bool, valid: bool) returns (ok: bool, g: Group)
      requires Valid()
      modifies this`groups
      ensures Valid() && groups == old(groups) + [g] && fresh(g) && g.fd == opens && (ok <==> opens && valid)
      ensures g.pid == pid && g.role == role && g.origin == origin && g.waitOwner == FirstOwner(origin)
      ensures g.observerParent == null && g.process == null && !g.owed && !g.closed
    {
      g := new Group(this, pid, role, origin);
      groups := groups + [g];
      g.fd := opens;
      ok := opens && valid;
    }

    /** Lists a process and starts it; the kernel gives it a number. */
    method AddProcess(started: bool) returns (p: OwnedProcess)
      requires Valid()
      modifies this`processes, os`children, os`ever
      ensures Valid() && processes == old(processes) + [p] && fresh(p)
      ensures p.scope == this && p.launched == started && !p.settled && p.returncode == None && p.group == null
      ensures if started then p.pid !in old(os.ever) && os.children == old(os.children) + {p.pid} && os.ever == old(os.ever) + {p.pid}
              else os.children == old(os.children) && os.ever == old(os.ever)
      ensures old(Kin()) ==> Kin()
    {
      assert Kin() ==> os.Tidy();
      hide GroupKept, Kin;
      p := new OwnedProcess(this);
      processes := processes + [p];
      if started {
        p.pid := os.Fork();
        p.launched := true;
      }
      if old(Kin()) {
        KinStarted(p);
      }
    }

    /** A direct group and its process know each other. */
    method Tie(p: OwnedProcess, g: Group)
      requires Valid() && p in processes && g in groups
      modifies p`group, g`process
      ensures Valid() && p.group == g && g.process == p
    {
      p.group, g.process := g, p;
    }

    method SetParent(g: Group, observer: OwnedProcess)
      requires Valid() && g in groups && g.waitOwner == Observer && observer in processes
      modifies g`observerParent
      ensures Valid() && g.observerParent == observer
    {
      g.observerParent := observer;
      OneGroup(g);
    }

    predicate Retained(pid: Pid)
      reads this
    {
      exists g | g in groups :: g.pid == pid
    }

    /** An external group is borrowed once; its wait stays with the shell. */
    method Borrow(pid: Pid, role: string, signal: bool, opens: bool, valid: bool) returns (ok: bool)
      requires Valid()
      modifies this`groups, this`cancelled, os`ever
      ensures Valid() && Onward() && processes == old(processes) && NewGroups() && (old(Kin()) ==> Kin())
      ensures var may := Open() && !cancelled && !old(Retained(pid));
              |groups| == |old(groups)| + (if may then 1 else 0) && (ok <==> may && opens && valid)
      ensures cancelled == (old(cancelled) || (Open() && signal))
    {
      if !Open() {
        return false;
      }
      ok := CheckCancelled(signal);
      if !ok || Retained(pid) {
        return false;
      }
      hide GroupKept, Kin;
      var g;
      ok, g := Pin(pid, role, External, opens, valid);
      os.Know(pid);
      if old(Kin()) {
        KinPinned(g, g.pid);
      }
    }

    /** The group of a direct process, and the two know each other. */
    method PinDirect(p: OwnedProcess, role: string, opens: bool, valid: bool) returns (ok: bool, g: Group)
      requires Valid() && p in processes
      modifies this`groups, p`group
      ensures Valid() && (old(Kin()) ==> Kin()) && groups == old(groups) + [g] && fresh(g) && (ok <==> opens && valid)
      ensures p.group == g && g.process == p && g.pid == p.pid && g.role == role && g.origin == Direct && g.fd == opens
    {
      hide GroupKept, Kin;
      ok, g := Pin(p.pid, role, Direct, opens, valid);
      if old(Kin()) {
        KinPinned(g, g.pid);
      }
      Tie(p, g);
    }

    /** A process is on the list before it is started: a failed start leaves it there for good. */
    method Launch(role: string, f: Launching) returns (ok: bool, p: OwnedProcess?)
      requires Valid()
      modifies this`groups, this`processes, this`cancelled, os`children, os`ever
      ensures Valid() && Onward() && NewGroups() && (old(Kin()) ==> Kin())
      ensures var may := Open() && !(old(cancelled) || f.cancelBefore) && !sealed && helperDepth == 0;
              && (p == null <==> !may)
              && processes == (if may then old(processes) + [p] else old(processes))
              && (may ==> fresh(p) && p.launched == !f.startFails && !p.settled && p.returncode == None)
              && groups == (if may && !f.startFails then old(groups) + [p.group] else old(groups))
              && (may && p.launched ==>
                    && p.group in groups && p.group.process == p && p.group.pid == p.pid
                    && p.group.role == role && p.group.origin == Direct && p.group.fd == f.opens)
              && (if may && !f.startFails then
                    p.pid !in old(os.ever) && os.children == old(os.children) + {p.pid} && os.ever == old(os.ever) + {p.pid}
                  else os.children == old(os.children) && os.ever == old(os.ever))
              && cancelled == (old(cancelled) || (Open() && f.cancelBefore)
                               || (may && !f.startFails && f.opens && f.valid && f.cancelAfter))
              && (ok <==> may && !f.startFails && f.opens && f.valid && !cancelled)
    {
      hide GroupKept, Kin;
      if !Open() {
        return false, null;
      }
      ok := CheckCancelled(f.cancelBefore);
      if !ok || sealed || helperDepth != 0 {
        return false, null;
      }
      p := AddProcess(!f.startFails);
      if f.startFails {
        return false, p;
      }
      var g;
      ok, g := PinDirect(p, role, f.opens, f.valid);
      if ok {
        ok := CheckCancelled(f.cancelAfter);
      }
    }

    /** This scope's live direct observer. */
    predicate LiveObserver(p: OwnedProcess)
      reads this, p, p.group
    {
      && p in processes && !p.settled && p.launched && p.group != null && p.group in groups
      && p.group.process == p && p.group.role == "observer" && p.group.origin == Direct
    }

    /** Retains the live observer's only child without taking its wait. */
    method RetainObserverChild(observer: OwnedProcess, pid: Pid, f: Retaining) returns (ok: bool)
      requires Valid()
      modifies this`groups, this`cancelled
      ensures Valid() && Onward() && processes == old(processes) && NewGroups() && (old(Kin()) ==> Kin())
      ensures var may := Open() && !(old(cancelled) || f.cancelBefore) && !sealed && helperDepth == 0
                         && old(LiveObserver(observer)) && pid in os.below && f.onlyChild && !old(Retained(pid));
              && |groups| == |old(groups)| + (if may then 1 else 0)
              && cancelled == (old(cancelled) || (Open() && f.cancelBefore)
                               || (may && f.opens && f.valid && f.still && f.cancelAfter))
              && (ok <==> may && f.opens && f.valid && f.still && !cancelled)
      ensures ok ==> var g := groups[|groups| - 1];
                     g.pid == pid && g.waitOwner == Observer && g.origin == ObserverChild && g.observerParent == observer
    {
      hide Valid, Kin, LiveObserver, Retained;
      ok := MayRetain(observer, pid, f);
      if !ok {
        return false;
      }
      ok := PinHandoff(observer, pid, f);
      if ok {
        ok := CheckCancelled(f.cancelAfter);
      }
    }

    method MayRetain(observer: OwnedProcess, pid: Pid, f: Retaining) returns (may: bool)
      modifies this`cancelled
      ensures may <==> Open() && !cancelled && !sealed && helperDepth == 0
                       && LiveObserver(observer) && pid in os.below && f.onlyChild && !Retained(pid)
      ensures may ==> observer in processes
      ensures cancelled == (old(cancelled) || (Open() && f.cancelBefore))
    {
      if !Open() {
        return false;
      }
      may := CheckCancelled(f.cancelBefore);
      may := may && !sealed && helperDepth == 0 && LiveObserver(observer) && pid in os.below && f.onlyChild && !Retained(pid);
    }

    /** The group of a handoff; it is on the list even if it cannot be pinned or confirmed. */
    method PinHandoff(observer: OwnedProcess, pid: Pid, f: Retaining) returns (ok: bool)
      requires Valid() && observer in processes && pid in os.below && !Retained(pid)
      modifies this`groups
      ensures Valid() && Onward() && NewGroups() && (old(Kin()) ==> Kin()) && |groups| == |old(groups)| + 1
      ensures ok <==> f.opens && f.valid && f.still
      ensures var g := groups[|groups| - 1];
              && g.pid == pid && g.waitOwner == Observer && g.origin == ObserverChild
              && g.observerParent == if ok then observer else null
    {
      hide GroupKept, Kin;
      var g;
      ok, g := Pin(pid, "workload", ObserverChild, f.opens, f.valid);
      if old(Kin()) {
        KinPinned(g, g.pid);
      }
      ok := ok && f.still;
      if ok {
        SetParent(g, observer);
      }
    }

    /** Takes the wait of a child handed back by its successful observer. */
    method AdoptObserverChild(observer: OwnedProcess, g: Group, signal: bool, alive: bool, signalAfter: bool) returns (ok: bool)
      requires Valid()
      modifies this`cancelled, g`waitOwner
      ensures Valid() && Onward() && groups == old(groups) && (old(Kin()) ==> Kin())
      ensures var may := && Open() && !(old(cancelled) || signal) && !sealed && helperDepth == 0
                         && observer in processes && Succeeded(observer)
                         && g in groups && g.observerParent == observer && g.origin == ObserverChild
                         && old(g.waitOwner) == Observer && g.pid in os.children && alive;
              && (ok <==> may && !signalAfter)
              && cancelled == (old(cancelled) || (Open() && signal) || (may && signalAfter))
      ensures g.waitOwner == if ok then Custodian else old(g.waitOwner)
    {
      if !Open() {
        return false;
      }
      ok := CheckCancelled(signal);
      if !ok || sealed || helperDepth != 0 || observer !in processes || !observer.settled || observer.returncode != Some(0)
         || g !in groups || g.observerParent != observer || g.origin != ObserverChild || g.waitOwner != Observer {
        return false;
      }
      if g.pid !in os.children || !alive {
        return false;
      }
      ok := CheckCancelled(signalAfter);
      if ok {
        g.waitOwner := Custodian;
        OneGroup(g);
        hide Kin;
        if old(Kin()) {
          KinMoved(g);
        }
      }
    }

    /** Reaps an adopted child, polling until the deadline. */
    method WaitObserverChild(g: Group, signal: bool, same: bool, polls: seq<Poll>) returns (ok: bool)
      requires Valid()
      modifies this`cancelled, g`waitOwner, g`handoffs, g`seenHere, os`children, os`gone
      ensures Valid() && Onward() && groups == old(groups) && (old(Kin()) ==> Kin())
      ensures var may := Open() && !(old(cancelled) || signal) && g in groups && !g.closed
                         && g.origin == ObserverChild && old(g.waitOwner) == Custodian && g.pid in old(os.children) && same;
              var reaps := may && Polled(polls).Exited?;
              && g.waitOwner == (if reaps then Reaped else old(g.waitOwner))
              && os.children == old(os.children) - (if reaps then {g.pid} else {})
              && os.gone == old(os.gone) + (if reaps then [g.pid] else [])
              && cancelled == (old(cancelled) || (Open() && signal) || (may && Interrupted(polls)))
              && (ok <==> may && Polled(polls) == Exited(0))
      ensures g.waitOwner != old(g.waitOwner) ==>
                g.seenHere && g.handoffs == 1 && g.observerParent != null && Succeeded(g.observerParent)
    {
      hide Valid, Kin;
      ok := MayWait(g, signal, same);
      if !ok {
        return false;
      }
      var status := PollExit(polls);
      if status == Pending {
        return false;
      }
      TakeHandoff(g);
      ok := status == Exited(0);
    }

    method MayWait(g: Group, signal: bool, same: bool) returns (may: bool)
      requires Valid()
      modifies this`cancelled
      ensures Valid()
      ensures may <==> Open() && !cancelled && g in groups && !g.closed && g.origin == ObserverChild
                       && g.waitOwner == Custodian && g.pid in os.children && same
      ensures cancelled == (old(cancelled) || (Open() && signal))
    {
      if !Open() {
        return false;
      }
      may := CheckCancelled(signal);
      may := may && g in groups && !g.closed && g.origin == ObserverChild && g.waitOwner == Custodian
             && g.observerParent != null && g.observerParent.settled && g.pid in os.children && same;
    }

    method TakeHandoff(g: Group)
      requires Valid() && g in groups && g.origin == ObserverChild && g.waitOwner == Custodian && g.pid in os.children
      modifies g`waitOwner, g`handoffs, g`seenHere, os`children, os`gone
      ensures Valid() && Onward() && (old(Kin()) ==> Kin()) && g.waitOwner == Reaped && g.seenHere && g.handoffs == 1
      ensures os.children == old(os.children) - {g.pid} && os.gone == old(os.gone) + [g.pid]
      ensures g.observerParent != null && Succeeded(g.observerParent)
    {
      KeptIsBooked(this, processes, g);
      g.seenHere, g.waitOwner, g.handoffs := true, Reaped, g.handoffs + 1;
      OneGroup(g);
      os.WaitFor(g.pid);
      if old(Kin()) {
        assert os.Tidy();
        KinMoved(g);
      }
    }

    /** Polls for the exit of a child; a cancellation, the deadline and a wrong identity all end it. */
    method PollExit(polls: seq<Poll>) returns (status: Status)
      requires !cancelled && Valid()
      modifies this`cancelled
      ensures Valid() && status == Polled(polls) && cancelled == Interrupted(polls)
    {
      for k := 0 to |polls|
        invariant Polled(polls) == Polled(polls[k..]) && Interrupted(polls) == Interrupted(polls[k..]) && !cancelled && Valid()
      {
        var calm := CheckCancelled(polls[k].Signalled?);
        if !calm {
          return Pending;
        }
        if polls[k].Ended? {
          return if polls[k].mine then Exited(polls[k].value) else Pending;
        }
      }
      return Pending;
    }

    method EnterHelper(signal: bool) returns (ok: bool)
      requires Valid()
      modifies this`helperDepth, this`cancelled
      ensures Valid() && Onward()
      ensures ok <==> Open() && !sealed && old(helperDepth) == 0 && !cancelled
      ensures helperDepth == if ok then 1 else old(helperDepth)
      ensures cancelled == (old(cancelled) || (Open() && !sealed && old(helperDepth) == 0 && signal))
    {
      if !Open() || sealed || helperDepth != 0 {
        return false;
      }
      ok := CheckCancelled(signal);
      if ok {
        helperDepth := 1;
      }
    }

    method LeaveHelper()
      requires Valid() && helperDepth == 1
      modifies this`helperDepth
      ensures Valid() && Onward() && helperDepth == 0
    {
      helperDepth := 0;
    }

    method StopGroup(g: Group, f: Stopping) returns (ok: bool)
      requires Valid() && g in groups
      modifies this`cancelled, g`owed, g`stops
      ensures Valid() && Onward() && g.stops == old(g.stops) + (if g.owed && !old(g.owed) then 1 else 0)
      ensures ok ==> g.owed && !old(g.owed) && !cancelled
    {
      hide GroupKept;
      KeptIsBooked(this, processes, g);
      ok := g.Stop(f);
      OneGroupBooked(g);
    }

    method ResumeGroup(g: Group, f: Resuming) returns (ok: bool)
      requires Valid() && g in groups
      modifies g`owed, g`conts, g`resumes
      ensures Valid() && Onward() && g.resumes == old(g.resumes) + 1
      ensures g.owed == (old(g.owed) && !(Open() && Sends(old(g.owed), g.closed, f)))
      ensures ok <==> Open() && Resumes(old(g.owed), g.closed, f)
    {
      hide GroupKept;
      KeptIsBooked(this, processes, g);
      ok := g.Resume(f);
      OneGroupBooked(g);
    }

    /** The waits of one process, with the books kept. */
    method WaitProcess(p: OwnedProcess, status: Option<int>) returns (ok: bool)
      requires Valid() && Kin() && p in processes
      modifies p`returncode, p`settled, os`children, os`gone
      ensures Valid() && Kin() && Onward() && p.TookStatus() && (ok <==> p.launched && status.Some?)
      ensures p.settled == (old(p.settled) || ok)
      ensures p.returncode == if ok && old(p.returncode).None? then status else old(p.returncode)
    {
      KinIsWaitable(p);
      hide GroupKept, Kin;
      var value;
      ok, value := p.Wait(status);
      OneProcess(p);
      KinTaken(p);
    }

    method PollProcess(p: OwnedProcess, status: Option<int>)
      requires Valid() && Kin() && p in processes
      modifies p`returncode, os`children, os`gone
      ensures Valid() && Kin() && Onward() && p.TookStatus()
      ensures p.returncode == if p.launched && old(p.returncode).None? then status else old(p.returncode)
    {
      KinIsWaitable(p);
      hide GroupKept, Kin;
      p.Poll(status);
      OneProcess(p);
      KinTaken(p);
    }

    lemma KinIsWaitable(p: OwnedProcess)
      requires Kin() && p in processes && p.scope == this
      ensures p.Waitable()
    {
      assert p.launched ==> ChildKept(p);
    }

    /** Resumes a group whose own process may have exited successfully instead. */
    method ResumeOrExitGroup(g: Group, f: Resuming, status: Option<int>) returns (ok: bool)
      requires Valid() && Kin() && g in groups
      modifies g`owed, g`conts, g`resumes, g.Own()`returncode, g.Own()`settled, os`children, os`gone
      ensures Valid() && Kin() && Onward()
      ensures var sent := Open() && Sends(old(g.owed), g.closed, f);
              && g.conts == old(g.conts) + (if sent then 1 else 0) && g.owed == (old(g.owed) && !sent)
              && (ok <==> (Open() && Resumes(old(g.owed), g.closed, f))
                          || (sent && g.process != null && g.process.launched && status.Some? && g.process.returncode == Some(0)))
    {
      hide GroupKept, Kin;
      KeptIsBooked(this, processes, g);
      ghost var p := g.process;
      if p != null {
        KinIsWaitable(p);
      }
      ok := g.ResumeOrExit(f, status);
      OneGroupAndProcess(g);
      if p != null {
        KinTaken(p);
      }
    }

    twostate lemma OneGroupAndProcess(g: Group)
      requires old(Valid()) && groups == old(groups) && processes == old(processes) && g in groups
      requires forall h :: h in groups && h != g ==> unchanged(h)
      requires forall p :: p in processes && p != g.process ==> unchanged(p)
      requires g.Booked() && unchanged(g`process, g`observerParent, g`waitOwner)
      requires g.process != null ==> g.process.Sound() && (old(Succeeded(g.process)) ==> Succeeded(g.process))
      ensures Valid()
    {
      forall h | h in groups ensures GroupKept(this, processes, h) {
        assert old(GroupKept(this, processes, h));
        if h.observerParent != null && h.observerParent in processes && old(Succeeded(h.observerParent)) {
          assert Succeeded(h.observerParent);
        }
      }
      forall q | q in processes ensures q.scope == this && q.Sound() {
        assert old(q.Sound());
      }
    }

    /**
      Attempts to resume every retained group exactly once, whatever order is asked for; an
      order that is not one of all groups is an error, not a shorter list.
    */
    method ResumeAll(order: Option<seq<Group>>, f: Group -> Resuming) returns (ok: bool)
      requires Valid()
      modifies groups`owed, groups`conts, groups`resumes
      ensures Valid() && Onward()
      ensures !Open() ==> !ok && forall g :: g in groups ==> unchanged(g)
      ensures Open() ==> forall g :: g in groups ==>
                g.resumes == old(g.resumes) + 1 && g.owed == (old(g.owed) && !Sends(old(g.owed), g.closed, f(g)))
      ensures Open() ==>
                (ok <==> (order.None? || EachOnce(order.value, groups)) && forall g :: g in groups ==> Resumes(old(g.owed), g.closed, f(g)))
    {
      if !Open() {
        return false;
      }
      ok := order.None? || EachOnce(order.value, groups);
      var list := if order.Some? && ok then order.value else ObserversFirst(groups);
      ObserversFirstAll(groups);
      var done := ResumeList(list, f);
      ok := ok && done;
    }

    method ResumeList(list: seq<Group>, f: Group -> Resuming) returns (ok: bool)
      requires Valid() && EachOnce(list, groups) && Open()
      modifies groups`owed, groups`conts, groups`resumes
      ensures Valid()
      ensures forall g :: g in groups ==>
                g.resumes == old(g.resumes) + 1 && g.owed == (old(g.owed) && !Sends(old(g.owed), g.closed, f(g)))
      ensures ok <==> forall g :: g in groups ==> Resumes(old(g.owed), g.closed, f(g))
    {
      hide GroupKept, Sends, Resumes;
      ok := true;
      for k := 0 to |list|
        invariant Valid()
        invariant forall g :: g in groups && g !in list[..k] ==> g.resumes == old(g.resumes) && g.owed == old(g.owed)
        invariant forall g :: g in groups && g in list[..k] ==>
          g.resumes == old(g.resumes) + 1 && g.owed == (old(g.owed) && !Sends(old(g.owed), g.closed, f(g)))
        invariant ok <==> forall g :: g in groups && g in list[..k] ==> Resumes(old(g.owed), g.closed, f(g))
      {
        var g := list[k];
        assert g in groups && g !in list[..k] && list[..k + 1] == list[..k] + [g];
        assert g.Booked() && g.scope == this by { KeptIsBooked(this, processes, g); }
        label before:
        var done := g.Resume(f(g));
        OneGroupBooked@before(g);
        ok := ok && done;
      }
      assert list[..|list|] == list;
    }

    static lemma OthersDiffer<T>(s: seq<T>, k: nat)
      requires Apart(s) && k < |s|
      ensures forall i :: 0 <= i < |s| && i != k ==> s[i] != s[k]
    {}

    /** Every direct process gets its attempt, whatever became of the others. */
    method TerminateAll(f: OwnedProcess -> Ending) returns (ok: bool)
      requires Valid() && Kin() && Open()
      modifies processes`returncode, processes`settled, processes`attempts, os`children, os`gone
      ensures Valid() && Kin() && os.children <= old(os.children)
      ensures forall p :: p in processes ==> p.attempts == old(p.attempts) + 1 && p.settled == (old(p.settled) || Settles(p.launched, f(p)))
      ensures ok <==> forall p :: p in processes ==> Ends(p.launched, old(p.settled), f(p))
    {
      assert Apart(processes);
      hide Valid, Settles, Ends, Kin, Onward, Open, Apart;
      ok := true;
      for k := 0 to |processes|
        invariant Valid() && Kin() && os.children <= old(os.children)
        invariant forall i :: 0 <= i < |processes| ==> var p := processes[i];
          && p.attempts == old(p.attempts) + (if i < k then 1 else 0)
          && p.settled == (old(p.settled) || (i < k && Settles(p.launched, f(p))))
        invariant ok <==> forall i :: 0 <= i < k ==> Ends(processes[i].launched, old(processes[i].settled), f(processes[i]))
      {
        var p := processes[k];
        OthersDiffer(processes, k);
        var done := TerminateProcess(p, f(p));
        ok := ok && done;
      }
    }

    /** Ends one process, with the books kept. */
    method TerminateProcess(p: OwnedProcess, f: Ending) returns (ok: bool)
      requires Valid() && Kin() && p in processes
      modifies p`returncode, p`settled, p`attempts, os`children, os`gone
      ensures Valid() && Kin() && Onward() && os.children <= old(os.children) && p.attempts == old(p.attempts) + 1
      ensures p.settled == (old(p.settled) || (Open() && Settles(p.launched, f)))
      ensures ok <==> Open() && Ends(p.launched, old(p.settled), f)
    {
      KinIsWaitable(p);
      hide GroupKept, Kin;
      ok := p.Terminate(f);
      OneProcess(p);
      KinTaken(p);
    }

    /** Closes every descriptor that is still open. */
    method CloseGroups(fails: Group -> bool) returns (ok: bool)
      requires Valid()
      modifies groups`closed, groups`closes
      ensures Valid() && forall g :: g in groups ==> g.closed == (old(g.closed) || g.fd)
      ensures ok <==> forall g :: g in groups ==> !(g.fd && !old(g.closed) && fails(g))
    {
      hide GroupKept;
      ok := true;
      for k := 0 to |groups|
        invariant Valid()
        invariant forall i :: 0 <= i < k ==> groups[i].closed == (old(groups[i].closed) || groups[i].fd)
        invariant forall i :: k <= i < |groups| ==> groups[i].closed == old(groups[i].closed)
        invariant ok <==> forall i :: 0 <= i < k ==> !(groups[i].fd && !old(groups[i].closed) && fails(groups[i]))
      {
        var g := groups[k];
        KeptIsBooked(this, processes, g);
        label before:
        var done := g.Close(fails(g));
        OneGroupBooked@before(g);
        ok := ok && done;
      }
    }

    /**
      Refused while spawning is open, a helper waits, or a direct child is not settled.  It may
      take an adopted child that nobody has waited for yet: without failures it takes exactly
      these, and no other group ever becomes stale.
    */
    method DrainOrphans(policyFails: bool) returns (ok: bool, blocked: set<Pid>, cut: bool)
      requires Valid() && os.InOrder()
      modifies this`reapedOrphans
      modifies os`calls, os`children, os`below, os`held, os`log, os`faults, os`gone, os`waves
      ensures Valid() && Onward() && os.InOrder() && old(os.log) <= os.log && os.held == old(os.held) && (old(Kin()) ==> Kin())
      ensures !Drainable() || policyFails ==>
        !ok && os.children == old(os.children) && os.below == old(os.below) && os.gone == old(os.gone) && os.log == old(os.log)
        && reapedOrphans == old(reapedOrphans) && os.faults == old(os.faults)
      ensures ok ==> os.children == {} && os.log == old(os.log) && reapedOrphans == old(reapedOrphans)
      ensures Drainable() && !policyFails && !cut ==> os.children <= blocked <= os.Forest()
      ensures Drainable() && !policyFails && os.faults == old(os.faults) ==> os.children == {} && (old(os.Forest()) == {} ==> ok)
      ensures os.Faultless() ==> os.faults == old(os.faults)
      ensures old(reapedOrphans) <= reapedOrphans
           && os.Forest() == old(os.Forest()) - Members(reapedOrphans[|old(reapedOrphans)|..])
      ensures old(Kin()) ==> forall g :: g in groups && Stale(g) ==> old(Stale(g)) || old(Awaited(g))
      ensures old(Kin()) && Drainable() && !policyFails && os.faults == old(os.faults) ==>
        forall g :: g in groups ==> (Stale(g) <==> old(Stale(g)) || old(Awaited(g)))
    {
      assert Kin() ==> os.Tidy();
      hide GroupKept, Kin;
      if !Open() || !sealed || helperDepth != 0 || policyFails || exists p | p in processes :: !p.settled {
        assert Members([]) == {};
        return false, {}, true;
      }
      var reaped;
      ok, reaped, blocked, cut := OrphanDrain.Drain(os);
      reapedOrphans := reapedOrphans + reaped;
      if old(Kin()) {
        KinDrained(reaped);
        StaleNow(reaped);
      }
    }

    /** Exactly the awaited handoffs among those that were reaped are stale now. */
    twostate lemma StaleNow(reaped: seq<Pid>)
      requires old(Kin()) && Kin() && unchanged(this`groups) && reapedOrphans == old(reapedOrphans) + reaped
      requires forall h :: h in groups ==> unchanged(h`waitOwner)
      ensures forall g :: g in groups && Stale(g) ==> old(Stale(g)) || old(Awaited(g))
      ensures os.children == {} ==> forall g :: g in groups ==> (Stale(g) <==> old(Stale(g)) || old(Awaited(g)))
    {
      forall g | g in groups && g.origin == ObserverChild
        ensures Stale(g) ==> old(Stale(g)) || old(Awaited(g))
        ensures os.children == {} && old(Awaited(g)) ==> Stale(g)
      {
        assert old(HandoffKept(g)) && HandoffKept(g);
      }
    }

    ghost predicate Drainable()
      reads this, processes
    {
      Open() && sealed && helperDepth == 0 && forall p :: p in processes ==> p.settled
    }

    /** The number of a process the coordinator started itself. */
    ghost predicate StartedHere(pid: Pid)
      reads this`processes, processes`launched, processes`pid
    {
      exists p :: p in processes && p.launched && p.pid == pid
    }

    lemma NoneLeft(children: set<Pid>)
      requires Valid() && Kin() && os.children <= children && os.below == {}
      requires (forall pid :: pid in children ==> StartedHere(pid)) && forall p :: p in processes ==> p.settled
      ensures os.Forest() == {}
    {
      forall p | p in processes && p.launched ensures p.pid !in os.children {
        assert p.Sound() && ChildKept(p);
        os.InOnePlace(p.pid);
      }
      assert forall pid :: pid in os.children ==> !StartedHere(pid);
      assert forall pid :: pid !in os.children;
    }

    /** Nothing fails, nothing is left to inherit, and every process was started. */
    ghost predicate Smooth(f: Closing)
      reads this, groups, processes, os
    {
      && !cancelled && !f.signal && !f.policyFails && !f.restoreFails && helperDepth == 0
      && os.below == {} && (forall pid :: pid in os.children ==> StartedHere(pid))
      && (forall g :: g in groups ==> Resumes(g.owed, g.closed, f.resume(g)) && !f.shutFails(g))
      && (forall p :: p in processes ==> p.launched && Ends(true, p.settled, f.end(p)))
    }

    /**
      Ends the scope, whatever fails on the way.  If it returns, every process is settled, no
      child and no debt is left, and nothing was cancelled; and if nothing fails it returns.
    */
    method Close(f: Closing) returns (ok: bool)
      requires Valid() && Kin() && os.InOrder()
      modifies this`active, this`closed, this`sealed, this`cancelled, this`reapedOrphans
      modifies os`calls, os`children, os`below, os`held, os`log, os`faults, os`gone, os`waves
      modifies groups`owed, groups`conts, groups`resumes, groups`closed, groups`closes
      modifies processes`returncode, processes`settled, processes`attempts
      ensures Valid() && Onward() && Kin() && os.InOrder() && os.held == old(os.held)
      ensures old(closed) ==> ok && active == old(active) && closed
      ensures !old(closed) && !old(active) ==> !ok && !active && !closed
      ensures old(Open()) ==>
        && closed && !active && sealed
        && (forall g :: g in groups ==> g.resumes == old(g.resumes) + 1 && (g.fd ==> g.closed))
        && (forall p :: p in processes ==> p.attempts == old(p.attempts) + 1)
      ensures old(Open()) && ok ==>
        && (forall p :: p in processes ==> p.launched && p.settled)
        && (forall g :: g in groups ==> !g.owed && g.stops == g.conts)
        && os.children == {} && reapedOrphans == old(reapedOrphans) && !cancelled && helperDepth == 0
      ensures old(Open()) && old(Smooth(f)) && os.faults == old(os.faults) ==> ok
    {
      hide GroupKept, Smooth, Kin;
      if closed {
        return true;
      }
      if !active {
        return false;
      }
      ok := EndScope(f);
    }

    /** Every group is resumed and every process ended. */
    ghost predicate AllEnd(f: Closing)
      reads this, groups, processes
    {
      && (forall g :: g in groups ==> Resumes(g.owed, g.closed, f.resume(g)))
      && (forall p :: p in processes ==> Ends(p.launched, p.settled, f.end(p)))
    }

    method EndScope(f: Closing) returns (ok: bool)
      requires Valid() && Kin() && os.InOrder() && Open()
      modifies this`active, this`closed, this`sealed, this`cancelled, this`reapedOrphans
      modifies os`calls, os`children, os`below, os`held, os`log, os`faults, os`gone, os`waves
      modifies groups`owed, groups`conts, groups`resumes, groups`closed, groups`closes
      modifies processes`returncode, processes`settled, processes`attempts
      ensures Valid() && Kin() && os.InOrder() && os.held == old(os.held)
      ensures closed && !active && sealed
      ensures forall g :: g in groups ==> g.resumes == old(g.resumes) + 1 && (g.fd ==> g.closed)
      ensures forall p :: p in processes ==> p.attempts == old(p.attempts) + 1
      ensures ok ==> forall p :: p in processes ==> p.launched && p.settled
      ensures ok ==> forall g :: g in groups ==> !g.owed && g.stops == g.conts
      ensures ok ==> os.children == {} && reapedOrphans == old(reapedOrphans) && !cancelled && helperDepth == 0
      ensures old(Smooth(f)) && os.faults == old(os.faults) ==> ok
    {
      hide Valid, Settles, Ends, Resumes, Sends, Kin, Smooth, Clear, AllEnd;
      ok := EndAll(f);
      var finished := Finish(f);
      ok := ok && finished;
    }

    /** Nothing is left to do that could fail. */
    ghost predicate Clear(f: Closing)
      reads this, groups, processes, os
    {
      && Drainable() && !cancelled && !f.signal && !f.policyFails && !f.restoreFails && os.Forest() == {}
      && forall g :: g in groups ==> !f.shutFails(g)
    }

    lemma SmoothAllEnd(f: Closing)
      requires Smooth(f)
      ensures AllEnd(f)
    {
      hide StartedHere, Resumes;
    }

    /** If nothing fails, ending the direct children leaves nobody. */
    twostate lemma SmoothEnds(f: Closing)
      requires old(Smooth(f)) && Valid() && Kin() && unchanged(this`processes, os`below) && os.children <= old(os.children)
      requires unchanged(this`groups, this`cancelled, this`helperDepth) && Open() && sealed
      requires forall p :: p in processes ==>
        unchanged(p`launched, p`pid) && (p.launched && Ends(true, old(p.settled), f.end(p)) ==> p.settled)
      ensures Clear(f)
    {
      hide Kin, Valid, Ends;
      assert forall pid :: pid in old(os.children) ==> StartedHere(pid);
      NoneLeft(old(os.children));
    }

    /** What comes after the direct children: the drain, the descriptors and the policy. */
    method Finish(f: Closing) returns (ok: bool)
      requires Valid() && Kin() && os.InOrder() && Open() && sealed
      modifies this`active, this`closed, this`cancelled, this`reapedOrphans, groups`closed, groups`closes
      modifies os`calls, os`children, os`below, os`held, os`log, os`faults, os`gone, os`waves
      ensures Valid() && Kin() && os.InOrder() && os.held == old(os.held)
      ensures closed && !active
      ensures forall g :: g in groups && g.fd ==> g.closed
      ensures ok ==> forall p :: p in processes ==> p.settled
      ensures ok ==> os.children == {} && reapedOrphans == old(reapedOrphans) && !cancelled && helperDepth == 0
      ensures old(Clear(f)) && os.faults == old(os.faults) ==> ok
    {
      hide Valid, Kin;
      var swept := SweepUp(f);
      var restored := Restore(f);
      ok := swept && restored;
    }

    /** Restores the signal and subreaper policy as far as possible; the scope ends in any case. */
    method Restore(f: Closing) returns (ok: bool)
      requires Valid()
      modifies this`active, this`closed, this`cancelled
      ensures Valid() && closed && !active && cancelled == (old(cancelled) || f.signal) && (ok <==> !f.restoreFails && !cancelled)
    {
      var calm := CheckCancelled(f.signal);
      active, closed := false, true;
      ok := !f.restoreFails && calm;
    }

    /** The second half: inherited children are drained and descriptors closed. */
    method SweepUp(f: Closing) returns (ok: bool)
      requires Valid() && Kin() && os.InOrder() && Open() && sealed
      modifies this`reapedOrphans, groups`closed, groups`closes
      modifies os`calls, os`children, os`below, os`held, os`log, os`faults, os`gone, os`waves
      ensures Valid() && Kin() && os.InOrder() && os.held == old(os.held)
      ensures forall g :: g in groups && g.fd ==> g.closed
      ensures ok ==> helperDepth == 0 && forall p :: p in processes ==> p.settled
      ensures ok ==> os.children == {} && reapedOrphans == old(reapedOrphans)
      ensures (Drainable() && !f.policyFails && old(os.Forest()) == {} && os.faults == old(os.faults)
               && forall g :: g in groups ==> !f.shutFails(g)) ==> ok
    {
      hide GroupKept, Kin;
      var drained, blocked, cut := DrainOrphans(f.policyFails);
      var shut := CloseGroups(f.shutFails);
      ok := drained && shut;
    }

    /** The first half of closing: debts are paid and direct children ended. */
    method EndAll(f: Closing) returns (ok: bool)
      requires Valid() && Kin() && Open()
      modifies this`sealed
      modifies groups`owed, groups`conts, groups`resumes
      modifies processes`returncode, processes`settled, processes`attempts, os`children, os`gone
      ensures Valid() && Kin() && sealed && os.children <= old(os.children)
      ensures forall g :: g in groups ==> g.resumes == old(g.resumes) + 1
      ensures forall p :: p in processes ==>
                p.attempts == old(p.attempts) + 1 && (p.settled ==> p.launched) && (p.launched && Ends(true, old(p.settled), f.end(p)) ==> p.settled)
      ensures ok ==> forall g :: g in groups ==> !g.owed && g.stops == g.conts
      ensures ok <==> old(AllEnd(f))
      ensures old(Smooth(f)) ==> ok && Clear(f)
    {
      hide GroupKept, Kin, StartedHere, Smooth, Clear;
      if Smooth(f) { SmoothAllEnd(f); }
      var resumed := ResumeAll(None, f.resume);
      forall g | g in groups ensures g.Booked() {
        KeptIsBooked(this, processes, g);
      }
      sealed := true;
      var ended := TerminateAll(f.end);
      ok := resumed && ended;
      if old(Smooth(f)) {
        SmoothEnds(f);
      }
    }

    /** Some process below starts another one. */
    method Born() returns (pid: Pid)
      requires Valid() && Kin()
      modifies os`below, os`ever
      ensures Valid() && Kin() && Onward() && pid !in old(os.ever) && os.below == old(os.below) + {pid}
    {
      pid := os.Born();
      KinElsewhere();
    }

    /** Processes below lose their parents, or end and are reaped by these. */
    method Elsewhere(arrived: set<Pid>, ended: set<Pid>)
      requires Valid() && Kin()
      modifies os`children, os`below
      ensures Valid() && Kin() && Onward() && os.children == old(os.children) + (arrived * old(os.below))
    {
      os.Inherit(arrived);
      os.Vanish(ended);
      KinElsewhere();
    }

    method SealSpawns() returns (ok: bool)
      requires Valid()
      modifies this`sealed
      ensures Valid() && Onward() && (ok <==> Open()) && sealed == (old(sealed) || ok)
    {
      ok := Open();
      if ok {
        sealed := true;
      }
    }
  }

  /** What holds between any two operations of a scope. */
  ghost predicate Consistent(c: Custody)
    reads c, c.groups, c.processes, c.os
  {
    c.Valid() && c.Kin() && c.os.InOrder()
  }

  /** An operation with everything that may come of it, or something other processes do. */
  datatype Operation =
    | Enter(policyFails: bool, installFails: bool, signal: bool)
    | Borrow(pid: Pid, role: string, signal: bool, opens: bool, valid: bool)
    | Launch(role: string, launching: Launching)
    | Retain(process: nat, pid: Pid, retaining: Retaining)
    | Stop(group: nat, stopping: Stopping)
    | Resume(group: nat, resuming: Resuming)
    | ResumeOrExit(group: nat, resuming: Resuming, status: Option<int>)
    | Adopt(process: nat, group: nat, signal: bool, alive: bool, signalAfter: bool)
    | WaitChild(group: nat, signal: bool, same: bool, polls: seq<Poll>)
    | ResumeAll(order: Option<seq<Group>>, each: Group -> Resuming)
    | Wait(process: nat, status: Option<int>)
    | Look(process: nat, status: Option<int>)
    | Terminate(process: nat, ending: Ending)
    | Help(signal: bool)
    | Helped
    | Seal
    | Drain(policyFails: bool)
    | Close(closing: Closing)
    | Born
    | Move(arrived: set<Pid>, ended: set<Pid>)

  /** Carries out one operation; one on a group or process that does not exist does nothing. */
  method Perform(c: Custody, op: Operation)
    requires Consistent(c)
    modifies c, c.groups, c.processes, c.os
    ensures Consistent(c) && c.Onward() && c.NewGroups()
    ensures old(c.processes) <= c.processes
    ensures forall k :: |old(c.processes)| <= k < |c.processes| ==> fresh(c.processes[k])
  {
    hide Custody.Valid, Custody.Kin;
    var ok := false;
    if op.Borrow? {
      ok := c.Borrow(op.pid, op.role, op.signal, op.opens, op.valid);
    } else if op.Launch? {
      var p;
      ok, p := c.Launch(op.role, op.launching);
    } else if op.Retain? {
      if op.process < |c.processes| { ok := c.RetainObserverChild(c.processes[op.process], op.pid, op.retaining); }
    } else if op.Enter? || op.Adopt? || op.WaitChild? || op.Help? || op.Helped? || op.Seal? || op.Drain? || op.Close? {
      PerformOnScope(c, op);
    } else {
      PerformOnOne(c, op);
    }
  }

  /** The operations on the whole scope, and the handoff. */
  method PerformOnScope(c: Custody, op: Operation)
    requires Consistent(c)
    modifies c, c.groups, c.processes, c.os
    ensures Consistent(c) && c.Onward() && c.groups == old(c.groups) && c.processes == old(c.processes)
  {
    hide Custody.Valid, Custody.Kin;
    var ok := false;
    match op
    case Enter(a, b, d) => ok := c.Enter(a, b, d);
    case Adopt(j, i, a, b, d) =>
      if i < |c.groups| && j < |c.processes| { ok := c.AdoptObserverChild(c.processes[j], c.groups[i], a, b, d); }
    case WaitChild(i, a, b, polls) => if i < |c.groups| { ok := c.WaitObserverChild(c.groups[i], a, b, polls); }
    case Help(a) => ok := c.EnterHelper(a);
    case Helped => if c.helperDepth == 1 { c.LeaveHelper(); }
    case Seal => ok := c.SealSpawns();
    case Drain(a) =>
      var blocked, cut;
      ok, blocked, cut := c.DrainOrphans(a);
    case Close(f) => ok := c.Close(f);
    case _ =>
  }

  /** The operations on one group or process, and what other processes do. */
  method PerformOnOne(c: Custody, op: Operation)
    requires Consistent(c)
    modifies c, c.groups, c.processes, c.os
    ensures Consistent(c) && c.Onward() && c.groups == old(c.groups) && c.processes == old(c.processes)
  {
    hide GroupKept, Custody.Kin;
    var ok := false;
    match op
    case Stop(i, f) => if i < |c.groups| { ok := c.StopGroup(c.groups[i], f); }
    case Resume(i, f) => if i < |c.groups| { ok := c.ResumeGroup(c.groups[i], f); }
    case ResumeOrExit(i, f, status) =>
      if i < |c.groups| {
        KeptIsBooked(c, c.processes, c.groups[i]);
        ok := c.ResumeOrExitGroup(c.groups[i], f, status);
      }
    case ResumeAll(order, f) => ok := c.ResumeAll(order, f);
    case Wait(j, status) => if j < |c.processes| { ok := c.WaitProcess(c.processes[j], status); }
    case Look(j, status) => if j < |c.processes| { c.PollProcess(c.processes[j], status); }
    case Terminate(j, f) => if j < |c.processes| { ok := c.TerminateProcess(c.processes[j], f); }
    case Born => var pid := c.Born();
    case Move(arrived, ended) => c.Elsewhere(arrived, ended);
    case _ =>
  }

  /** A number a process was taken under twice, or a wait that does not agree with the kernel, cannot be. */
  ghost predicate WaitsAgree(c: Custody)
    reads c, c.groups, c.processes, c.os
  {
    && Once(c.os.gone)
    && (forall p :: p in c.processes && p.launched ==>
          && (p.returncode.Some? <==> p.pid in c.os.gone) && (p.returncode.None? <==> p.pid in c.os.children)
          && p.pid !in c.reapedOrphans && forall e :: e in c.os.log && e.Reap? ==> e.pid != p.pid)
    && (forall g :: g in c.groups && g.waitOwner == Reaped ==>
          g.pid in c.os.gone && forall e :: e in c.os.log && e.Reap? ==> e.pid != g.pid)
    && (forall g :: g in c.groups && g.origin == ObserverChild && g.waitOwner == Custodian ==>
          (c.Awaited(g) || c.Stale(g)) && !(c.Awaited(g) && c.Stale(g)))
  }

  lemma KinAgrees(c: Custody)
    requires Consistent(c)
    ensures WaitsAgree(c)
  {
    assert c.os.Tidy();
    forall p | p in c.processes && p.launched
      ensures (p.returncode.Some? <==> p.pid in c.os.gone) && (p.returncode.None? <==> p.pid in c.os.children)
      ensures p.pid !in c.reapedOrphans && forall e :: e in c.os.log && e.Reap? ==> e.pid != p.pid
    {
      assert c.ChildKept(p);
      c.os.InOnePlace(p.pid);
    }
    forall g | g in c.groups && g.origin == ObserverChild
      ensures g.waitOwner == Reaped ==> g.pid in c.os.gone && forall e :: e in c.os.log && e.Reap? ==> e.pid != g.pid
      ensures g.waitOwner == Custodian ==> (c.Awaited(g) || c.Stale(g)) && !(c.Awaited(g) && c.Stale(g))
    {
      assert c.HandoffKept(g);
      c.os.InOnePlace(g.pid);
    }
    forall g | g in c.groups ensures g.waitOwner == Reaped ==> g.origin == ObserverChild {
      KeptIsBooked(c, c.processes, g);
    }
  }

  /**
    Any run of a scope: any operations, in any number and order, with any failures.  Each group
    was sent one CONT for every STOP but perhaps the last, which it then owes; its descriptor
    was closed and its child reaped at most once; the drains killed and reaped in order; no
    process was reaped twice, in whatever way, and no drain reaped a direct process.
  */
  method AnyRun(children: set<Pid>, below: set<Pid>, fails: nat -> bool, steps: nat) returns (c: Custody)
    requires children !! below
    ensures Consistent(c)
    ensures forall g :: g in c.groups ==> g.conts <= g.stops <= g.conts + 1 && (g.owed <==> g.stops == g.conts + 1)
    ensures forall g :: g in c.groups ==> g.closes <= 1 && g.handoffs <= 1
    ensures WavesInOrder(c.os.log) && WaitsAgree(c)
  {
    var os := new Kernel(children, below, fails);
    c := new Custody(os);
    var left := steps;
    while left > 0
      invariant Consistent(c) && c.os == os && fresh(c) && fresh(os)
      invariant forall k :: 0 <= k < |c.groups| ==> fresh(c.groups[k])
      invariant forall k :: 0 <= k < |c.processes| ==> fresh(c.processes[k])
    {
      hide Custody.Kin;
      left := left - 1;
      var op: Operation := *;
      Perform(c, op);
    }
    KinAgrees(c);
    forall g | g in c.groups ensures g.Booked() {
      KeptIsBooked(c, c.processes, g);
    }
  }

  /**
    A drain may take what was adopted: an observer hands back its child, the child is adopted
    but not waited for, and the drain reaps it.  Its group is left saying that the coordinator
    is to wait for it.
  */
  method HandoffDrained() returns (c: Custody, g: Group)
    ensures Consistent(c) && g in c.groups && c.Stale(g)
  {
    hide Custody.Valid, Custody.Kin, Custody.Retained, Kernel.Faultless, Kernel.Tidy;
    var observer, child;
    c, observer, child := Watching();
    g := HandBack(c, observer, child);
    var ok := c.SealSpawns();
    var blocked, cut;
    ok, blocked, cut := c.DrainOrphans(false);
  }

  /** A scope with one observer, which has one child. */
  method Watching() returns (c: Custody, observer: OwnedProcess, child: Pid)
    ensures Consistent(c) && fresh(c) && fresh(c.os) && c.os.Faultless() && c.Open() && !c.sealed && !c.cancelled && c.helperDepth == 0
    ensures c.processes == [observer] && fresh(observer) && c.LiveObserver(observer) && observer.returncode == None
    ensures child in c.os.below && !c.Retained(child) && forall k :: 0 <= k < |c.groups| ==> fresh(c.groups[k])
  {
    hide Custody.Valid, Custody.Kin, Kernel.Tidy, Kernel.InOrder;
    var os := new Kernel({}, {}, n => false);
    c := new Custody(os);
    var ok := c.Enter(false, false, false);
    ok, observer := c.Launch("observer", Launching(false, false, true, true, false));
    child := c.Born();
  }

  /** The observer ends successfully, and its child is adopted. */
  method HandBack(c: Custody, observer: OwnedProcess, child: Pid) returns (g: Group)
    requires Consistent(c) && c.Open() && !c.sealed && !c.cancelled && c.helperDepth == 0
    requires c.processes == [observer] && c.LiveObserver(observer) && observer.returncode == None
    requires child in c.os.below && !c.Retained(child)
    modifies c`groups, c`cancelled, observer`returncode, observer`settled, c.os`children, c.os`gone, c.os`below
    ensures Consistent(c) && g in c.groups && c.Awaited(g) && observer.settled && !c.cancelled
    ensures forall k :: 0 <= k < |c.groups| ==> c.groups[k] in old(c.groups) || fresh(c.groups[k])
  {
    hide Custody.Valid, Custody.Kin, Custody.Retained;
    var ok := c.RetainObserverChild(observer, child, Retaining(false, true, true, true, true, false));
    g := c.groups[|c.groups| - 1];
    ok := c.WaitProcess(observer, Some(0));
    c.Elsewhere({child}, {});
    ok := c.AdoptObserverChild(observer, g, false, true, false);
  }

  /** The groups of one kind, in order. */
  function Pick(groups: seq<Group>, observers: bool): seq<Group> {
    if groups == [] then []
    else
      var rest := Pick(groups[..|groups| - 1], observers);
      var g := groups[|groups| - 1];
      if (g.role == "observer") == observers then rest + [g] else rest
  }

  /** Observers first, otherwise in order: every group once. */
  function ObserversFirst(groups: seq<Group>): seq<Group> {
    Pick(groups, true) + Pick(groups, false)
  }

  lemma {:induction false} PickSome(groups: seq<Group>, observers: bool)
    requires Apart(groups)
    ensures var some := Pick(groups, observers);
            && Apart(some)
            && (forall i :: 0 <= i < |some| ==> some[i] in groups && (some[i].role == "observer") == observers)
            && (forall g :: g in groups && (g.role == "observer") == observers ==> g in some)
  {
    if groups != [] {
      var rest, g := groups[..|groups| - 1], groups[|groups| - 1];
      assert groups == rest + [g];
      PickSome(rest, observers);
    }
  }

  lemma ObserversFirstAll(groups: seq<Group>)
    requires Apart(groups)
    ensures EachOnce(ObserversFirst(groups), groups)
  {
    PickSome(groups, true);
    PickSome(groups, false);
    var a, b := Pick(groups, true), Pick(groups, false);
    assert forall i :: 0 <= i < |a + b| ==> (a + b)[i] == if i < |a| then a[i] else b[i - |a|];
    hide Pick;
    forall g | g in ObserversFirst(groups) ensures g in groups {
      var i :| 0 <= i < |a + b| && (a + b)[i] == g;
    }
  }

  /** A list that names every group once. */
  predicate EachOnce(order: seq<Group>, groups: seq<Group>) {
    Apart(order) && (forall g | g in order :: g in groups) && (forall g | g in groups :: g in order)
  }

  /** A group's books, and whose child it is. */
  ghost predicate GroupKept(scope: Custody, processes: seq<OwnedProcess>, g: Group)
    reads g, processes
  {
    && g.scope == scope && g.Booked()
    && (g.process != null ==> g.process in processes)
    && (g.observerParent != null ==> g.observerParent in processes)
    && (g.origin == ObserverChild && g.waitOwner != Observer ==>
          g.observerParent in processes && Succeeded(g.observerParent))
  }

  lemma KeptIsBooked(scope: Custody, processes: seq<OwnedProcess>, g: Group)
    requires GroupKept(scope, processes, g)
    ensures g.Booked() && g.scope == scope && (g.process != null ==> g.process in processes)
  {}

  ghost predicate Succeeded(p: OwnedProcess)
    reads p
  {
    p.settled && p.returncode == Some(0)
  }

  predicate Apart<T(==)>(s: seq<T>) {
    forall i, j :: 0 <= i < j < |s| ==> s[i] != s[j]
  }
}
