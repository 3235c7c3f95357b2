/**
  The STOP_GATE admission protocol: the lowering pinned by
  scripts/check-discovery-flow-object.py (147-197), the release and the stop
  request it works with (crates/ebpf/native/stop_gate.h, src/attach/stop_gate.rs),
  and the reading of the word 1<<63 as quiescence
  (scripts/capture-stopped-canary.py, 556-575).

  Any number of participants run hook invocations one after another; every
  atomic instruction and every branch is a step of its own, and a branch decides
  on the register filled by an earlier read.
 */
module StopGate {

  const STOP: nat := 0x8000_0000_0000_0000
  const WORDS: nat := 0x1_0000_0000_0000_0000

  /** The 64-bit word seen as a signed number. */
  function Signed(word: nat): int {
    if word < STOP then word else word - WORDS
  }

  function Add(word: nat, delta: int): nat
    requires word < WORDS && -1 <= delta <= 1
  {
    var sum := word + delta;
    if sum < 0 then sum + WORDS else if sum >= WORDS then sum - WORDS else sum
  }

  /** Where a participant is, with the value its register r0 holds. */
  datatype Local =
    | Idle
    | Looked(r0: nat)
    | ToCount
    | Counted
    | LookedAgain(r0: nat)
    | ToUndo
    | Inside
  {
    /** Between its `+1` and the matching `-1`. */
    predicate InFlight() {
      Counted? || LookedAgain? || ToUndo? || Inside?
    }
    /** Admitted, or bound to be by the value already read. */
    predicate Admitted() {
      Inside? || (LookedAgain? && Signed(r0) > -1)
    }
  }

  datatype Gate = Gate(word: nat, stopped: bool, locals: seq<Local>)

  ghost predicate Init(g: Gate) {
    g.word == 0 && !g.stopped && forall i :: 0 <= i < |g.locals| ==> g.locals[i] == Idle
  }

  /** What one participant does next, and what it does to the word. */
  function Act(word: nat, l: Local): (nat, Local)
    requires word < WORDS
  {
    match l
    case Idle => (word, Looked(word))
    case Looked(r0) => (word, if 0 > Signed(r0) then Idle else ToCount)
    case ToCount => (Add(word, 1), Counted)
    case Counted => (word, LookedAgain(word))
    case LookedAgain(r0) => (word, if Signed(r0) > -1 then Inside else ToUndo)
    case ToUndo => (Add(word, -1), Idle)
    case Inside => (Add(word, -1), Idle)
  }

  ghost predicate ActStep(g: Gate, h: Gate, i: nat) {
    && i < |g.locals| && g.word < WORDS
    && var (word, l) := Act(g.word, g.locals[i]);
       h == Gate(word, g.stopped, g.locals[i := l])
  }

  /** The stop request sets bit 63 and keeps the count. */
  ghost predicate StopStep(g: Gate, h: Gate) {
    h == Gate(if g.word < STOP then g.word + STOP else g.word, true, g.locals)
  }

  ghost predicate Step(g: Gate, h: Gate) {
    StopStep(g, h) || exists i: nat :: ActStep(g, h, i)
  }

  ghost predicate IsRun(run: seq<Gate>) {
    && |run| > 0 && Init(run[0])
    && forall i :: 0 <= i < |run| - 1 ==> Step(run[i], run[i + 1])
  }

  // ----- the count -----

  function Flights(locals: seq<Local>): nat {
    if locals == [] then 0
    else Flights(locals[..|locals| - 1]) + if locals[|locals| - 1].InFlight() then 1 else 0
  }

  lemma {:induction false} FlightsBounded(locals: seq<Local>)
    ensures Flights(locals) <= |locals|
    ensures Flights(locals) == 0 <==> forall i :: 0 <= i < |locals| ==> !locals[i].InFlight()
  {
    if locals != [] {
      var front := locals[..|locals| - 1];
      FlightsBounded(front);
      assert forall i :: 0 <= i < |front| ==> front[i] == locals[i];
    }
  }

  lemma {:induction false} FlightsUpdate(locals: seq<Local>, i: nat, l: Local)
    requires i < |locals|
    ensures Flights(locals[i := l])
         == Flights(locals) + (if l.InFlight() then 1 else 0) - (if locals[i].InFlight() then 1 else 0)
  {
    var last := |locals| - 1;
    var updated := locals[i := l];
    if i < last {
      assert updated[..last] == locals[..last][i := l];
      FlightsUpdate(locals[..last], i, l);
    } else {
      assert updated[..last] == locals[..last];
    }
  }

  /** The gate word is the stop bit plus the number of invocations in flight. */
  ghost predicate Inv(g: Gate) {
    g.word == (if g.stopped then STOP else 0) + Flights(g.locals)
  }

  lemma InvStep(g: Gate, h: Gate)
    requires |g.locals| < STOP && Inv(g) && Step(g, h)
    ensures Inv(h) && |h.locals| == |g.locals| && (g.stopped ==> h.stopped)
  {
    FlightsBounded(g.locals);
    if !StopStep(g, h) {
      var i: nat :| ActStep(g, h, i);
      FlightsUpdate(g.locals, i, h.locals[i]);
      FlightsBounded(h.locals);
    }
  }

  /** In every run of fewer than 2^63 participants the word counts exactly. */
  lemma {:induction false} WordCounts(run: seq<Gate>, k: nat)
    requires IsRun(run) && k < |run| && |run[0].locals| < STOP
    ensures Inv(run[k]) && |run[k].locals| == |run[0].locals|
  {
    if k == 0 {
      FlightsBounded(run[0].locals);
    } else {
      WordCounts(run, k - 1);
      assert Step(run[k - 1], run[k]);
      InvStep(run[k - 1], run[k]);
    }
  }

  /** The test of the capture tool reads true exactly when the gate is stopped and empty. */
  lemma QuiescentExactly(g: Gate)
    requires |g.locals| < STOP && Inv(g)
    ensures g.word == STOP <==> g.stopped && forall i :: 0 <= i < |g.locals| ==> !g.locals[i].InFlight()
  {
    FlightsBounded(g.locals);
  }

  // ----- nothing is admitted once quiescent -----

  ghost predicate Closed(g: Gate) {
    g.stopped && forall i :: 0 <= i < |g.locals| ==> !g.locals[i].Admitted()
  }

  lemma ClosedStep(g: Gate, h: Gate)
    requires |g.locals| < STOP && Inv(g) && Closed(g) && Step(g, h)
    ensures Closed(h)
  {
    FlightsBounded(g.locals);
    if !StopStep(g, h) {
      var i: nat :| ActStep(g, h, i);
      assert g.word >= STOP;
      assert !g.locals[i].Admitted() && !h.locals[i].Admitted();
      forall j | 0 <= j < |h.locals| ensures !h.locals[j].Admitted() {
        if j != i { assert h.locals[j] == g.locals[j]; }
      }
    }
  }

  lemma {:induction false} StaysClosed(run: seq<Gate>, k: nat, m: nat)
    requires IsRun(run) && k <= m < |run| && |run[0].locals| < STOP
    requires Closed(run[k])
    ensures Closed(run[m])
  {
    if k < m {
      StaysClosed(run, k, m - 1);
      WordCounts(run, m - 1);
      assert Step(run[m - 1], run[m]);
      ClosedStep(run[m - 1], run[m]);
    }
  }

  ghost predicate NobodyInside(g: Gate) {
    forall i :: 0 <= i < |g.locals| ==> !g.locals[i].Inside?
  }

  /** Reading 1<<63 is a proof of quiescence for the rest of the run. */
  ghost predicate QuiescenceSound(run: seq<Gate>) {
    forall k, m :: 0 <= k <= m < |run| && run[k].word == STOP ==> NobodyInside(run[m])
  }

  lemma QuiescenceIsFinal(run: seq<Gate>)
    requires IsRun(run) && |run[0].locals| < STOP
    ensures QuiescenceSound(run)
  {
    forall k, m | 0 <= k <= m < |run| && run[k].word == STOP
      ensures NobodyInside(run[m])
    {
      WordCounts(run, k);
      QuiescentExactly(run[k]);
      assert Closed(run[k]);
      StaysClosed(run, k, m);
      assert forall i :: 0 <= i < |run[m].locals| ==> !run[m].locals[i].Admitted();
    }
  }

  // ----- the bound is exact -----

  /** The first `k` of `n` participants are inside, the others idle. */
  function Entered(n: nat, k: nat): Gate
    requires k <= n
  {
    Gate(k, false, seq(n, i => if i < k then Inside else Idle))
  }

  /** The participant numbered `i` takes a step. */
  lemma Then(run: seq<Gate>, i: nat, h: Gate) returns (longer: seq<Gate>)
    requires IsRun(run) && ActStep(run[|run| - 1], h, i)
    ensures IsRun(longer) && longer[|longer| - 1] == h && longer[0] == run[0]
  {
    assert Step(run[|run| - 1], h);
    hide Step, ActStep;
    longer := run + [h];
    forall j | 0 <= j < |longer| - 1 ensures Step(longer[j], longer[j + 1]) {
      if j < |run| - 1 { assert longer[j] == run[j] && longer[j + 1] == run[j + 1]; }
    }
  }

  /** The next participant takes its steps up to its own `+1`. */
  lemma EnterUpToCount(run: seq<Gate>, n: nat, k: nat) returns (longer: seq<Gate>)
    requires k < n && k < STOP
    requires IsRun(run) && run[|run| - 1] == Entered(n, k)
    ensures IsRun(longer) && longer[0] == run[0]
    ensures longer[|longer| - 1] == Gate(k + 1, false, Entered(n, k).locals[k := Counted])
  {
    var was := Entered(n, k).locals;
    hide IsRun;
    longer := Then(run, k, Gate(k, false, was[k := Looked(k)]));
    assert was[k := Looked(k)][k := ToCount] == was[k := ToCount];
    longer := Then(longer, k, Gate(k, false, was[k := ToCount]));
    assert was[k := ToCount][k := Counted] == was[k := Counted];
    longer := Then(longer, k, Gate(k + 1, false, was[k := Counted]));
  }

  lemma {:induction false} EnterMany(n: nat, k: nat) returns (run: seq<Gate>)
    requires k <= n && k < STOP
    ensures IsRun(run) && run[|run| - 1] == Entered(n, k) && run[0] == Entered(n, 0)
  {
    if k == 0 {
      run := [Entered(n, 0)];
    } else {
      hide IsRun;
      run := EnterMany(n, k - 1);
      run := EnterUpToCount(run, n, k - 1);
      var was := Entered(n, k - 1).locals;
      assert was[k - 1 := Counted][k - 1 := LookedAgain(k)] == was[k - 1 := LookedAgain(k)];
      run := Then(run, k - 1, Gate(k, false, was[k - 1 := LookedAgain(k)]));
      assert was[k - 1 := LookedAgain(k)][k - 1 := Inside] == Entered(n, k).locals;
      run := Then(run, k - 1, Entered(n, k));
    }
  }

  /** With 2^63 participants the count reaches the stop bit and the test reads true by mistake. */
  lemma OverflowLooksQuiescent(n: nat) returns (run: seq<Gate>)
    requires n >= STOP
    ensures IsRun(run) && |run[0].locals| == n && !QuiescenceSound(run)
  {
    run := EnterMany(n, STOP - 1);
    run := EnterUpToCount(run, n, STOP - 1);
    var last := |run| - 1;
    assert run[last].word == STOP && run[last].locals[0] == Inside;
    assert !NobodyInside(run[last]);
  }

  /** The inference from the word to quiescence is right exactly below 2^63 participants. */
  lemma QuiescenceSoundIff(n: nat)
    ensures (forall run: seq<Gate> :: IsRun(run) && |run[0].locals| == n ==> QuiescenceSound(run)) <==> n < STOP
  {
    if n < STOP {
      forall run: seq<Gate> | IsRun(run) && |run[0].locals| == n ensures QuiescenceSound(run) {
        QuiescenceIsFinal(run);
      }
    } else {
      var run := OverflowLooksQuiescent(n);
    }
  }
}
