/**
  The flags provenance check of the interface classifier
  (scripts/check-discovery-flow-object.py, 401-436): a work list over sets of
  possible r6 values, refined on the taken edge of the class clamp, which must
  prove r6 in {0, 1, 2} at the payload builder.
 */
module FlagsProvenance {
  import opened Disasm

  /** What is known of r6: anything, or one of finitely many words. */
  datatype Flags = Any | OneOf(values: set<bv64>)

  predicate Within(a: Flags, b: Flags) {
    b.Any? || (a.OneOf? && a.values <= b.values)
  }

  function Join(a: Flags, b: Flags): Flags {
    if a.OneOf? && b.OneOf? then OneOf(a.values + b.values) else Any
  }

  ghost predicate Holds(f: Flags, v: bv64) {
    f.Any? || v in f.values
  }

  predicate WritesR6(i: Insn) {
    (i.Bitwise? || i.Load? || i.Add? || i.Arith? || i.OtherWrite?) && i.dst == 6
  }

  function After(i: Insn, f: Flags): Flags {
    if i.Bitwise? && i.dst == 6 && i.op == Mov && i.operand.Imm? then OneOf({Narrowed(i.narrow, i.operand.value)})
    else if WritesR6(i) then Any
    else f
  }

  /** The recipe `r1 = 2; r4 = spill; if r1 > r6 goto class; r6 = 2; class: r1 = 0`. */
  predicate IsClamp(code: Code, clamp: int) {
    && 0 <= clamp && clamp + 4 < |code|
    && code[clamp] == Bitwise(false, Mov, 1, Imm(2))
    && code[clamp + 1] == Load(4, 8, 10, -0x60)
    && code[clamp + 2] == Branch(Above(1, Reg(6)), clamp + 4)
    && code[clamp + 3] == Bitwise(false, Mov, 6, Imm(2))
    && code[clamp + 4] == Bitwise(false, Mov, 1, Imm(0))
  }

  /** The value carried along one edge; the clamp's taken edge keeps 0 and 1 only. */
  function Carried(code: Code, clamp: int, pc: int, next: int, f: Flags): Flags
    requires 0 <= pc < |code|
  {
    var out := After(code[pc], f);
    if pc == clamp + 2 && Taken(code, pc, next) then
      if out.Any? then OneOf({0, 1}) else OneOf(out.values * {0, 1})
    else out
  }

  type Facts = map<int, Flags>

  ghost predicate InCode(code: Code, inc: Facts) {
    forall pc :: pc in inc ==> 0 <= pc < |code|
  }

  /** One edge is accounted for by the facts at its end. */
  ghost predicate Covers(code: Code, clamp: int, inc: Facts, pc: int, next: int)
    requires 0 <= pc < |code| && pc in inc
  {
    next in inc && Within(Carried(code, clamp, pc, next, inc[pc]), inc[next])
  }

  ghost predicate Settled(code: Code, clamp: int, builder: int, inc: Facts, pc: int)
    requires 0 <= pc < |code| && pc in inc
  {
    pc != builder ==> forall next :: next in Next(code, pc) ==> Covers(code, clamp, inc, pc, next)
  }

  ghost predicate Fixpoint(code: Code, clamp: int, builder: int, inc: Facts) {
    && InCode(code, inc) && 0 in inc && inc[0].Any?
    && forall pc :: pc in inc ==> Settled(code, clamp, builder, inc, pc)
  }

  predicate Proves(builder: int, inc: Facts) {
    builder in inc && inc[builder].OneOf? && inc[builder].values <= {0, 1, 2}
  }

  /** The sole way into the second and third instruction of the clamp is the one before. */
  predicate EnteredFromTop(code: Code, live: set<int>, clamp: int) {
    && Entries(code, live, clamp + 1) == {clamp}
    && Entries(code, live, clamp + 2) == {clamp + 1}
  }

  // ----- soundness -----

  lemma Monotone(code: Code, clamp: int, pc: int, next: int, a: Flags, b: Flags)
    requires 0 <= pc < |code| && Within(a, b)
    ensures Within(Carried(code, clamp, pc, next, a), Carried(code, clamp, pc, next, b))
  {}

  /** Whoever is at the comparison has just loaded 2 into r1. */
  lemma ClampHasTwo(code: Code, env: Env, live: set<int>, clamp: int, run: seq<Machine>, k: nat)
    requires IsClamp(code, clamp) && EnteredFromTop(code, live, clamp)
    requires IsLive(code, live)
    requires Execution(code, env, run) && k < |run| && run[k].at == clamp + 2
    ensures |run[k].regs| == 11 && run[k].regs[1] == 2
  {
    CameFrom(code, env, live, run, k, clamp + 1);
    CameFrom(code, env, live, run, k - 1, clamp);
    assert Effect(code, env, run[k - 2], run[k - 1]) && Effect(code, env, run[k - 1], run[k]);
  }

  lemma StepAfter(code: Code, env: Env, m: Machine, n: Machine, f: Flags)
    requires Step(code, env, m, n) && Holds(f, m.regs[6])
    ensures Holds(After(code[m.at], f), n.regs[6])
  {
    assert Effect(code, env, m, n);
  }

  /** The taken edge of the clamp is taken below 2 only. */
  lemma ClampTaken(code: Code, env: Env, clamp: int, m: Machine, n: Machine)
    requires IsClamp(code, clamp) && Step(code, env, m, n)
    requires m.at == clamp + 2 && m.regs[1] == 2 && n.at == clamp + 4
    ensures n.regs[6] == 0 || n.regs[6] == 1
  {
    assert Decides(code[m.at].cond, m.regs, true);
    assert m.regs[1] > m.regs[6] && n.regs[6] == m.regs[6];
  }

  lemma StepCarries(code: Code, env: Env, clamp: int, m: Machine, n: Machine, f: Flags)
    requires IsClamp(code, clamp) && Step(code, env, m, n) && Holds(f, m.regs[6])
    requires m.at == clamp + 2 ==> m.regs[1] == 2
    ensures Holds(Carried(code, clamp, m.at, n.at, f), n.regs[6])
  {
    hide Effect;
    StepAfter(code, env, m, n, f);
    if m.at == clamp + 2 && Taken(code, m.at, n.at) { ClampTaken(code, env, clamp, m, n); }
  }

  lemma {:induction false} FactsHold(code: Code, env: Env, live: set<int>, clamp: int, builder: int, inc: Facts, run: seq<Machine>, k: nat)
    requires IsClamp(code, clamp) && EnteredFromTop(code, live, clamp)
    requires IsLive(code, live)
    requires Fixpoint(code, clamp, builder, inc)
    requires Execution(code, env, run) && k < |run|
    requires forall j :: 0 <= j < k ==> run[j].at != builder
    ensures |run[k].regs| == 11 && run[k].at in inc && Holds(inc[run[k].at], run[k].regs[6])
  {
    hide Effect, IsClamp, EnteredFromTop, Carried, Next;
    if k > 0 {
      var m, n := run[k - 1], run[k];
      FactsHold(code, env, live, clamp, builder, inc, run, k - 1);
      assert Step(code, env, m, n);
      assert Settled(code, clamp, builder, inc, m.at);
      if m.at == clamp + 2 { ClampHasTwo(code, env, live, clamp, run, k - 1); }
      StepCarries(code, env, clamp, m, n, inc[m.at]);
      assert Covers(code, clamp, inc, m.at, n.at);
    }
  }

  /** Every execution first arrives at the builder with a full flags class in r6. */
  ghost predicate BuilderSafe(code: Code, builder: int) {
    forall env, run: seq<Machine> ::
      && Execution(code, env, run) && run[|run| - 1].at == builder
      && (forall j :: 0 <= j < |run| - 1 ==> run[j].at != builder)
      ==> |run[|run| - 1].regs| == 11 && run[|run| - 1].regs[6] in {0, 1, 2}
  }

  lemma FixpointIsSound(code: Code, live: set<int>, clamp: int, builder: int, inc: Facts)
    requires IsClamp(code, clamp) && EnteredFromTop(code, live, clamp)
    requires IsLive(code, live)
    requires Fixpoint(code, clamp, builder, inc) && Proves(builder, inc)
    ensures BuilderSafe(code, builder)
  {
    forall env, run: seq<Machine> |
      && Execution(code, env, run) && run[|run| - 1].at == builder
      && (forall j :: 0 <= j < |run| - 1 ==> run[j].at != builder)
      ensures |run[|run| - 1].regs| == 11 && run[|run| - 1].regs[6] in {0, 1, 2}
    {
      FactsHold(code, env, live, clamp, builder, inc, run, |run| - 1);
    }
  }

  // ----- the work list -----

  /** No other solution knows more: every fixpoint lies above these facts. */
  ghost predicate LiesBelow(inc: Facts, other: Facts) {
    forall pc :: pc in inc ==> pc in other && Within(inc[pc], other[pc])
  }

  ghost predicate Least(code: Code, clamp: int, builder: int, inc: Facts) {
    forall other: Facts :: Fixpoint(code, clamp, builder, other) ==> LiesBelow(inc, other)
  }

  function Merge(inc: Facts, next: int, edge: Flags): Facts {
    inc[next := if next in inc then Join(inc[next], edge) else edge]
  }

  lemma MergeIsLeast(code: Code, clamp: int, builder: int, inc: Facts, pc: int, next: int, f: Flags)
    requires Least(code, clamp, builder, inc) && 0 <= pc < |code| && pc in inc && pc != builder
    requires next in Next(code, pc) && Within(f, inc[pc])
    ensures Least(code, clamp, builder, Merge(inc, next, Carried(code, clamp, pc, next, f)))
  {
    hide Next, Carried;
    forall other: Facts | Fixpoint(code, clamp, builder, other)
      ensures LiesBelow(Merge(inc, next, Carried(code, clamp, pc, next, f)), other)
    {
      assert LiesBelow(inc, other) && Settled(code, clamp, builder, other, pc);
      assert Covers(code, clamp, other, pc, next);
      Monotone(code, clamp, pc, next, f, other[pc]);
    }
  }

  /** The words r6 can be known to hold. */
  ghost function Words(code: Code): set<bv64> {
    (set i | 0 <= i < |code| && code[i].Bitwise? && code[i].operand.Imm? ::
       Narrowed(code[i].narrow, code[i].operand.value)) + {0, 1}
  }

  ghost predicate Bounded(code: Code, inc: Facts) {
    forall pc :: pc in inc ==> inc[pc].Any? || inc[pc].values <= Words(code)
  }

  lemma CarriedIsBounded(code: Code, clamp: int, pc: int, next: int, f: Flags)
    requires 0 <= pc < |code| && (f.Any? || f.values <= Words(code))
    ensures var c := Carried(code, clamp, pc, next, f); c.Any? || c.values <= Words(code)
  {}

  /** What may still change: a position unseen, a set not yet everything, a word not yet in it. */
  datatype Mark = Absent(pc: int) | NotAny(pc: int) | Lacks(pc: int, word: bv64)

  ghost predicate Pending(inc: Facts, m: Mark) {
    || m.pc !in inc
    || (m.NotAny? && inc[m.pc].OneOf?)
    || (m.Lacks? && inc[m.pc].OneOf? && m.word !in inc[m.pc].values)
  }

  ghost function Marks(code: Code): set<Mark> {
    (set pc | pc in Below(|code|) :: Absent(pc))
    + (set pc | pc in Below(|code|) :: NotAny(pc))
    + (set pc, word | pc in Below(|code|) && word in Words(code) :: Lacks(pc, word))
  }

  ghost function Slack(code: Code, inc: Facts): set<Mark> {
    set m | m in Marks(code) && Pending(inc, m)
  }

  /** A merge that changes anything uses up slack. */
  lemma MergeUsesSlack(code: Code, inc: Facts, next: int, edge: Flags)
    requires InCode(code, inc) && Bounded(code, inc) && 0 <= next < |code|
    requires edge.Any? || edge.values <= Words(code)
    ensures Merge(inc, next, edge) != inc ==> Slack(code, Merge(inc, next, edge)) < Slack(code, inc)
    ensures Bounded(code, Merge(inc, next, edge))
  {
    var after := Merge(inc, next, edge);
    if after != inc {
      var used: Mark;
      if next !in inc {
        used := Absent(next);
      } else if after[next].Any? {
        used := NotAny(next);
      } else {
        assert after[next].values != inc[next].values;
        var word :| word in after[next].values && word !in inc[next].values;
        used := Lacks(next, word);
      }
      assert used in Slack(code, inc) && used !in Slack(code, after);
      forall m | m in Slack(code, after) ensures m in Slack(code, inc) {
        assert Pending(after, m);
      }
    }
  }

  ghost predicate AllSettled(code: Code, clamp: int, builder: int, inc: Facts, open: set<int>) {
    InCode(code, inc) && forall pc :: pc in inc && pc !in open ==> Settled(code, clamp, builder, inc, pc)
  }

  /** Raising the facts at `next` leaves every other position's edges covered. */
  lemma MergeKeepsSettled(code: Code, clamp: int, builder: int, inc: Facts, open: set<int>, next: int, edge: Flags)
    requires AllSettled(code, clamp, builder, inc, open) && 0 <= next < |code|
    ensures var after := Merge(inc, next, edge);
            AllSettled(code, clamp, builder, after, if after == inc then open else open + {next})
  {
    hide Next, Carried;
    var after := Merge(inc, next, edge);
    if after != inc {
      forall pc | pc in after && pc !in open + {next} ensures Settled(code, clamp, builder, after, pc) {
        assert Settled(code, clamp, builder, inc, pc) && after[pc] == inc[pc];
        if pc != builder {
          forall q | q in Next(code, pc) ensures Covers(code, clamp, after, pc, q) {
            assert Covers(code, clamp, inc, pc, q);
          }
        }
      }
    }
  }

  ghost function Elements(s: seq<int>): set<int> {
    set x | x in s
  }

  ghost predicate Kept(code: Code, clamp: int, builder: int, inc: Facts, pending: seq<int>, open: set<int>) {
    && AllSettled(code, clamp, builder, inc, open) && Least(code, clamp, builder, inc) && Bounded(code, inc)
    && 0 in inc && inc[0].Any?
    && forall p :: p in pending ==> p in inc
  }

  /** One merge of the work list: everything kept, and progress if anything changed. */
  lemma MergeKeeps(code: Code, clamp: int, builder: int, inc: Facts, pending: seq<int>, pc: int, next: int, f: Flags)
    requires Resolved(code) && Kept(code, clamp, builder, inc, pending, Elements(pending) + {pc})
    requires pc in inc && pc != builder && next in Next(code, pc) && Within(f, inc[pc])
    requires f.Any? || f.values <= Words(code)
    ensures var after := Merge(inc, next, Carried(code, clamp, pc, next, f));
            var queue := if after == inc then pending else pending + [next];
            && Kept(code, clamp, builder, after, queue, Elements(queue) + {pc})
            && (after != inc ==> Slack(code, after) < Slack(code, inc))
            && next in after && Within(Carried(code, clamp, pc, next, f), after[next])
            && Within(f, after[pc])
  {
    assert 0 <= next < |code|;
    var edge := Carried(code, clamp, pc, next, f);
    var after := Merge(inc, next, edge);
    MergeIsLeast(code, clamp, builder, inc, pc, next, f);
    CarriedIsBounded(code, clamp, pc, next, f);
    MergeUsesSlack(code, inc, next, edge);
    MergeKeepsSettled(code, clamp, builder, inc, Elements(pending) + {pc}, next, edge);
    hide Next, Carried, AllSettled, Least, Bounded, Slack;
    if after != inc {
      assert Elements(pending + [next]) + {pc} == Elements(pending) + {pc} + {next};
    }
  }

  /** Sends the facts at `pc` along its edges. */
  method Spread(code: Code, clamp: int, builder: int, inc0: Facts, rest: seq<int>, pc: int) returns (inc: Facts, pending: seq<int>)
    requires Resolved(code) && pc in inc0 && pc != builder
    requires Kept(code, clamp, builder, inc0, rest, Elements(rest) + {pc})
    ensures Kept(code, clamp, builder, inc, pending, Elements(pending))
    ensures Slack(code, inc) < Slack(code, inc0) || (inc == inc0 && pending == rest)
  {
    hide Next, Carried, Least, Bounded, Slack, Settled;
    inc, pending := inc0, rest;
    var value := inc0[pc];
    var next := Next(code, pc);
    assert value.Any? || value.values <= Words(code) by { BoundedAt(code, inc0, pc); }
    for j := 0 to |next|
      invariant pc in inc && Within(value, inc[pc])
      invariant Kept(code, clamp, builder, inc, pending, Elements(pending) + {pc})
      invariant Slack(code, inc) < Slack(code, inc0) || (inc == inc0 && pending == rest)
      invariant pc in pending || (inc[pc] == value && forall i :: 0 <= i < j ==> Covers(code, clamp, inc, pc, next[i]))
    {
      var edge := Carried(code, clamp, pc, next[j], value);
      var merged := Merge(inc, next[j], edge);
      MergeKeeps(code, clamp, builder, inc, pending, pc, next[j], value);
      if merged != inc {
        pending := pending + [next[j]];
      }
      inc := merged;
    }
    if pc !in pending {
      assert Settled(code, clamp, builder, inc, pc) by { AllCovered(code, clamp, builder, inc, pc, next); }
      assert AllSettled(code, clamp, builder, inc, Elements(pending));
    } else {
      assert Elements(pending) + {pc} == Elements(pending);
    }
  }

  lemma BoundedAt(code: Code, inc: Facts, pc: int)
    requires Bounded(code, inc) && pc in inc
    ensures inc[pc].Any? || inc[pc].values <= Words(code)
  {}

  lemma AllCovered(code: Code, clamp: int, builder: int, inc: Facts, pc: int, next: seq<int>)
    requires 0 <= pc < |code| && pc in inc && next == Next(code, pc)
    requires forall i :: 0 <= i < |next| ==> Covers(code, clamp, inc, pc, next[i])
    ensures Settled(code, clamp, builder, inc, pc)
  {}

  /** The work list computes the least fixpoint. */
  method Solve(code: Code, clamp: int, builder: int) returns (inc: Facts)
    requires Resolved(code) && |code| > 0
    ensures Fixpoint(code, clamp, builder, inc) && Least(code, clamp, builder, inc)
  {
    hide Kept, Slack, Fixpoint, Least;
    var pending := [0];
    inc := map[0 := Any];
    InitiallyKept(code, clamp, builder);
    while pending != []
      invariant Kept(code, clamp, builder, inc, pending, Elements(pending))
      decreases Slack(code, inc), |pending|
    {
      var pc := pending[|pending| - 1];
      var rest := pending[..|pending| - 1];
      assert pending == rest + [pc];
      PopKeeps(code, clamp, builder, inc, rest, pc);
      if pc == builder {
        pending := rest;
      } else {
        inc, pending := Spread(code, clamp, builder, inc, rest, pc);
      }
    }
    KeptIsLeast(code, clamp, builder, inc);
  }

  /**
    The check.  Acceptance makes every execution arrive at the builder with r6 in
    {0, 1, 2}; refusal means the clamp can be entered midway, or the builder is not
    reached, or no assignment of value sets at all would have proved it.
   */
  method Check(code: Code, clamp: int, builder: int) returns (ok: bool)
    requires Resolved(code) && IsClamp(code, clamp)
    ensures ok ==> BuilderSafe(code, builder)
    ensures !ok ==>
      || (exists live :: IsLive(code, live) && !EnteredFromTop(code, live, clamp))
      || (exists inc :: Fixpoint(code, clamp, builder, inc) && builder !in inc)
      || (forall inc :: Fixpoint(code, clamp, builder, inc) ==> !Proves(builder, inc))
  {
    hide Fixpoint, Least, BuilderSafe, Reaches, EnteredFromTop;
    var live := Reachable(code, 0);
    assert IsLive(code, live);
    if !EnteredFromTop(code, live, clamp) { return false; }
    var inc := Solve(code, clamp, builder);
    ok := Proves(builder, inc);
    if ok {
      FixpointIsSound(code, live, clamp, builder, inc);
    } else if builder in inc {
      LeastDecides(code, clamp, builder, inc);
    }
  }

  lemma InitiallyKept(code: Code, clamp: int, builder: int)
    requires Resolved(code) && |code| > 0
    ensures Kept(code, clamp, builder, map[0 := Any], [0], Elements([0]))
  {
    assert 0 in Elements([0]);
  }

  lemma PopKeeps(code: Code, clamp: int, builder: int, inc: Facts, rest: seq<int>, pc: int)
    requires Kept(code, clamp, builder, inc, rest + [pc], Elements(rest + [pc]))
    ensures pc in inc && Kept(code, clamp, builder, inc, rest, Elements(rest) + {pc})
    ensures pc == builder ==> Kept(code, clamp, builder, inc, rest, Elements(rest))
  {
    assert pc in rest + [pc];
    assert Elements(rest + [pc]) == Elements(rest) + {pc};
  }

  lemma KeptIsLeast(code: Code, clamp: int, builder: int, inc: Facts)
    requires Kept(code, clamp, builder, inc, [], Elements([]))
    ensures Fixpoint(code, clamp, builder, inc) && Least(code, clamp, builder, inc)
  {
    hide Settled;
  }

  /** If the least fixpoint does not prove the builder's flags, no fixpoint does. */
  lemma LeastDecides(code: Code, clamp: int, builder: int, inc: Facts)
    requires Least(code, clamp, builder, inc) && builder in inc && !Proves(builder, inc)
    ensures forall other: Facts :: Fixpoint(code, clamp, builder, other) ==> !Proves(builder, other)
  {
    hide Fixpoint;
    forall other: Facts | Fixpoint(code, clamp, builder, other) ensures !Proves(builder, other) {
      assert LiesBelow(inc, other);
    }
  }
}
