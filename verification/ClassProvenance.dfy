/**
  The class provenance check of the interface classifier
  (scripts/check-discovery-flow-object.py, 276-398).  It follows bits 16..23 of
  registers and of two stack words as must-facts, separately for every
  classification and every set of proofs a path can carry, and accepts only if
  the payload builder always receives the class of its path.
 */
module ClassProvenance {
  import opened Options
  import opened Disasm

  /** A fact about a register supplied by the decoder's argument tracking. */
  datatype Argument = StackAt(offset: int) | Constant(value: int) | OtherArgument

  datatype Loc = R(n: Register) | Slot(offset: int)

  /** Bits 16..23 known at a location. */
  type State = map<Loc, bv64>

  datatype Proof = Proof(read: bool, eight: bool, bytes: bool)

  /** The class a path expects and what it has proved since its last string read. */
  datatype History = History(expected: bv64, proof: Proof)

  datatype Key = Key(pc: int, history: History)

  type Facts = map<Key, State>

  /** Positions taken from the recipes, and the argument facts. */
  datatype Plan = Plan(guard: int, read: int, classified: int, builder: int,
                       arguments: map<int, map<Register, Argument>>)

  const SLOT_A: int := -0x48
  const SLOT_B: int := -0x50

  const START := History(4, Proof(false, false, false))

  function Lane(v: bv64): bv64 { Byte(v, 2) }

  // ----- the abstract step -----

  function Get(s: State, l: Loc): Option<bv64> {
    if l in s then Some(s[l]) else None
  }

  function Put(s: State, l: Loc, v: Option<bv64>): State {
    if v.Some? then s[l := v.value] else s - {l}
  }

  function ArgumentOf(plan: Plan, pc: int, r: Register): Argument {
    if pc in plan.arguments && r in plan.arguments[pc] then plan.arguments[pc][r] else OtherArgument
  }

  function Address(a: Argument, offset: int): Option<int> {
    if a.StackAt? then Some(a.offset + offset) else None
  }

  function Count(a: Argument): Option<int> {
    if a.Constant? then Some(a.value) else None
  }

  /** The effect of a write on one flag slot; its only relevant byte is at slot + 2. */
  function WriteSlot(s: State, slot: int, address: Option<int>, size: Option<int>, v: Option<bv64>): State {
    if address.None? || size.None? || address.value <= slot + 2 < address.value + size.value then
      if address == Some(slot) && (size == Some(4) || size == Some(8)) then Put(s, Slot(slot), v)
      else s - {Slot(slot)}
    else s
  }

  function WriteFlags(s: State, address: Option<int>, size: Option<int>, v: Option<bv64>): State {
    WriteSlot(WriteSlot(s, SLOT_A, address, size, v), SLOT_B, address, size, v)
  }

  function Combined(op: BitOp, previous: Option<bv64>, v: Option<bv64>): Option<bv64> {
    if op == Mov then v
    else if previous.Some? && v.Some? then Some(Apply(op, previous.value, v.value))
    else None
  }

  function AfterCall(plan: Plan, pc: int, callee: Callee, s: State): State {
    var written :=
      match callee
      case Lookup => s
      case OtherCallee => WriteFlags(s, None, None, None)
      case _ => WriteFlags(s, Address(ArgumentOf(plan, pc, 1), 0),
                           Count(ArgumentOf(plan, pc, SizeRegister(callee))), None);
    written - {R(0), R(1), R(2), R(3), R(4), R(5)}
  }

  function Transfer(plan: Plan, code: Code, pc: int, s: State): State
    requires 0 <= pc < |code|
  {
    match code[pc]
    case Store(size, base, offset, src, _) =>
      WriteFlags(s, Address(ArgumentOf(plan, pc, base), offset), Some(size), Get(s, R(src)))
    case Call(callee) => AfterCall(plan, pc, callee, s)
    case Bitwise(_, op, dst, operand) =>
      var v := if operand.Reg? then Get(s, R(operand.r)) else Some(Lane(operand.value));
      Put(s, R(dst), Combined(op, Get(s, R(dst)), v))
    case Load(dst, _, _, _) => s - {R(dst)}
    case Add(_, dst, _) => s - {R(dst)}
    case Arith(dst) => s - {R(dst)}
    case OtherWrite(_) => map[]
    case OtherStore => WriteFlags(s, None, None, None)
    case Branch(_, _) => s
    case Exit => s
    case Other => map[]
  }

  /** How a path's label changes along one edge. */
  function NextHistory(plan: Plan, code: Code, pc: int, l: History, next: int): History
    requires 0 <= pc < |code|
  {
    var taken := Taken(code, pc, next);
    if pc == plan.read then History(4, Proof(true, false, false))
    else if pc == plan.guard && taken then l.(expected := 3)
    else if pc == plan.classified + 4 then l.(expected := if taken then 4 else 2)
    else if pc == plan.classified + 7 && !taken then l.(proof := l.proof.(eight := true))
    else if pc == plan.classified + 10 && !taken then History(1, l.proof.(bytes := true))
    else l
  }

  // ----- fixpoints -----

  /** `a` claims no more than `b`. */
  ghost predicate Weaker(a: State, b: State) {
    forall l :: l in a ==> l in b && b[l] == a[l]
  }

  function Meet(a: State, b: State): State {
    map l | l in a && l in b && a[l] == b[l] :: a[l]
  }

  ghost predicate InCode(code: Code, inc: Facts) {
    forall k :: k in inc ==> 0 <= k.pc < |code|
  }

  ghost predicate Covers(plan: Plan, code: Code, inc: Facts, k: Key, next: int)
    requires k in inc && 0 <= k.pc < |code|
  {
    var to := Key(next, NextHistory(plan, code, k.pc, k.history, next));
    to in inc && Weaker(inc[to], Transfer(plan, code, k.pc, inc[k]))
  }

  ghost predicate Settled(plan: Plan, code: Code, inc: Facts, k: Key)
    requires k in inc && 0 <= k.pc < |code|
  {
    k.pc != plan.builder ==> forall next :: next in Next(code, k.pc) ==> Covers(plan, code, inc, k, next)
  }

  ghost predicate Fixpoint(plan: Plan, code: Code, inc: Facts) {
    && InCode(code, inc) && Key(0, START) in inc && inc[Key(0, START)] == map[]
    && forall k :: k in inc ==> Settled(plan, code, inc, k)
  }

  /** What the check requires of one builder input. */
  predicate Good(k: Key, s: State) {
    && Get(s, R(9)) == Some(k.history.expected)
    && Get(s, Slot(SLOT_A)) == Some(0) && Get(s, Slot(SLOT_B)) == Some(0)
    && (k.history.expected == 1 ==> k.history.proof == Proof(true, true, true))
  }

  predicate AllGood(plan: Plan, inc: Facts) {
    forall k :: k in inc && k.pc == plan.builder ==> Good(k, inc[k])
  }

  // ----- what the facts say of a machine -----

  ghost predicate Holds(s: State, m: Machine) {
    && |m.regs| == 11
    && (forall r: Register :: R(r) in s ==> Lane(m.regs[r]) == s[R(r)])
    && (forall o :: Slot(o) in s ==> (o == SLOT_A || o == SLOT_B) && m.stack(o + 2) == s[Slot(o)])
  }

  /** The argument facts the check looks at here are true, and r10 is the frame pointer. */
  ghost predicate ArgumentsHold(plan: Plan, code: Code, env: Env, m: Machine) {
    && |m.regs| == 11 && env.frame(m.regs[10]) == At(0)
    && (0 <= m.at < |code| ==>
          match code[m.at]
          case Store(_, base, _, _, _) => PointerHolds(plan, env, m, base)
          case Call(callee) =>
            callee != Lookup && callee != OtherCallee ==>
              PointerHolds(plan, env, m, 1) && CountHolds(plan, env, m, SizeRegister(callee))
          case _ => true)
  }

  ghost predicate PointerHolds(plan: Plan, env: Env, m: Machine, r: Register)
    requires |m.regs| == 11
  {
    var a := ArgumentOf(plan, m.at, r);
    a.StackAt? ==> env.frame(m.regs[r]) == At(a.offset)
  }

  ghost predicate CountHolds(plan: Plan, env: Env, m: Machine, r: Register)
    requires |m.regs| == 11
  {
    var a := ArgumentOf(plan, m.at, r);
    a.Constant? ==> env.number(m.regs[r]) == a.value
  }

  lemma LaneOfOr(a: bv64, b: bv64)
    ensures Lane(a | b) == Lane(a) | Lane(b)
  {}

  lemma LaneOfAnd(a: bv64, b: bv64)
    ensures Lane(a & b) == Lane(a) & Lane(b)
  {}

  lemma LaneOfXor(a: bv64, b: bv64)
    ensures Lane(a ^ b) == Lane(a) ^ Lane(b)
  {}

  lemma LaneOfNarrowed(narrow: bool, v: bv64)
    ensures Lane(Narrowed(narrow, v)) == Lane(v)
  {}

  /** The byte lane is a homomorphism for the tracked operations, at either width. */
  lemma LaneOfApply(narrow: bool, op: BitOp, a: bv64, b: bv64)
    ensures Lane(Narrowed(narrow, Apply(op, a, b))) == Apply(op, Lane(a), Lane(b))
  {
    hide Lane, Narrowed;
    LaneOfNarrowed(narrow, Apply(op, a, b));
    LaneOfOr(a, b);
    LaneOfAnd(a, b);
    LaneOfXor(a, b);
  }

  // ----- one step is sound -----

  /** What the arguments of WriteFlags claim about the change of the stack. */
  ghost predicate Describes(m: Machine, n: Machine, address: Option<int>, size: Option<int>, v: Option<bv64>) {
    address.Some? && size.Some? ==>
      && SameStackOutside(m, n, address.value, size.value)
      && (v.Some? && (size.value == 4 || size.value == 8) ==> n.stack(address.value + 2) == v.value)
  }

  lemma WriteFlagsHolds(s: State, m: Machine, n: Machine, address: Option<int>, size: Option<int>, v: Option<bv64>)
    requires Holds(s, m) && n.regs == m.regs && Describes(m, n, address, size, v)
    ensures Holds(WriteFlags(s, address, size, v), n)
  {
    hide Lane;
    var t := WriteFlags(s, address, size, v);
    forall o | Slot(o) in t ensures (o == SLOT_A || o == SLOT_B) && n.stack(o + 2) == t[Slot(o)] {}
  }

  lemma SameHolds(s: State, m: Machine, n: Machine, changed: set<int>)
    requires Holds(s, m) && |n.regs| == 11 && SameRegs(m, n, changed) && SameStackOutside(m, n, 0, 0)
    requires forall r: Register :: R(r) in s ==> r !in changed
    ensures Holds(s, n)
  {
    hide Lane;
  }

  lemma StoreHolds(plan: Plan, code: Code, env: Env, m: Machine, n: Machine, s: State)
    requires Step(code, env, m, n) && Holds(s, m) && ArgumentsHold(plan, code, env, m) && code[m.at].Store?
    ensures Holds(Transfer(plan, code, m.at, s), n)
  {
    var i := code[m.at];
    var a := ArgumentOf(plan, m.at, i.base);
    StoreEffect(code, env, m, n);
    hide Byte, Effect, WriteFlags;
    var v := Get(s, R(i.src));
    assert a.StackAt? && i.size > 2 ==> n.stack(a.offset + i.offset + 2) == Lane(m.regs[i.src]);
    WriteFlagsHolds(s, m, n, Address(a, i.offset), Some(i.size), v);
  }

  /** Facts about r6..r10 survive a call; those about r0..r5 are dropped. */
  lemma ClobberHolds(s: State, m: Machine, n: Machine)
    requires Holds(s, m.(stack := n.stack)) && |n.regs| == 11 && SameRegs(m, n, {0, 1, 2, 3, 4, 5})
    ensures Holds(s - {R(0), R(1), R(2), R(3), R(4), R(5)}, n)
  {
    hide Lane;
  }

  lemma CallHolds(plan: Plan, code: Code, env: Env, m: Machine, n: Machine, s: State)
    requires Step(code, env, m, n) && Holds(s, m) && ArgumentsHold(plan, code, env, m) && code[m.at].Call?
    ensures Holds(Transfer(plan, code, m.at, s), n)
  {
    var callee := code[m.at].callee;
    assert SameRegs(m, n, {0, 1, 2, 3, 4, 5}) && CallEffect(env, callee, m, n) by {
      assert Effect(code, env, m, n);
    }
    hide Lane, Byte, Effect, WriteFlags;
    var clobbered := m.(stack := n.stack);
    if callee == Lookup {
      SameHolds(s, m, clobbered, {});
      ClobberHolds(s, m, n);
    } else if callee == OtherCallee {
      WriteFlagsHolds(s, m, clobbered, None, None, None);
      ClobberHolds(WriteFlags(s, None, None, None), m, n);
    } else {
      var address := Address(ArgumentOf(plan, m.at, 1), 0);
      var size := Count(ArgumentOf(plan, m.at, SizeRegister(callee)));
      WriteFlagsHolds(s, m, clobbered, address, size, None);
      ClobberHolds(WriteFlags(s, address, size, None), m, n);
    }
  }

  lemma BitwiseEffect(code: Code, env: Env, m: Machine, n: Machine)
    requires Step(code, env, m, n) && code[m.at].Bitwise?
    ensures var i := code[m.at];
            && SameRegs(m, n, {i.dst}) && SameStackOutside(m, n, 0, 0)
            && Lane(n.regs[i.dst]) == Apply(i.op, Lane(m.regs[i.dst]), Lane(Value(m.regs, i.operand)))
  {
    hide Lane, Narrowed, Effect;
    BitwiseResult(code, env, m, n);
    var i := code[m.at];
    LaneOfApply(i.narrow, i.op, m.regs[i.dst], Value(m.regs, i.operand));
  }

  lemma BitwiseHolds(plan: Plan, code: Code, env: Env, m: Machine, n: Machine, s: State)
    requires Step(code, env, m, n) && Holds(s, m) && code[m.at].Bitwise?
    ensures Holds(Transfer(plan, code, m.at, s), n)
  {
    BitwiseEffect(code, env, m, n);
    var i := code[m.at];
    var v := if i.operand.Reg? then Get(s, R(i.operand.r)) else Some(Lane(i.operand.value));
    var w := Combined(i.op, Get(s, R(i.dst)), v);
    assert v.Some? ==> Lane(Value(m.regs, i.operand)) == v.value by { hide Lane, Byte, Effect; }
    assert w.Some? ==> Lane(n.regs[i.dst]) == w.value by { hide Lane, Byte, Effect; }
    hide Lane, Byte, Effect, Apply;
    PutHolds(s, m, n, i.dst, w);
  }

  /** An instruction that writes one register, whose new lane is known or dropped. */
  lemma PutHolds(s: State, m: Machine, n: Machine, dst: Register, v: Option<bv64>)
    requires Holds(s, m) && |n.regs| == 11 && SameRegs(m, n, {dst}) && SameStackOutside(m, n, 0, 0)
    requires v.Some? ==> Lane(n.regs[dst]) == v.value
    ensures Holds(Put(s, R(dst), v), n)
  {
    hide Lane;
  }

  /** Whatever an instruction does, the transferred facts are true afterwards. */
  lemma StepHolds(plan: Plan, code: Code, env: Env, m: Machine, n: Machine, s: State)
    requires Step(code, env, m, n) && Holds(s, m) && ArgumentsHold(plan, code, env, m)
    ensures Holds(Transfer(plan, code, m.at, s), n)
  {
    hide Lane, Byte;
    match code[m.at]
    case Store(_, _, _, _, _) => StoreHolds(plan, code, env, m, n, s);
    case Call(_) => CallHolds(plan, code, env, m, n, s);
    case Bitwise(_, _, _, _) => BitwiseHolds(plan, code, env, m, n, s);
    case OtherStore =>
      assert Effect(code, env, m, n);
      WriteFlagsHolds(s, m, n, None, None, None);
    case OtherWrite(_) =>
    case Other =>
    case Exit =>
    case Load(dst, _, _, _) =>
      assert Effect(code, env, m, n);
      PutHolds(s, m, n, dst, None);
    case Add(_, dst, _) =>
      assert Effect(code, env, m, n);
      PutHolds(s, m, n, dst, None);
    case Arith(dst) =>
      assert Effect(code, env, m, n);
      PutHolds(s, m, n, dst, None);
    case Branch(_, _) =>
      assert Effect(code, env, m, n);
      SameHolds(s, m, n, {});
  }

  // ----- fixpoints are sound -----

  /** The history a run has accumulated on arriving at its `k`-th state. */
  ghost function HistoryAt(plan: Plan, code: Code, run: seq<Machine>, k: nat): History
    requires k < |run| && forall i :: 0 <= i < k ==> 0 <= run[i].at < |code|
  {
    if k == 0 then START
    else NextHistory(plan, code, run[k - 1].at, HistoryAt(plan, code, run, k - 1), run[k].at)
  }

  ghost predicate Tracked(plan: Plan, code: Code, env: Env, run: seq<Machine>) {
    && Execution(code, env, run)
    && (forall i :: 0 <= i < |run| - 1 ==> 0 <= run[i].at < |code|)
    && forall i :: 0 <= i < |run| ==> ArgumentsHold(plan, code, env, run[i])
  }

  /** An execution whose last state is its first arrival at the builder. */
  ghost predicate Arrives(plan: Plan, code: Code, env: Env, run: seq<Machine>) {
    && Tracked(plan, code, env, run) && run[|run| - 1].at == plan.builder
    && forall j :: 0 <= j < |run| - 1 ==> run[j].at != plan.builder
  }

  lemma {:induction false} FactsHold(plan: Plan, code: Code, env: Env, inc: Facts, run: seq<Machine>, k: nat)
    requires Fixpoint(plan, code, inc) && Tracked(plan, code, env, run) && k < |run|
    requires forall j :: 0 <= j < k ==> run[j].at != plan.builder
    ensures Key(run[k].at, HistoryAt(plan, code, run, k)) in inc
    ensures Holds(inc[Key(run[k].at, HistoryAt(plan, code, run, k))], run[k])
  {
    hide Effect, Transfer, Next, Byte, Lane, NextHistory;
    if k > 0 {
      var m, n := run[k - 1], run[k];
      FactsHold(plan, code, env, inc, run, k - 1);
      var from := Key(m.at, HistoryAt(plan, code, run, k - 1));
      assert Step(code, env, m, n) && Settled(plan, code, inc, from);
      assert Covers(plan, code, inc, from, n.at);
      StepHolds(plan, code, env, m, n, inc[from]);
    }
  }

  /** The class of a run, and what it has proved, at its arrival at the builder. */
  ghost predicate ArrivesWithClass(plan: Plan, code: Code, run: seq<Machine>)
    requires |run| > 0 && forall i :: 0 <= i < |run| - 1 ==> 0 <= run[i].at < |code|
  {
    var m := run[|run| - 1];
    var h := HistoryAt(plan, code, run, |run| - 1);
    && |m.regs| == 11 && Lane(m.regs[9]) == h.expected
    && m.stack(SLOT_A + 2) == 0 && m.stack(SLOT_B + 2) == 0
    && (h.expected == 1 ==> h.proof == Proof(true, true, true))
  }

  ghost predicate BuilderSafe(plan: Plan, code: Code) {
    forall env, run: seq<Machine> :: Arrives(plan, code, env, run) ==> ArrivesWithClass(plan, code, run)
  }

  lemma FixpointIsSound(plan: Plan, code: Code, inc: Facts)
    requires Fixpoint(plan, code, inc) && AllGood(plan, inc)
    ensures BuilderSafe(plan, code)
  {
    hide Fixpoint, Byte, Lane, NextHistory, HistoryAt;
    forall env, run: seq<Machine> | Arrives(plan, code, env, run)
      ensures ArrivesWithClass(plan, code, run)
    {
      var last := |run| - 1;
      FactsHold(plan, code, env, inc, run, last);
      var k := Key(run[last].at, HistoryAt(plan, code, run, last));
      assert Good(k, inc[k]);
      assert R(9) in inc[k] && Slot(SLOT_A) in inc[k] && Slot(SLOT_B) in inc[k];
    }
  }

  // ----- the work list -----

  lemma WriteFlagsMonotone(a: State, b: State, address: Option<int>, size: Option<int>, v: Option<bv64>, w: Option<bv64>)
    requires Weaker(a, b) && (v.Some? ==> w == v)
    ensures Weaker(WriteFlags(a, address, size, v), WriteFlags(b, address, size, w))
  {
    WriteSlotMonotone(a, b, SLOT_A, address, size, v, w);
    var a', b' := WriteSlot(a, SLOT_A, address, size, v), WriteSlot(b, SLOT_A, address, size, w);
    WriteSlotMonotone(a', b', SLOT_B, address, size, v, w);
    hide WriteSlot;
  }

  lemma WriteSlotMonotone(a: State, b: State, slot: int, address: Option<int>, size: Option<int>, v: Option<bv64>, w: Option<bv64>)
    requires Weaker(a, b) && (v.Some? ==> w == v)
    ensures Weaker(WriteSlot(a, slot, address, size, v), WriteSlot(b, slot, address, size, w))
  {}

  /** Knowing less before an instruction means knowing less after it. */
  lemma Monotone(plan: Plan, code: Code, pc: int, a: State, b: State)
    requires 0 <= pc < |code| && Weaker(a, b)
    ensures Weaker(Transfer(plan, code, pc, a), Transfer(plan, code, pc, b))
  {
    hide Lane, Byte, WriteFlags, Apply;
    match code[pc]
    case Store(size, base, offset, src, _) =>
      WriteFlagsMonotone(a, b, Address(ArgumentOf(plan, pc, base), offset), Some(size), Get(a, R(src)), Get(b, R(src)));
    case Call(callee) =>
      WriteFlagsMonotone(a, b, None, None, None, None);
      WriteFlagsMonotone(a, b, Address(ArgumentOf(plan, pc, 1), 0),
                         Count(ArgumentOf(plan, pc, SizeRegister(callee))), None, None);
    case OtherStore => WriteFlagsMonotone(a, b, None, None, None, None);
    case Bitwise(_, op, dst, operand) =>
    case _ =>
  }

  /** No other solution knows more: every fixpoint's facts are among these. */
  ghost predicate LiesAbove(inc: Facts, other: Facts) {
    forall k :: k in inc ==> k in other && Weaker(other[k], inc[k])
  }

  ghost predicate Greatest(plan: Plan, code: Code, inc: Facts) {
    forall other: Facts :: Fixpoint(plan, code, other) ==> LiesAbove(inc, other)
  }

  function Merge(inc: Facts, to: Key, s: State): Facts {
    inc[to := if to in inc then Meet(inc[to], s) else s]
  }

  lemma MergeIsGreatest(plan: Plan, code: Code, inc: Facts, k: Key, next: int, s: State)
    requires Greatest(plan, code, inc) && 0 <= k.pc < |code| && k in inc && k.pc != plan.builder
    requires next in Next(code, k.pc) && Weaker(inc[k], s)
    ensures var to := Key(next, NextHistory(plan, code, k.pc, k.history, next));
            Greatest(plan, code, Merge(inc, to, Transfer(plan, code, k.pc, s)))
  {
    hide Next, Transfer, NextHistory;
    var to := Key(next, NextHistory(plan, code, k.pc, k.history, next));
    var out := Transfer(plan, code, k.pc, s);
    forall other: Facts | Fixpoint(plan, code, other) ensures LiesAbove(Merge(inc, to, out), other) {
      assert LiesAbove(inc, other) && Settled(plan, code, other, k);
      assert Covers(plan, code, other, k, next);
      Monotone(plan, code, k.pc, other[k], s);
    }
  }

  ghost function Histories(): set<History> {
    var proofs := {Proof(false, false, false), Proof(false, false, true), Proof(false, true, false), Proof(false, true, true),
                   Proof(true, false, false), Proof(true, false, true), Proof(true, true, false), Proof(true, true, true)};
    set e, p | e in {1 as bv64, 2, 3, 4} && p in proofs :: History(e, p)
  }

  ghost function Locations(): set<Loc> {
    (set r: Register | r in Below(11) :: R(r)) + {Slot(SLOT_A), Slot(SLOT_B)}
  }

  ghost predicate LocsOk(s: State) {
    forall l :: l in s ==> l.R? || l.offset == SLOT_A || l.offset == SLOT_B
  }

  lemma LocIsKnown(l: Loc)
    requires l.R? || l.offset == SLOT_A || l.offset == SLOT_B
    ensures l in Locations()
  {
    assert l.R? ==> l.n in Below(11);
  }

  ghost predicate KeyOk(code: Code, k: Key) {
    0 <= k.pc < |code| && k.history in Histories()
  }

  ghost predicate Bounded(code: Code, inc: Facts) {
    forall k :: k in inc ==> KeyOk(code, k) && LocsOk(inc[k])
  }

  lemma HistoryStaysBounded(plan: Plan, code: Code, k: Key, next: int)
    requires KeyOk(code, k)
    ensures NextHistory(plan, code, k.pc, k.history, next) in Histories()
  {}

  lemma TransferStaysBounded(plan: Plan, code: Code, pc: int, s: State)
    requires 0 <= pc < |code| && LocsOk(s)
    ensures LocsOk(Transfer(plan, code, pc, s))
  {
    hide Lane, Byte, Apply;
  }

  /** What may still change: a key unseen, or a fact still claimed. */
  datatype Mark = Absent(key: Key) | Claims(key: Key, loc: Loc)

  ghost predicate Pending(inc: Facts, m: Mark) {
    m.key !in inc || (m.Claims? && m.loc in inc[m.key])
  }

  ghost function Keys(code: Code): set<Key> {
    set pc, h | pc in Below(|code|) && h in Histories() :: Key(pc, h)
  }

  ghost function Marks(code: Code): set<Mark> {
    (set k | k in Keys(code) :: Absent(k)) + (set k, l | k in Keys(code) && l in Locations() :: Claims(k, l))
  }

  ghost function Slack(code: Code, inc: Facts): set<Mark> {
    set m | m in Marks(code) && Pending(inc, m)
  }

  /** A merge that changes anything uses up slack. */
  lemma MergeUsesSlack(code: Code, inc: Facts, to: Key, s: State)
    requires Bounded(code, inc) && KeyOk(code, to) && LocsOk(s)
    ensures Merge(inc, to, s) != inc ==> Slack(code, Merge(inc, to, s)) < Slack(code, inc)
    ensures Bounded(code, Merge(inc, to, s))
  {
    hide Histories, Locations;
    var after := Merge(inc, to, s);
    assert to in Keys(code);
    if after != inc {
      var used: Mark;
      if to !in inc {
        used := Absent(to);
      } else {
        assert after[to] != inc[to] && after[to].Keys <= inc[to].Keys;
        var l :| l in inc[to] && l !in after[to];
        used := Claims(to, l);
        LocIsKnown(l);
      }
      assert used in Slack(code, inc) && used !in Slack(code, after);
      forall m | m in Slack(code, after) ensures m in Slack(code, inc) {
        assert Pending(after, m);
      }
    }
  }

  ghost predicate AllSettled(plan: Plan, code: Code, inc: Facts, open: set<Key>) {
    InCode(code, inc) && forall k :: k in inc && k !in open ==> Settled(plan, code, inc, k)
  }

  /** Dropping facts at `to` leaves every other key's edges covered. */
  lemma MergeKeepsSettled(plan: Plan, code: Code, inc: Facts, open: set<Key>, to: Key, s: State)
    requires AllSettled(plan, code, inc, open) && 0 <= to.pc < |code|
    ensures var after := Merge(inc, to, s);
            AllSettled(plan, code, after, if after == inc then open else open + {to})
  {
    hide Next, Transfer, NextHistory;
    var after := Merge(inc, to, s);
    if after != inc {
      forall k | k in after && k !in open + {to} ensures Settled(plan, code, after, k) {
        assert Settled(plan, code, inc, k) && after[k] == inc[k];
        if k.pc != plan.builder {
          forall q | q in Next(code, k.pc) ensures Covers(plan, code, after, k, q) {
            assert Covers(plan, code, inc, k, q);
          }
        }
      }
    }
  }

  ghost function Elements(s: seq<Key>): set<Key> {
    set x | x in s
  }

  ghost predicate Kept(plan: Plan, code: Code, inc: Facts, pending: seq<Key>, open: set<Key>) {
    && AllSettled(plan, code, inc, open) && Greatest(plan, code, inc) && Bounded(code, inc)
    && Key(0, START) in inc && inc[Key(0, START)] == map[]
    && forall k :: k in pending ==> k in inc
  }

  /** One merge of the work list: everything kept, and progress if anything changed. */
  lemma MergeKeeps(plan: Plan, code: Code, inc: Facts, pending: seq<Key>, k: Key, next: int, s: State)
    requires Resolved(code) && Kept(plan, code, inc, pending, Elements(pending) + {k})
    requires k in inc && k.pc != plan.builder && next in Next(code, k.pc)
    requires Weaker(inc[k], s) && LocsOk(s)
    ensures var to := Key(next, NextHistory(plan, code, k.pc, k.history, next));
            var out := Transfer(plan, code, k.pc, s);
            var after := Merge(inc, to, out);
            var queue := if after == inc then pending else pending + [to];
            && Kept(plan, code, after, queue, Elements(queue) + {k})
            && (after != inc ==> Slack(code, after) < Slack(code, inc))
            && to in after && Weaker(after[to], out) && Weaker(after[k], s)
  {
    hide Next, Transfer, NextHistory, Greatest, Slack, Locations, Histories;
    NextInCode(code, k.pc, next);
    var to := Key(next, NextHistory(plan, code, k.pc, k.history, next));
    var out := Transfer(plan, code, k.pc, s);
    var after := Merge(inc, to, out);
    HistoryStaysBounded(plan, code, k, next);
    TransferStaysBounded(plan, code, k.pc, s);
    MergeIsGreatest(plan, code, inc, k, next, s);
    MergeUsesSlack(code, inc, to, out);
    MergeKeepsSettled(plan, code, inc, Elements(pending) + {k}, to, out);
    hide AllSettled, Bounded;
    if after != inc {
      assert Elements(pending + [to]) + {k} == Elements(pending) + {k} + {to};
    }
  }

  /** Sends the facts at `k` along its edges. */
  method Spread(plan: Plan, code: Code, inc0: Facts, rest: seq<Key>, k: Key) returns (inc: Facts, pending: seq<Key>)
    requires Resolved(code) && k in inc0 && k.pc != plan.builder
    requires Kept(plan, code, inc0, rest, Elements(rest) + {k})
    ensures Kept(plan, code, inc, pending, Elements(pending))
    ensures Slack(code, inc) < Slack(code, inc0) || (inc == inc0 && pending == rest)
  {
    hide Next, Transfer, NextHistory, Greatest, Slack, Settled, Locations, Histories;
    inc, pending := inc0, rest;
    var state := inc0[k];
    var next := Next(code, k.pc);
    for j := 0 to |next|
      invariant k in inc && Weaker(inc[k], state)
      invariant Kept(plan, code, inc, pending, Elements(pending) + {k})
      invariant Slack(code, inc) < Slack(code, inc0) || (inc == inc0 && pending == rest)
      invariant k in pending || (inc[k] == state && forall i :: 0 <= i < j ==> Covers(plan, code, inc, k, next[i]))
    {
      var to := Key(next[j], NextHistory(plan, code, k.pc, k.history, next[j]));
      var merged := Merge(inc, to, Transfer(plan, code, k.pc, state));
      MergeKeeps(plan, code, inc, pending, k, next[j], state);
      if merged != inc {
        pending := pending + [to];
      }
      inc := merged;
    }
    if k !in pending {
      AllCovered(plan, code, inc, k, next);
      assert AllSettled(plan, code, inc, Elements(pending));
    } else {
      assert Elements(pending) + {k} == Elements(pending);
    }
  }

  lemma AllCovered(plan: Plan, code: Code, inc: Facts, k: Key, next: seq<int>)
    requires k in inc && 0 <= k.pc < |code| && next == Next(code, k.pc)
    requires forall i :: 0 <= i < |next| ==> Covers(plan, code, inc, k, next[i])
    ensures Settled(plan, code, inc, k)
  {}

  /** The work list computes the greatest fixpoint. */
  method Solve(plan: Plan, code: Code) returns (inc: Facts)
    requires Resolved(code) && |code| > 0
    ensures Fixpoint(plan, code, inc) && Greatest(plan, code, inc)
  {
    hide Kept, Slack, Fixpoint, Greatest;
    var pending := [Key(0, START)];
    inc := map[Key(0, START) := map[]];
    InitiallyKept(plan, code);
    while pending != []
      invariant Kept(plan, code, inc, pending, Elements(pending))
      decreases Slack(code, inc), |pending|
    {
      var k := pending[|pending| - 1];
      var rest := pending[..|pending| - 1];
      assert pending == rest + [k];
      PopKeeps(plan, code, inc, rest, k);
      if k.pc == plan.builder {
        pending := rest;
      } else {
        inc, pending := Spread(plan, code, inc, rest, k);
      }
    }
    KeptIsGreatest(plan, code, inc);
  }

  lemma InitiallyKept(plan: Plan, code: Code)
    requires Resolved(code) && |code| > 0
    ensures var start := Key(0, START);
            Kept(plan, code, map[start := map[]], [start], Elements([start]))
  {
    var start := Key(0, START);
    assert start in Elements([start]);
    assert KeyOk(code, start);
    assert Bounded(code, map[start := map[]]);
  }

  lemma PopKeeps(plan: Plan, code: Code, inc: Facts, rest: seq<Key>, k: Key)
    requires Kept(plan, code, inc, rest + [k], Elements(rest + [k]))
    ensures k in inc && Kept(plan, code, inc, rest, Elements(rest) + {k})
    ensures k.pc == plan.builder ==> Kept(plan, code, inc, rest, Elements(rest))
  {
    assert k in rest + [k];
    assert Elements(rest + [k]) == Elements(rest) + {k};
  }

  lemma KeptIsGreatest(plan: Plan, code: Code, inc: Facts)
    requires Kept(plan, code, inc, [], Elements([]))
    ensures Fixpoint(plan, code, inc) && Greatest(plan, code, inc)
  {
    hide Settled;
  }

  predicate ReachesBuilder(plan: Plan, inc: Facts) {
    exists k :: k in inc && k.pc == plan.builder
  }

  /** If the greatest fixpoint does not justify the builder, no fixpoint does. */
  lemma GreatestDecides(plan: Plan, code: Code, inc: Facts)
    requires Greatest(plan, code, inc) && !AllGood(plan, inc)
    ensures forall other: Facts :: Fixpoint(plan, code, other) ==> !AllGood(plan, other)
  {
    hide Fixpoint;
    var k :| k in inc && k.pc == plan.builder && !Good(k, inc[k]);
    forall other: Facts | Fixpoint(plan, code, other) ensures !AllGood(plan, other) {
      assert LiesAbove(inc, other) && !Good(k, other[k]);
    }
  }

  // ----- the surrounding shape -----

  const BUILDER_LENGTH: int := 26

  ghost predicate Acyclic(code: Code) {
    forall p, q :: Reaches(code, 0, p) && 0 <= p < |code| && q in Next(code, p) ==> !Reaches(code, q, p)
  }

  predicate EnteredFromTop(code: Code, live: set<int>, builder: int) {
    forall p :: builder < p < builder + BUILDER_LENGTH ==> Entries(code, live, p) == {p - 1}
  }

  method CheckAcyclic(code: Code, live: set<int>) returns (ok: bool)
    requires Resolved(code) && IsLive(code, live)
    ensures ok <==> Acyclic(code)
  {
    hide Next, Reaches;
    for p := 0 to |code|
      invariant forall p', q :: 0 <= p' < p && p' in live && q in Next(code, p') ==> !Reaches(code, q, p')
    {
      if p in live {
        var next := Next(code, p);
        for j := 0 to |next|
          invariant forall i :: 0 <= i < j ==> !Reaches(code, next[i], p)
        {
          NextInCode(code, p, next[j]);
          var back := Reachable(code, next[j]);
          if p in back { return false; }
        }
      }
    }
    ok := true;
  }

  /**
    The check.  Acceptance makes every execution arrive at the builder with its own
    class; refusal means a cyclic classifier, a builder entered midway or never
    reached, or that no assignment of facts at all would have proved the class.
   */
  method Check(plan: Plan, code: Code) returns (ok: bool)
    requires Resolved(code) && |code| > 0
    ensures ok ==> BuilderSafe(plan, code) && Acyclic(code)
    ensures ok ==> exists live :: IsLive(code, live) && EnteredFromTop(code, live, plan.builder)
    ensures ok ==> exists inc :: Fixpoint(plan, code, inc) && ReachesBuilder(plan, inc) && AllGood(plan, inc)
    ensures !ok ==>
      || !Acyclic(code)
      || (exists live :: IsLive(code, live) && !EnteredFromTop(code, live, plan.builder))
      || (exists inc :: Fixpoint(plan, code, inc) && !ReachesBuilder(plan, inc))
      || (forall inc :: Fixpoint(plan, code, inc) ==> !AllGood(plan, inc))
  {
    hide Fixpoint, Greatest, BuilderSafe, Reaches, EnteredFromTop, Acyclic, AllGood, ReachesBuilder;
    var live := Reachable(code, 0);
    assert IsLive(code, live);
    var acyclic := CheckAcyclic(code, live);
    if !acyclic { return false; }
    if !EnteredFromTop(code, live, plan.builder) { return false; }
    var inc := Solve(plan, code);
    if !ReachesBuilder(plan, inc) { return false; }
    if !AllGood(plan, inc) {
      GreatestDecides(plan, code, inc);
      return false;
    }
    FixpointIsSound(plan, code, inc);
    ok := true;
  }
}
