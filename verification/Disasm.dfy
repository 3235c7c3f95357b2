/**
  Disassembled BPF functions as the discovery checks see them
  (scripts/check-live-discovery-object.py, 429-458): the instruction forms their
  patterns distinguish, the control-flow graph, and the machine those forms run on.

  Instructions are named by their position.  Stack bytes are named by their
  distance from the frame pointer r10.
 */
module Disasm {

  type Register = n: nat | n <= 10

  datatype Operand = Reg(r: Register) | Imm(value: bv64)

  /** What an addition adds: a printed number, or what a register holds. */
  datatype Amount = Literal(value: int) | Held(r: Register)

  datatype BitOp = Mov | Or | And | Xor

  datatype Cond =
    | Always
    | Equal(left: Register, right: Operand)
    | NotEqual(left: Register, right: Operand)
    | Above(left: Register, right: Operand)
    | SignedAbove(left: Register, right: Operand)
    | Unmodelled

  datatype Callee =
    | Lookup
    | ReadUser
    | ReadUserString
    | Memset
    | OtherCallee

  datatype Insn =
    | Store(size: nat, base: Register, offset: int, src: Register, narrow: bool)
    | OtherStore
    | Call(callee: Callee)
    | Bitwise(narrow: bool, op: BitOp, dst: Register, operand: Operand)
    | Load(dst: Register, size: nat, base: Register, offset: int)
    | Add(narrow: bool, dst: Register, amount: Amount)
    | Arith(dst: Register)
    | OtherWrite(dst: Register)
    | Branch(cond: Cond, target: int)
    | Exit
    | Other

  type Code = seq<Insn>

  /** Every branch targets a decoded instruction. */
  predicate Resolved(code: Code) {
    forall i :: 0 <= i < |code| && code[i].Branch? ==> 0 <= code[i].target < |code|
  }

  /** Successors in the order the decoder lists them: the branch target first. */
  function Next(code: Code, at: int): seq<int>
    requires 0 <= at < |code|
  {
    var following := if at + 1 < |code| then [at + 1] else [];
    match code[at]
    case Branch(Always, target) => [target]
    case Branch(_, target) => [target] + following
    case Exit => []
    case _ => following
  }

  lemma NextInCode(code: Code, at: int, next: int)
    requires Resolved(code) && 0 <= at < |code| && next in Next(code, at)
    ensures 0 <= next < |code|
  {}

  predicate Taken(code: Code, at: int, next: int)
    requires 0 <= at < |code|
  {
    code[at].Branch? && next == code[at].target
  }

  // ----- the machine -----

  /** `frame` tells which values point into the stack frame, `number` what a value counts. */
  datatype Env = Env(frame: bv64 -> Frame, number: bv64 -> int)

  datatype Frame = Elsewhere | At(offset: int)

  datatype Machine = Machine(at: int, regs: seq<bv64>, stack: int -> bv64)

  const TWO32: int := 0x1_0000_0000
  const TWO64: int := 0x1_0000_0000_0000_0000

  function AmountOf(env: Env, m: Machine, amount: Amount): int
    requires |m.regs| == 11
  {
    match amount
    case Literal(n) => n
    case Held(r) => env.number(m.regs[r])
  }

  /** The frame has 512 bytes; a pointer into it may also point to its end. */
  predicate InFrame(offset: int) {
    -512 <= offset <= 0
  }

  /** Byte `k` of a word, little endian. */
  function Byte(v: bv64, k: nat): bv64 {
    if k == 0 then v & 0xff
    else if k == 1 then (v >> 8) & 0xff
    else if k == 2 then (v >> 16) & 0xff
    else if k == 3 then (v >> 24) & 0xff
    else if k == 4 then (v >> 32) & 0xff
    else if k == 5 then (v >> 40) & 0xff
    else if k == 6 then (v >> 48) & 0xff
    else if k == 7 then (v >> 56) & 0xff
    else 0
  }

  function Narrowed(narrow: bool, v: bv64): bv64 {
    if narrow then v & 0xffff_ffff else v
  }

  function Apply(op: BitOp, a: bv64, b: bv64): bv64 {
    match op
    case Mov => b
    case Or => a | b
    case And => a & b
    case Xor => a ^ b
  }

  function Value(regs: seq<bv64>, o: Operand): bv64
    requires |regs| == 11
  {
    match o
    case Reg(r) => regs[r]
    case Imm(v) => v
  }

  /** Whether a branch is taken, where its condition is one of the forms the recipes use. */
  ghost predicate Decides(c: Cond, regs: seq<bv64>, taken: bool)
    requires |regs| == 11
  {
    match c
    case Always => taken
    case Equal(l, r) => taken <==> regs[l] == Value(regs, r)
    case NotEqual(l, r) => taken <==> regs[l] != Value(regs, r)
    case Above(l, r) => taken <==> regs[l] > Value(regs, r)
    case SignedAbove(l, r) =>
      taken <==> (regs[l] ^ 0x8000_0000_0000_0000) > (Value(regs, r) ^ 0x8000_0000_0000_0000)
    case Unmodelled => true
  }

  predicate SameRegs(m: Machine, n: Machine, changed: set<int>)
    requires |m.regs| == 11 && |n.regs| == 11
  {
    forall r :: 0 <= r < 11 && r !in changed ==> n.regs[r] == m.regs[r]
  }

  /** Only the bytes from `from` on, `size` of them, may differ. */
  ghost predicate SameStackOutside(m: Machine, n: Machine, from: int, size: int) {
    forall x: int {:trigger n.stack(x)} :: !(from <= x < from + size) ==> n.stack(x) == m.stack(x)
  }

  ghost predicate StackWritten(m: Machine, n: Machine, from: int, size: nat, v: bv64) {
    && SameStackOutside(m, n, from, size)
    && forall x: int {:trigger n.stack(x)} :: from <= x < from + size ==> n.stack(x) == Byte(v, x - from)
  }

  /** The argument that holds the size of a known writer's buffer. */
  function SizeRegister(callee: Callee): Register {
    if callee == Memset then 3 else 2
  }

  /** What a call may do to the frame: known readers and memset fill their buffer only. */
  ghost predicate CallEffect(env: Env, callee: Callee, m: Machine, n: Machine)
    requires |m.regs| == 11 && |n.regs| == 11
  {
    match callee
    case Lookup => SameStackOutside(m, n, 0, 0)
    case OtherCallee => true
    case _ =>
      var size := env.number(m.regs[SizeRegister(callee)]);
      match env.frame(m.regs[1])
      case Elsewhere => SameStackOutside(m, n, 0, 0)
      case At(k) => SameStackOutside(m, n, k, size)
  }

  /** One instruction, in every way the environment may answer it. */
  ghost predicate Step(code: Code, env: Env, m: Machine, n: Machine) {
    && |m.regs| == 11 && |n.regs| == 11 && 0 <= m.at < |code|
    && n.at in Next(code, m.at)
    && Effect(code, env, m, n)
  }

  ghost predicate Effect(code: Code, env: Env, m: Machine, n: Machine)
    requires |m.regs| == 11 && |n.regs| == 11 && 0 <= m.at < |code|
  {
    match code[m.at]
    case Store(size, base, offset, src, _) =>
      && SameRegs(m, n, {})
      && (match env.frame(m.regs[base])
          case Elsewhere => SameStackOutside(m, n, 0, 0)
          case At(k) => StackWritten(m, n, k + offset, size, m.regs[src]))
    case Bitwise(narrow, op, dst, operand) =>
      && SameRegs(m, n, {dst}) && SameStackOutside(m, n, 0, 0)
      && n.regs[dst] == Narrowed(narrow, Apply(op, m.regs[dst], Value(m.regs, operand)))
    case Load(dst, size, base, offset) =>
      && SameRegs(m, n, {dst}) && SameStackOutside(m, n, 0, 0)
      && (match env.frame(m.regs[base])
          case Elsewhere => true
          case At(k) => forall b: nat {:trigger Byte(n.regs[dst], b)} ::
            b < size ==> Byte(n.regs[dst], b) == m.stack(k + offset + b))
    case Add(narrow, dst, amount) =>
      && SameRegs(m, n, {dst}) && SameStackOutside(m, n, 0, 0)
      && env.number(n.regs[dst])
         == (env.number(m.regs[dst]) + AmountOf(env, m, amount)) % (if narrow then TWO32 else TWO64)
      && (env.frame(m.regs[dst]).At? && !narrow && amount.Literal? ==>
            var k := env.frame(m.regs[dst]).offset + amount.value;
            InFrame(k) ==> env.frame(n.regs[dst]) == At(k))
    case Arith(dst) => SameRegs(m, n, {dst}) && SameStackOutside(m, n, 0, 0)
    case OtherWrite(dst) => SameRegs(m, n, {dst})
    case OtherStore => SameRegs(m, n, {})
    case Other => SameRegs(m, n, {})
    case Call(callee) => SameRegs(m, n, {0, 1, 2, 3, 4, 5}) && CallEffect(env, callee, m, n)
    case Branch(cond, target) =>
      && SameRegs(m, n, {}) && SameStackOutside(m, n, 0, 0)
      && (n.at == target || n.at == m.at + 1)
      && (target != m.at + 1 ==> Decides(cond, m.regs, n.at == target))
    case Exit => false
  }

  ghost predicate Execution(code: Code, env: Env, run: seq<Machine>) {
    && |run| > 0 && run[0].at == 0 && |run[0].regs| == 11
    && forall i :: 0 <= i < |run| - 1 ==> Step(code, env, run[i], run[i + 1])
  }

  // ----- reachability -----

  ghost predicate IsPath(code: Code, path: seq<int>) {
    && |path| > 0
    && forall i :: 0 <= i < |path| - 1 ==> 0 <= path[i] < |code| && path[i + 1] in Next(code, path[i])
  }

  ghost predicate Reaches(code: Code, from: int, to: int) {
    exists path :: IsPath(code, path) && path[0] == from && path[|path| - 1] == to
  }

  ghost predicate Found(code: Code, start: int, p: int) {
    0 <= p < |code| && Reaches(code, start, p)
  }

  ghost predicate ClosedUnderNext(code: Code, live: set<int>, pending: seq<int>) {
    forall p, q :: p in live && 0 <= p < |code| && q in Next(code, p) ==> q in live || q in pending
  }

  /** The positions reachable from `start`, as computed by the decoder's work list. */
  method Reachable(code: Code, start: int) returns (live: set<int>)
    requires Resolved(code) && 0 <= start < |code|
    ensures forall p :: p in live <==> Reaches(code, start, p)
  {
    live := {};
    var pending := [start];
    assert IsPath(code, [start]) && Found(code, start, start);
    assert ClosedUnderNext(code, live, pending);
    hide IsPath, Reaches, Next, ClosedUnderNext;
    while pending != []
      invariant forall p :: p in pending ==> Found(code, start, p)
      invariant forall p :: p in live ==> Found(code, start, p)
      invariant start in live || start in pending
      invariant ClosedUnderNext(code, live, pending)
      decreases Below(|code|) - live, |pending|
    {
      var pc := pending[|pending| - 1];
      ghost var before := pending;
      pending := pending[..|pending| - 1];
      assert before == pending + [pc];
      assert pc in before && Found(code, start, pc);
      PopKeepsClosed(code, live, pending, pc);
      if pc !in live {
        assert pc in Below(|code|);
        live := live + {pc};
        NextReached(code, start, pc);
        pending := pending + Next(code, pc);
      }
    }
    ReachedStaysIn(code, start, live);
  }

  lemma PopKeepsClosed(code: Code, live: set<int>, pending: seq<int>, pc: int)
    requires 0 <= pc < |code| && ClosedUnderNext(code, live, pending + [pc])
    ensures if pc in live then ClosedUnderNext(code, live, pending)
            else ClosedUnderNext(code, live + {pc}, pending + Next(code, pc))
  {
    hide Next;
    var next := Next(code, pc);
    assert forall q :: q in pending + [pc] ==> q in pending || q == pc;
    assert forall q :: q in pending || q in next ==> q in pending + next;
  }

  lemma ReachedStaysIn(code: Code, start: int, live: set<int>)
    requires start in live && ClosedUnderNext(code, live, [])
    ensures forall p :: Reaches(code, start, p) ==> p in live
  {
    forall p | Reaches(code, start, p) ensures p in live {
      var path :| IsPath(code, path) && path[0] == start && path[|path| - 1] == p;
      PathStaysIn(code, path, live);
    }
  }

  /** The numbers below `n`. */
  function Below(n: nat): (s: set<int>)
    ensures forall i :: i in s <==> 0 <= i < n
  {
    if n == 0 then {} else Below(n - 1) + {n - 1}
  }

  lemma NextReached(code: Code, start: int, pc: int)
    requires Resolved(code) && Found(code, start, pc)
    ensures forall q :: q in Next(code, pc) ==> Found(code, start, q)
  {
    var path :| IsPath(code, path) && path[0] == start && path[|path| - 1] == pc;
    forall q | q in Next(code, pc) ensures 0 <= q < |code| && Reaches(code, start, q) {
      var longer := path + [q];
      forall i | 0 <= i < |longer| - 1 ensures 0 <= longer[i] < |code| && longer[i + 1] in Next(code, longer[i]) {
        if i < |path| - 1 { assert path[i + 1] in Next(code, path[i]); }
      }
      assert IsPath(code, longer) && longer[0] == start && longer[|longer| - 1] == q;
    }
  }

  lemma {:induction false} PathStaysIn(code: Code, path: seq<int>, live: set<int>)
    requires IsPath(code, path) && path[0] in live && ClosedUnderNext(code, live, [])
    ensures path[|path| - 1] in live
  {
    if |path| > 1 {
      var front := path[..|path| - 1];
      PathStaysIn(code, front, live);
      assert front[|front| - 1] == path[|path| - 2];
    }
  }

  ghost predicate IsLive(code: Code, live: set<int>) {
    forall p :: p in live <==> Reaches(code, 0, p)
  }

  /** Live positions with an edge to `at`. */
  function Entries(code: Code, live: set<int>, at: int): set<int> {
    set pc | pc in live && 0 <= pc < |code| && at in Next(code, pc)
  }

  lemma RunReaches(code: Code, env: Env, run: seq<Machine>, i: nat, j: nat)
    requires Execution(code, env, run) && i <= j < |run|
    ensures Reaches(code, run[i].at, run[j].at)
  {
    hide Effect, Next;
    var path := seq(j - i + 1, k requires 0 <= k <= j - i => run[i + k].at);
    forall k | 0 <= k < j - i ensures 0 <= path[k] < |code| && path[k + 1] in Next(code, path[k]) {
      assert Step(code, env, run[i + k], run[i + k + 1]);
    }
    assert IsPath(code, path) && path[0] == run[i].at && path[|path| - 1] == run[j].at;
  }

  /** A position with a single live entry has been reached from there. */
  lemma CameFrom(code: Code, env: Env, live: set<int>, run: seq<Machine>, k: nat, from: int)
    requires Execution(code, env, run) && k < |run| && run[k].at != 0
    requires IsLive(code, live)
    requires Entries(code, live, run[k].at) == {from}
    ensures k > 0 && run[k - 1].at == from && Step(code, env, run[k - 1], run[k])
  {
    hide Effect, Next;
    assert Step(code, env, run[k - 1], run[k]);
    RunReaches(code, env, run, 0, k - 1);
    assert run[k - 1].at in Entries(code, live, run[k].at);
  }

  /** An instruction that is neither a branch nor an exit goes on to the next one. */
  lemma GoesOn(code: Code, env: Env, m: Machine, n: Machine)
    requires Step(code, env, m, n) && !code[m.at].Branch?
    ensures n.at == m.at + 1
  {}

  lemma BranchGoes(code: Code, env: Env, m: Machine, n: Machine)
    requires Step(code, env, m, n) && code[m.at].Branch? && code[m.at].target != m.at + 1
    ensures n.at == m.at + 1 || n.at == code[m.at].target
    ensures n.regs == m.regs && SameStackOutside(m, n, 0, 0)
    ensures Decides(code[m.at].cond, m.regs, n.at == code[m.at].target)
  {
    assert Effect(code, env, m, n);
  }

  lemma StoreEffect(code: Code, env: Env, m: Machine, n: Machine)
    requires Step(code, env, m, n) && code[m.at].Store?
    ensures var i := code[m.at];
            && n.regs == m.regs
            && (env.frame(m.regs[i.base]).At? ==>
                  StackWritten(m, n, env.frame(m.regs[i.base]).offset + i.offset, i.size, m.regs[i.src]))
            && (env.frame(m.regs[i.base]).Elsewhere? ==> SameStackOutside(m, n, 0, 0))
  {
    hide Byte;
    assert Effect(code, env, m, n);
  }

  lemma LoadEffect(code: Code, env: Env, m: Machine, n: Machine)
    requires Step(code, env, m, n) && code[m.at].Load?
    ensures var i := code[m.at];
            && SameRegs(m, n, {i.dst}) && SameStackOutside(m, n, 0, 0)
            && (env.frame(m.regs[i.base]).At? ==>
                  forall b: nat {:trigger Byte(n.regs[i.dst], b)} :: b < i.size ==>
                    Byte(n.regs[i.dst], b) == m.stack(env.frame(m.regs[i.base]).offset + i.offset + b))
  {
    hide Byte;
    assert Effect(code, env, m, n);
  }

  lemma AddEffect(code: Code, env: Env, m: Machine, n: Machine)
    requires Step(code, env, m, n) && code[m.at].Add?
    ensures var i := code[m.at];
            && SameRegs(m, n, {i.dst}) && SameStackOutside(m, n, 0, 0)
            && env.number(n.regs[i.dst])
               == (env.number(m.regs[i.dst]) + AmountOf(env, m, i.amount)) % (if i.narrow then TWO32 else TWO64)
            && (env.frame(m.regs[i.dst]).At? && !i.narrow && i.amount.Literal? ==>
                  var k := env.frame(m.regs[i.dst]).offset + i.amount.value;
                  InFrame(k) ==> env.frame(n.regs[i.dst]) == At(k))
  {
    hide Byte;
    assert Effect(code, env, m, n);
  }

  lemma BytesDecide(x: bv64, y: bv64)
    requires forall b: nat :: b < 8 ==> Byte(x, b) == Byte(y, b)
    ensures x == y
  {
    assert Byte(x, 0) == Byte(y, 0) && Byte(x, 1) == Byte(y, 1) && Byte(x, 2) == Byte(y, 2) && Byte(x, 3) == Byte(y, 3);
    assert Byte(x, 4) == Byte(y, 4) && Byte(x, 5) == Byte(y, 5) && Byte(x, 6) == Byte(y, 6) && Byte(x, 7) == Byte(y, 7);
  }

  lemma BitwiseResult(code: Code, env: Env, m: Machine, n: Machine)
    requires Step(code, env, m, n) && code[m.at].Bitwise?
    ensures var i := code[m.at];
            && SameRegs(m, n, {i.dst}) && SameStackOutside(m, n, 0, 0)
            && n.regs[i.dst] == Narrowed(i.narrow, Apply(i.op, m.regs[i.dst], Value(m.regs, i.operand)))
  {
    hide Byte;
    assert Effect(code, env, m, n);
  }
}
