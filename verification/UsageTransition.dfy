/**
  The 0-to-1 usage transition (scripts/check-bpf-map-defs.py, validate_inventory_usage_transition).

  A usage program looks up one shared 64-bit cell, leaves if it is there already 1, and otherwise
  compares it with 0 and writes 1 atomically.  The validator pins the two instruction orders the
  compiler produces for this.  Here whole bodies with a pinned block are run by any number of
  threads at once.
*/
module UsageTransition {
  import opened Options
  import RawSpan

  type Insn = RawSpan.Insn

  const CALL_LOOKUP := RawSpan.Insn(0x85, 0, 0, 1)
  const ZERO_RESULT := RawSpan.Insn(0xb7, 0, 0, 0)
  const EXIT := RawSpan.Insn(0x95, 0, 0, 0)

  // ---------------------------------------------------------------- the already-one path

  predicate ForwardJump(i: Insn) {
    i.op == 0x05 && i.reg == 0 && i.offset > 0 && i.imm == 0
  }

  /** From here the program only zeroes its result and jumps forward, until it exits with the result zeroed. */
  predicate ReturnsQuietly(insns: seq<Insn>, at: int, zeroed: bool)
    decreases |insns| - at
  {
    && 0 <= at < |insns|
    && if insns[at] == EXIT && zeroed then true
       else if insns[at] == ZERO_RESULT then ReturnsQuietly(insns, at + 1, true)
       else if ForwardJump(insns[at]) then ReturnsQuietly(insns, at + insns[at].offset + 1, zeroed)
       else false
  }

  /** The cursor only grows, so remembering where it was decides nothing. */
  method FollowQuiet(insns: seq<Insn>, start: int) returns (ok: bool)
    ensures ok == ReturnsQuietly(insns, start, false)
  {
    var cursor, zeroed, visited := start, false, {};
    while 0 <= cursor < |insns| && cursor !in visited
      invariant forall v :: v in visited ==> v < cursor
      invariant ReturnsQuietly(insns, start, false) == ReturnsQuietly(insns, cursor, zeroed)
      decreases |insns| - cursor
    {
      visited := visited + {cursor};
      var i := insns[cursor];
      if i == EXIT && zeroed {
        return true;
      }
      if i == ZERO_RESULT {
        zeroed := true;
        cursor := cursor + 1;
      } else if ForwardJump(i) {
        cursor := cursor + i.offset + 1;
      } else {
        return false;
      }
    }
    return false;
  }

  // ---------------------------------------------------------------- the pinned block

  /** Where the compare-exchange is, and whether the pointer is copied before the null guard. */
  datatype Block = Block(at: int, early: bool, pointer: int, loaded: int, replacement: int)
  {
    function Pointer(): int { if early then at - 7 else at - 2 }
    function NullGuard(): int { if early then at - 6 else at - 7 }
    function Load(): int { NullGuard() + 1 }
    function Positive(): int { NullGuard() + 2 }
    function Zero(): int { NullGuard() + 3 }
    function Replacement(): int { if early then at - 2 else at - 3 }
    function Live(): int { if early then pointer else 0 }
    predicate Within(pc: int) { at - 8 <= pc <= at }
  }

  predicate IsExchange(i: Insn) {
    i.op == 0xdb && i.imm == 0xf1
  }

  /** Everything the validator demands: of the block, and of the way out for a cell that is 1 already. */
  predicate Pinned(insns: seq<Insn>, b: Block) {
    PinnedBlock(insns, b) && ReturnsQuietly(insns, b.Positive() + 1 + insns[b.Positive()].offset, false)
  }

  predicate PinnedBlock(insns: seq<Insn>, b: Block) {
    && 10 <= b.at < |insns|
    && insns[b.at - 10..b.at - 8] == [RawSpan.Insn(0x18, 1, 0, 0), RawSpan.Insn(0, 0, 0, 0)]
    && insns[b.at - 8] == CALL_LOOKUP
    && b.early == (insns[b.at - 7].op == 0xbf)
    && 1 <= b.pointer <= 9 && insns[b.Pointer()] == RawSpan.Insn(0xbf, b.pointer, 0, 0)
    && Guard(insns, b, b.NullGuard(), 0x15, b.Live(), 0)
    && 1 <= b.loaded <= 9 && b.loaded != b.Live() && insns[b.Load()] == RawSpan.Insn(0x79, 16 * b.Live() + b.loaded, 0, 0)
    && insns[b.Positive()].op == 0x15 && insns[b.Positive()].reg == b.loaded && insns[b.Positive()].imm == 1
    && Guard(insns, b, b.Zero(), 0x55, b.loaded, 0)
    && 1 <= b.replacement <= 9 && b.replacement != b.pointer
    && insns[b.Replacement()] == RawSpan.Insn(0xb7, b.replacement, 0, 1)
    && insns[b.at - 1] == ZERO_RESULT
    && insns[b.at] == RawSpan.Insn(0xdb, 16 * b.replacement + b.pointer, 0, 0xf1)
  }

  /** A guard that leaves the block forwards, past the exchange. */
  predicate Guard(insns: seq<Insn>, b: Block, pc: int, op: int, reg: int, imm: int)
    requires 0 <= pc < |insns|
  {
    insns[pc].op == op && insns[pc].reg == reg && insns[pc].imm == imm && b.at < pc + 1 + insns[pc].offset < |insns|
  }

  datatype Relocation = Relocation(kind: int, symbol: string)

  /** The map of the lookup before this exchange is the usage map. */
  predicate LooksUpUsage(relocations: map<int, Relocation>, at: int) {
    at - 10 in relocations && relocations[at - 10].kind == 1 && relocations[at - 10].symbol == "USAGE"
  }

  /** Accepts exactly the bodies with one compare-exchange, in a pinned block, on the usage map. */
  method Validate(insns: seq<Insn>, relocations: map<int, Relocation>) returns (r: Option<Block>)
    ensures r.Some? ==> Pinned(insns, r.value) && LooksUpUsage(relocations, r.value.at) && SoleExchange(insns, r.value.at)
    ensures r.None? ==> forall b: Block :: SoleExchange(insns, b.at) && Pinned(insns, b) ==> !LooksUpUsage(relocations, b.at)
  {
    hide ReturnsQuietly, IsExchange;
    var at := FindExchange(insns);
    if at < 10 || !LooksUpUsage(relocations, at) {
      return None;
    }
    var early := insns[at - 7].op == 0xbf;
    var pointer := insns[if early then at - 7 else at - 2].reg % 16;
    var loaded := insns[if early then at - 5 else at - 6].reg % 16;
    var replacement := insns[if early then at - 2 else at - 3].reg % 16;
    var b := Block(at, early, pointer, loaded, replacement);
    if !PinnedBlock(insns, b) {
      return None;
    }
    var quiet := FollowQuiet(insns, b.Positive() + 1 + insns[b.Positive()].offset);
    return if quiet then Some(b) else None;
  }

  /** The place of the only compare-exchange, or -1. */
  method FindExchange(insns: seq<Insn>) returns (at: int)
    ensures at != -1 ==> SoleExchange(insns, at)
    ensures at == -1 ==> forall k :: !SoleExchange(insns, k)
  {
    var first, count := 0, 0;
    for k := 0 to |insns|
      invariant count >= 0
      invariant count == 0 ==> forall j :: 0 <= j < k ==> !IsExchange(insns[j])
      invariant count == 1 ==> 0 <= first < k && IsExchange(insns[first]) && forall j :: 0 <= j < k && IsExchange(insns[j]) ==> j == first
      invariant count > 1 ==> exists i, j :: 0 <= i < j < k && IsExchange(insns[i]) && IsExchange(insns[j])
    {
      if IsExchange(insns[k]) {
        first, count := if count == 0 then k else first, count + 1;
      }
    }
    at := if count == 1 then first else -1;
  }

  ghost predicate SoleExchange(insns: seq<Insn>, at: int) {
    0 <= at < |insns| && IsExchange(insns[at]) && forall j :: 0 <= j < |insns| && IsExchange(insns[j]) ==> j == at
  }

  // ---------------------------------------------------------------- running it

  /** A thread: where it is, its registers, and the cell value it loaded last. */
  datatype Thread = Thread(pc: int, regs: seq<int>, seen: int)

  ghost predicate Sets(t: Thread, u: Thread, reg: int, value: int)
    requires |t.regs| == 11 && 0 <= reg < 11
  {
    u.regs == t.regs[reg := value]
  }

  /**
    One instruction of a block, with the cell at a given address: a lookup yields null or some
    entry of the map and leaves r6 to r10 alone, loads and exchanges elsewhere yield anything.
  */
  ghost predicate Runs(insns: seq<Insn>, entries: set<int>, cell: int, t: Thread, v: int, u: Thread, w: int)
    requires 0 <= t.pc < |insns| && |t.regs| == 11
  {
    var i := insns[t.pc];
    var dst, src := i.reg % 16, i.reg / 16;
    && dst < 11 && 0 <= src < 11 && |u.regs| == 11
    && (i.op != 0xdb ==> w == v) && (i.op != 0x79 ==> u.seen == t.seen)
    && (i.op != 0x15 && i.op != 0x55 && i.op != 0x05 ==> u.pc == t.pc + 1)
    && match i.op {
         case 0x85 => (u.regs[0] == 0 || u.regs[0] in entries) && forall r :: 6 <= r < 11 ==> u.regs[r] == t.regs[r]
         case 0xbf => Sets(t, u, dst, t.regs[src])
         case 0xb7 => Sets(t, u, dst, i.imm)
         case 0x15 => u.regs == t.regs && u.pc == t.pc + 1 + if t.regs[dst] == i.imm then i.offset else 0
         case 0x55 => u.regs == t.regs && u.pc == t.pc + 1 + if t.regs[dst] != i.imm then i.offset else 0
         case 0x05 => u.regs == t.regs && u.pc == t.pc + 1 + i.offset
         case 0x79 =>
           if t.regs[src] + i.offset == cell then Sets(t, u, dst, v) && u.seen == v
           else Sets(t, u, dst, u.regs[dst]) && u.seen == t.seen
         case 0xdb =>
           if t.regs[dst] + i.offset == cell then Sets(t, u, 0, v) && w == if v == t.regs[0] then t.regs[src] else v
           else Sets(t, u, 0, u.regs[0]) && w == v
         case _ => false
       }
  }

  /** The register that holds what the lookup gave, at a place behind it. */
  function Holder(b: Block, pc: int): int {
    if pc <= (if b.early then b.at - 7 else b.at - 2) then 0 else b.pointer
  }

  /** What the registers hold at each place of the block, for a thread that came in at its top. */
  ghost predicate Holds(b: Block, entries: set<int>, cell: int, t: Thread) {
    && |t.regs| == 11 && 1 <= b.pointer <= 9 && 1 <= b.loaded <= 9 && Armed(b, t)
    && var held := t.regs[Holder(b, t.pc)];
       && (b.at - 8 < t.pc <= b.NullGuard() ==> held == 0 || held in entries)
       && (b.NullGuard() < t.pc <= b.at ==> held in entries)
       && (b.Load() < t.pc <= b.Zero() && held == cell ==> t.regs[b.loaded] == t.seen)
       && (b.Zero() < t.pc <= b.at && held == cell ==> t.seen == 0)
  }

  /** The replacement is 1 once it has been set, and what the exchange expects is 0. */
  ghost predicate Armed(b: Block, t: Thread) {
    && |t.regs| == 11 && 1 <= b.replacement <= 9
    && (b.Replacement() < t.pc <= b.at ==> t.regs[b.replacement] == 1)
    && (t.pc == b.at ==> t.regs[0] == 0)
  }

  /** The way out for a cell that is 1 does not lead back into the block. */
  lemma {:induction false} QuietIsOutside(insns: seq<Insn>, b: Block, pc: int, zeroed: bool)
    requires PinnedBlock(insns, b) && ReturnsQuietly(insns, pc, zeroed)
    ensures !b.Within(pc)
  {}

  /** A block whose positive guard leaves it too, as it does if the way out is quiet. */
  predicate Closed(insns: seq<Insn>, b: Block) {
    PinnedBlock(insns, b) && !b.Within(b.Positive() + 1 + insns[b.Positive()].offset)
  }

  lemma PinnedIsClosed(insns: seq<Insn>, b: Block)
    requires Pinned(insns, b)
    ensures Closed(insns, b)
  {
    QuietIsOutside(insns, b, b.Positive() + 1 + insns[b.Positive()].offset, false);
  }

  predicate Decodes(i: Insn, op: int, dst: int, src: int, imm: int) {
    i.op == op && i.reg % 16 == dst && i.reg / 16 == src && i.imm == imm
  }

  /** The instruction at each place of the block. */
  ghost predicate CodeAt(insns: seq<Insn>, b: Block, pc: int)
    requires 0 <= pc < |insns|
  {
    var i := insns[pc];
    var target := pc + 1 + i.offset;
    && (pc == b.at - 8 ==> Decodes(i, 0x85, 0, 0, 1))
    && (pc == b.Pointer() ==> Decodes(i, 0xbf, b.pointer, 0, 0) && i.offset == 0)
    && (pc == b.NullGuard() ==> Decodes(i, 0x15, b.Live(), 0, 0) && target > b.at)
    && (pc == b.Load() ==> Decodes(i, 0x79, b.loaded, b.Live(), 0) && i.offset == 0)
    && (pc == b.Positive() ==> Decodes(i, 0x15, b.loaded, 0, 1) && !b.Within(target))
    && (pc == b.Zero() ==> Decodes(i, 0x55, b.loaded, 0, 0) && target > b.at)
    && (pc == b.Replacement() ==> Decodes(i, 0xb7, b.replacement, 0, 1) && i.reg == b.replacement && i.offset == 0)
    && (pc == b.at - 1 ==> Decodes(i, 0xb7, 0, 0, 0) && i.reg == 0 && i.offset == 0)
    && (pc == b.at ==> Decodes(i, 0xdb, b.pointer, b.replacement, 0xf1) && i.offset == 0)
  }

  lemma BlockCode(insns: seq<Insn>, b: Block, pc: int)
    requires Closed(insns, b) && b.Within(pc)
    ensures 10 <= b.at < |insns| && 1 <= b.pointer <= 9 && 1 <= b.loaded <= 9 && 1 <= b.replacement <= 9
    ensures b.loaded != b.Live() && b.replacement != b.pointer && 0 <= pc < |insns| && CodeAt(insns, b, pc)
  {}

  /** A step inside the block keeps the registers in order, and changes the cell only from 0 to 1. */
  lemma BlockStep(insns: seq<Insn>, b: Block, entries: set<int>, cell: int, t: Thread, v: int, u: Thread, w: int)
    requires Pinned(insns, b) && 0 !in entries && b.Within(t.pc)
    requires Holds(b, entries, cell, t) && Runs(insns, entries, cell, t, v, u, w)
    ensures b.Within(u.pc) ==> Holds(b, entries, cell, u) && u.pc == t.pc + 1
    ensures w != v ==> t.pc == b.at && t.regs[b.pointer] == cell && t.seen == 0 && v == 0 && w == 1
    ensures t.pc == b.at && t.regs[b.pointer] == cell ==> w == if v == 0 then 1 else v
  {
    PinnedIsClosed(insns, b);
    ArmedStep(insns, b, entries, cell, t, v, u, w);
    hide ReturnsQuietly, Armed;
    if t.pc == b.at {
    } else if b.early {
      EarlyStep(insns, b, entries, cell, t, v, u, w);
    } else {
      LateStep(insns, b, entries, cell, t, v, u, w);
    }
  }

  lemma EarlyStep(insns: seq<Insn>, b: Block, entries: set<int>, cell: int, t: Thread, v: int, u: Thread, w: int)
    requires Closed(insns, b) && b.early && 0 !in entries && b.at - 8 <= t.pc < b.at
    requires Holds(b, entries, cell, t) && Runs(insns, entries, cell, t, v, u, w) && (b.Within(u.pc) ==> Armed(b, u))
    ensures w == v && (b.Within(u.pc) ==> Holds(b, entries, cell, u) && u.pc == t.pc + 1)
  {
    BlockCode(insns, b, t.pc);
    hide Closed;
  }

  lemma LateStep(insns: seq<Insn>, b: Block, entries: set<int>, cell: int, t: Thread, v: int, u: Thread, w: int)
    requires Closed(insns, b) && !b.early && 0 !in entries && b.at - 8 <= t.pc < b.at
    requires Holds(b, entries, cell, t) && Runs(insns, entries, cell, t, v, u, w) && (b.Within(u.pc) ==> Armed(b, u))
    ensures w == v && (b.Within(u.pc) ==> Holds(b, entries, cell, u) && u.pc == t.pc + 1)
  {
    BlockCode(insns, b, t.pc);
    hide Closed;
  }

  /**
    However a thread came in, if it is armed it stays so and changes the cell only from 0 to 1;
    it moves along the decoded edges.
  */
  lemma ArmedStep(insns: seq<Insn>, b: Block, entries: set<int>, cell: int, t: Thread, v: int, u: Thread, w: int)
    requires Closed(insns, b) && b.Within(t.pc) && Armed(b, t) && Runs(insns, entries, cell, t, v, u, w)
    ensures Armed(b, u) && u.pc in RawSpan.Successors(insns, t.pc)
    ensures w != v ==> t.pc == b.at && v == 0 && w == 1
  {
    BlockCode(insns, b, t.pc);
    hide Closed;
  }

  // ---------------------------------------------------------------- any number of threads

  datatype Program = Program(insns: seq<Insn>, block: Block)

  /** One cell, threads with a program each, and how often an exchange changed the cell. */
  datatype System = System(value: int, threads: seq<Thread>, wins: nat)

  /**
    One instruction of a whole body.  Outside its block a program moves along the decoded edges
    and does what it likes with its registers.
  */
  ghost predicate Acts(p: Program, entries: set<int>, cell: int, t: Thread, v: int, u: Thread, w: int) {
    && 0 <= t.pc < |p.insns| && |t.regs| == 11 && |u.regs| == 11
    && if p.block.Within(t.pc) then Runs(p.insns, entries, cell, t, v, u, w)
       else u.pc in RawSpan.Successors(p.insns, t.pc) && w == v
  }

  ghost predicate Step(programs: seq<Program>, entries: set<int>, cell: int, s: System, n: System, k: nat)
    requires k < |programs| == |s.threads|
  {
    && |n.threads| == |s.threads| && n.threads == s.threads[k := n.threads[k]]
    && n.wins == s.wins + (if n.value != s.value then 1 else 0)
    && Acts(programs[k], entries, cell, s.threads[k], s.value, n.threads[k], n.value)
  }

  /** From a cell that is 0 and threads at the start of their bodies, one thread moving at a time. */
  ghost predicate Run(programs: seq<Program>, entries: set<int>, cell: int, run: seq<System>) {
    && cell in entries && 0 !in entries
    && run != [] && run[0].value == 0 && run[0].wins == 0
    && (forall i :: 0 <= i < |run| ==> |run[i].threads| == |programs|)
    && (forall k :: 0 <= k < |programs| ==> run[0].threads[k].pc == 0 && |run[0].threads[k].regs| == 11)
    && forall i :: 0 <= i < |run| - 1 ==> Moves(programs, entries, cell, run[i], run[i + 1])
  }

  ghost predicate Moves(programs: seq<Program>, entries: set<int>, cell: int, s: System, n: System)
    requires |s.threads| == |programs|
  {
    exists k: nat :: k < |programs| && Step(programs, entries, cell, s, n, k)
  }

  ghost predicate AllPinned(programs: seq<Program>) {
    forall k :: 0 <= k < |programs| ==> Pinned(programs[k].insns, programs[k].block)
  }

  /** The cell is 0 or 1, never goes back, and an exchange changed it at most once, to 1. */
  ghost predicate ChangedOnce(run: seq<System>) {
    forall j, k :: 0 <= j <= k < |run| ==> 0 <= run[j].value <= run[k].value <= 1 && run[k].wins == run[k].value
  }

  // ---------------------------------------------------------------- where a block may be entered

  ghost predicate IsPath(insns: seq<Insn>, path: seq<int>) {
    && path != [] && path[0] == 0
    && forall i :: 0 <= i < |path| - 1 ==> 0 <= path[i] < |insns| && path[i + 1] in RawSpan.Successors(insns, path[i])
  }

  ghost predicate Reached(insns: seq<Insn>, pc: int) {
    exists path :: IsPath(insns, path) && path[|path| - 1] == pc
  }

  /** Some reachable instruction outside the block leads behind the place where the replacement is set. */
  ghost predicate EnteredLate(p: Program) {
    exists q, e :: Reached(p.insns, q) && LateEdge(p, q, e)
  }

  predicate LateEdge(p: Program, q: int, e: int) {
    && 0 <= q < |p.insns| && !p.block.Within(q) && e in RawSpan.Successors(p.insns, q)
    && p.block.Replacement() < e <= p.block.at
  }

  lemma ReachedOn(insns: seq<Insn>, pc: int, next: int)
    requires Reached(insns, pc) && 0 <= pc < |insns| && next in RawSpan.Successors(insns, pc)
    ensures Reached(insns, next)
  {
    hide RawSpan.Successors;
    var path :| IsPath(insns, path) && path[|path| - 1] == pc;
    var longer := path + [next];
    assert forall i :: 0 <= i < |path| ==> longer[i] == path[i];
    assert IsPath(insns, longer) && longer[|longer| - 1] == next;
  }

  /** Where a thread may be, and what it then holds. */
  ghost predicate Sound(p: Program, t: Thread) {
    |t.regs| == 11 && Reached(p.insns, t.pc) && Armed(p.block, t)
  }

  ghost predicate Good(programs: seq<Program>, s: System) {
    && |s.threads| == |programs| && 0 <= s.value <= 1 && s.wins == s.value
    && forall k :: 0 <= k < |programs| ==> Sound(programs[k], s.threads[k])
  }

  lemma ActKeepsSound(p: Program, entries: set<int>, cell: int, t: Thread, v: int, u: Thread, w: int)
    requires Pinned(p.insns, p.block) && !EnteredLate(p) && Sound(p, t) && Acts(p, entries, cell, t, v, u, w)
    ensures Sound(p, u) && (w != v ==> v == 0 && w == 1)
  {
    hide Pinned, Closed, Runs, RawSpan.Successors, Reached, Armed;
    PinnedIsClosed(p.insns, p.block);
    if p.block.Within(t.pc) {
      ArmedStep(p.insns, p.block, entries, cell, t, v, u, w);
    } else {
      assert !LateEdge(p, t.pc, u.pc);
      ArmedOutside(p, u);
    }
    ReachedOn(p.insns, t.pc, u.pc);
  }

  lemma ArmedOutside(p: Program, u: Thread)
    requires Closed(p.insns, p.block) && |u.regs| == 11 && !(p.block.Replacement() < u.pc <= p.block.at)
    ensures Armed(p.block, u)
  {}

  lemma StepKeepsGood(programs: seq<Program>, entries: set<int>, cell: int, s: System, n: System)
    requires AllPinned(programs) && (forall k :: 0 <= k < |programs| ==> !EnteredLate(programs[k]))
    requires Good(programs, s) && Moves(programs, entries, cell, s, n)
    ensures Good(programs, n) && s.value <= n.value
  {
    hide Pinned, Acts, Sound, EnteredLate;
    var k: nat :| k < |programs| && Step(programs, entries, cell, s, n, k);
    ActKeepsSound(programs[k], entries, cell, s.threads[k], s.value, n.threads[k], n.value);
  }

  lemma StartIsGood(programs: seq<Program>, entries: set<int>, cell: int, run: seq<System>)
    requires AllPinned(programs) && Run(programs, entries, cell, run)
    ensures run != [] && Good(programs, run[0])
  {
    hide Moves, ReturnsQuietly, RawSpan.Successors;
    forall k | 0 <= k < |programs| ensures Sound(programs[k], run[0].threads[k]) {
      assert IsPath(programs[k].insns, [0]);
    }
  }

  lemma {:induction false} GoodAlong(programs: seq<Program>, entries: set<int>, cell: int, run: seq<System>, j: nat, k: nat)
    requires AllPinned(programs) && (forall i :: 0 <= i < |programs| ==> !EnteredLate(programs[i]))
    requires Run(programs, entries, cell, run) && j <= k < |run|
    ensures Good(programs, run[k]) && run[j].value <= run[k].value
    decreases k
  {
    hide AllPinned, Good, Moves, EnteredLate, Run;
    if k == 0 {
      StartIsGood(programs, entries, cell, run);
    } else {
      GoodAlong(programs, entries, cell, run, if j < k then j else k - 1, k - 1);
      MovesAt(programs, entries, cell, run, k - 1);
      StepKeepsGood(programs, entries, cell, run[k - 1], run[k]);
    }
  }

  lemma MovesAt(programs: seq<Program>, entries: set<int>, cell: int, run: seq<System>, i: nat)
    requires Run(programs, entries, cell, run) && i < |run| - 1
    ensures |run[i].threads| == |run[i + 1].threads| == |programs| && Moves(programs, entries, cell, run[i], run[i + 1])
  {
    hide Moves;
  }

  /**
    In every interleaving of any number of pinned programs over one cell that starts at 0, the
    blocks change the cell at most once, and from 0 to 1.
  */
  lemma OneTransition(programs: seq<Program>, entries: set<int>, cell: int, run: seq<System>)
    requires AllPinned(programs) && (forall i :: 0 <= i < |programs| ==> !EnteredLate(programs[i]))
    requires Run(programs, entries, cell, run)
    ensures ChangedOnce(run)
  {
    forall j, k | 0 <= j <= k < |run| ensures 0 <= run[j].value <= run[k].value <= 1 && run[k].wins == run[k].value {
      GoodAlong(programs, entries, cell, run, j, k);
      GoodAlong(programs, entries, cell, run, j, j);
    }
  }

  // ---------------------------------------------------------------- the condition is exact

  // In the runs built here the cell is at address 1 and the map has another entry at address 2.
  const CELL := 1
  const OTHER := 2
  const ENTRIES := {CELL, OTHER}
  const ZEROS := [0, 0, 0, 0, 0, 0, 0, 0, 0, 0, 0]

  /** The path leaves the straight line behind its i-th place. */
  predicate Leaves(path: seq<int>, i: int) {
    0 <= i < |path| - 1 && path[i + 1] != path[i] + 1
  }

  /** What the lookup has to give for the path to go on as it does. */
  function Given(b: Block, path: seq<int>, i: int): int
    requires 0 <= i < |path|
  {
    if path[i] <= b.NullGuard() && Leaves(path, i + b.NullGuard() - path[i]) then 0 else OTHER
  }

  /** What has to be loaded, at one of the two guards of the loaded value. */
  function Wanted(b: Block, path: seq<int>, i: int): int
    requires 0 <= i < |path|
  {
    if path[i] == b.Positive() && Leaves(path, i) then 1
    else if Leaves(path, i + b.Zero() - path[i]) then 3
    else 0
  }

  /** The registers let a thread follow the path from its i-th place on. */
  ghost predicate Fits(b: Block, path: seq<int>, i: int, t: Thread) {
    && 0 <= i < |path| && t.pc == path[i] && |t.regs| == 11 && 1 <= b.pointer <= 9 && 1 <= b.loaded <= 9
    && (b.at - 8 < t.pc <= b.at ==> t.regs[Holder(b, t.pc)] == Given(b, path, i))
    && (t.pc == b.Positive() || t.pc == b.Zero() ==> t.regs[b.loaded] == Wanted(b, path, i))
  }

  /** Along a path of decoded edges a thread can move on and leave the cell alone. */
  lemma FitStep(p: Program, path: seq<int>, i: nat, t: Thread) returns (u: Thread)
    requires Closed(p.insns, p.block) && i < |path| - 1 && Fits(p.block, path, i, t)
    requires 0 <= path[i] < |p.insns| && path[i + 1] in RawSpan.Successors(p.insns, path[i])
    ensures Acts(p, ENTRIES, CELL, t, 0, u, 0) && Fits(p.block, path, i + 1, u)
  {
    var b := p.block;
    if b.Within(t.pc) {
      u := FitInside(p, path, i, t);
    } else {
      var next := path[i + 1];
      var regs := ZEROS[Holder(b, next) := Given(b, path, i + 1)];
      u := Thread(next, if next == b.Positive() || next == b.Zero() then regs[b.loaded := Wanted(b, path, i + 1)] else regs, 0);
    }
  }

  /** The registers behind an instruction of the block, chosen so that they fit the path. */
  function Fitted(b: Block, insn: Insn, path: seq<int>, i: nat, regs: seq<int>): seq<int>
    requires i < |path| && |regs| == 11 && 1 <= b.pointer <= 9 && 1 <= b.loaded <= 9
    requires insn.op == 0xb7 ==> 0 <= insn.reg < 11
  {
    match insn.op
    case 0x85 => regs[0 := Given(b, path, i)]
    case 0xbf => regs[b.pointer := regs[0]]
    case 0x79 => regs[b.loaded := Wanted(b, path, i)]
    case 0xb7 => regs[insn.reg := insn.imm]
    case 0xdb => regs[0 := 0]
    case _ => regs
  }

  lemma FitInside(p: Program, path: seq<int>, i: nat, t: Thread) returns (u: Thread)
    requires Closed(p.insns, p.block) && i < |path| - 1 && Fits(p.block, path, i, t) && p.block.Within(t.pc)
    requires path[i + 1] in RawSpan.Successors(p.insns, path[i])
    ensures Acts(p, ENTRIES, CELL, t, 0, u, 0) && Fits(p.block, path, i + 1, u)
  {
    u := Thread(path[i + 1], Fitted(p.block, p.insns[t.pc], path, i + 1, t.regs), t.seen);
    FitRuns(p, path, i, t, u);
    FitStays(p, path, i, t, u);
  }

  lemma FitRuns(p: Program, path: seq<int>, i: nat, t: Thread, u: Thread)
    requires Closed(p.insns, p.block) && i < |path| - 1 && Fits(p.block, path, i, t) && p.block.Within(t.pc)
    requires path[i + 1] in RawSpan.Successors(p.insns, path[i])
    requires u == Thread(path[i + 1], Fitted(p.block, p.insns[t.pc], path, i + 1, t.regs), t.seen)
    ensures Runs(p.insns, ENTRIES, CELL, t, 0, u, 0)
  {
    BlockCode(p.insns, p.block, t.pc);
    hide Closed;
  }

  lemma FitStays(p: Program, path: seq<int>, i: nat, t: Thread, u: Thread)
    requires Closed(p.insns, p.block) && i < |path| - 1 && Fits(p.block, path, i, t) && p.block.Within(t.pc)
    requires path[i + 1] in RawSpan.Successors(p.insns, path[i])
    requires u == Thread(path[i + 1], Fitted(p.block, p.insns[t.pc], path, i + 1, t.regs), t.seen)
    ensures Fits(p.block, path, i + 1, u)
  {
    BlockCode(p.insns, p.block, t.pc);
    hide Closed;
  }

  /** A thread that goes from its start along a path, with the cell left at 0. */
  ghost predicate Trip(p: Program, trip: seq<Thread>) {
    && trip != [] && trip[0].pc == 0 && |trip[0].regs| == 11
    && forall i :: 0 <= i < |trip| - 1 ==> Acts(p, ENTRIES, CELL, trip[i], 0, trip[i + 1], 0)
  }

  lemma TripOn(p: Program, trip: seq<Thread>, u: Thread)
    requires Trip(p, trip) && Acts(p, ENTRIES, CELL, trip[|trip| - 1], 0, u, 0)
    ensures Trip(p, trip + [u])
  {
    hide Acts;
  }

  lemma {:induction false} Travel(p: Program, path: seq<int>, n: nat) returns (trip: seq<Thread>)
    requires Closed(p.insns, p.block) && IsPath(p.insns, path) && n < |path|
    ensures Trip(p, trip) && Fits(p.block, path, n, trip[|trip| - 1])
    decreases n
  {
    if n == 0 {
      trip := [Thread(0, ZEROS, 0)];
    } else {
      hide Acts, Fits, Closed, RawSpan.Successors;
      trip := Travel(p, path, n - 1);
      FitsMeans(p.block, path, n - 1, trip[|trip| - 1]);
      var u := FitStep(p, path, n - 1, trip[|trip| - 1]);
      TripOn(p, trip, u);
      trip := trip + [u];
    }
  }

  lemma FitsMeans(b: Block, path: seq<int>, i: nat, t: Thread)
    requires Fits(b, path, i, t)
    ensures i < |path| && t.pc == path[i] && |t.regs| == 11
  {}

  /** Behind the replacement, with the right registers, a thread gets to the exchange. */
  ghost predicate Loaded(b: Block, t: Thread) {
    && b.Replacement() < t.pc <= b.at && |t.regs| == 11 && 1 <= b.pointer <= 9 && 1 <= b.replacement <= 9
    && t.regs[Holder(b, t.pc)] == CELL && t.regs[b.replacement] == 3 && (t.pc == b.at ==> t.regs[0] == 0)
  }

  lemma {:induction false} ToExchange(p: Program, trip: seq<Thread>) returns (longer: seq<Thread>)
    requires Closed(p.insns, p.block) && Trip(p, trip) && Loaded(p.block, trip[|trip| - 1])
    ensures Trip(p, longer) && Loaded(p.block, longer[|longer| - 1]) && longer[|longer| - 1].pc == p.block.at
    decreases p.block.at - trip[|trip| - 1].pc
  {
    var t := trip[|trip| - 1];
    if t.pc == p.block.at {
      longer := trip;
    } else {
      var regs := if t.pc == p.block.at - 1 then t.regs[0 := 0] else t.regs[p.block.pointer := t.regs[0]];
      var u := Thread(t.pc + 1, regs, t.seen);
      assert Acts(p, ENTRIES, CELL, t, 0, u, 0);
      TripOn(p, trip, u);
      longer := ToExchange(p, trip + [u]);
    }
  }

  /** A program that is entered late brings a thread to the exchange with 3 as the replacement. */
  lemma LateTrip(p: Program) returns (trip: seq<Thread>)
    requires Closed(p.insns, p.block) && EnteredLate(p)
    ensures Trip(p, trip) && trip != [] && Loaded(p.block, trip[|trip| - 1]) && trip[|trip| - 1].pc == p.block.at
  {
    var q, e :| Reached(p.insns, q) && LateEdge(p, q, e);
    var path :| IsPath(p.insns, path) && path[|path| - 1] == q;
    hide Acts, Fits, Closed, Loaded, IsPath, LateEdge;
    trip := Travel(p, path, |path| - 1);
    FitsMeans(p.block, path, |path| - 1, trip[|trip| - 1]);
    var u := JumpsIn(p, trip[|trip| - 1], e);
    TripOn(p, trip, u);
    trip := ToExchange(p, trip + [u]);
  }

  /** Across a late edge a thread may come in with the cell's address and 3 in its registers. */
  lemma JumpsIn(p: Program, t: Thread, e: int) returns (u: Thread)
    requires Closed(p.insns, p.block) && LateEdge(p, t.pc, e) && |t.regs| == 11
    ensures Acts(p, ENTRIES, CELL, t, 0, u, 0) && Loaded(p.block, u)
  {
    u := Thread(e, ZEROS[Holder(p.block, e) := CELL][p.block.replacement := 3], 0);
  }

  /** The systems in which one thread makes a trip and the others wait. */
  ghost function Alone(programs: seq<Program>, k: nat, t: Thread, value: int): System
    requires k < |programs|
  {
    System(value, seq(|programs|, i => Thread(0, ZEROS, 0))[k := t], if value == 0 then 0 else 1)
  }

  /** Alone, the thread makes its trip and then one more step that writes 3. */
  lemma AloneRun(programs: seq<Program>, k: nat, trip: seq<Thread>, final: Thread) returns (run: seq<System>)
    requires k < |programs| && Trip(programs[k], trip)
    requires Acts(programs[k], ENTRIES, CELL, trip[|trip| - 1], 0, final, 3)
    ensures Run(programs, ENTRIES, CELL, run) && run[|run| - 1].value == 3
  {
    hide Acts;
    var n := |trip|;
    run := seq(n, i requires 0 <= i < n => Alone(programs, k, trip[i], 0)) + [Alone(programs, k, final, 3)];
    forall i | 0 <= i < |run| - 1 ensures Moves(programs, ENTRIES, CELL, run[i], run[i + 1]) {
      assert run[i] == Alone(programs, k, trip[i], 0);
      assert run[i + 1] == if i + 1 < n then Alone(programs, k, trip[i + 1], 0) else Alone(programs, k, final, 3);
      assert Step(programs, ENTRIES, CELL, run[i], run[i + 1], k);
    }
  }

  lemma Exchanges(p: Program, t: Thread) returns (u: Thread)
    requires Closed(p.insns, p.block) && Loaded(p.block, t) && t.pc == p.block.at
    ensures Acts(p, ENTRIES, CELL, t, 0, u, 3)
  {
    u := Thread(t.pc + 1, t.regs[0 := 0], t.seen);
  }

  /** If one program is entered late, some run writes another value into the cell. */
  lemma LateRun(programs: seq<Program>, k: nat) returns (run: seq<System>)
    requires AllPinned(programs) && k < |programs| && EnteredLate(programs[k])
    ensures Run(programs, ENTRIES, CELL, run) && run != [] && run[|run| - 1].value == 3
  {
    var p := programs[k];
    PinnedIsClosed(p.insns, p.block);
    hide Acts, Closed, Pinned, EnteredLate, Loaded, Trip;
    var trip := LateTrip(p);
    var final := Exchanges(p, trip[|trip| - 1]);
    run := AloneRun(programs, k, trip, final);
  }

  /**
    The blocks of these programs change a cell that starts at 0 at most once, and from 0 to 1,
    in every interleaving and for every map, if and only if no program is entered late.

    The condition is exact for what a run leaves open: outside its block a program may put
    anything into its registers at any instruction, and the map may have a second entry, so
    that a thread can come through its block without the cell.  For one particular body, and a
    map with the cell alone, a late edge need not be followed by a harmful run; LateBody is a
    body for which it is.
  */
  lemma OneTransitionIff(programs: seq<Program>)
    requires AllPinned(programs)
    ensures (forall entries, cell, run :: Run(programs, entries, cell, run) ==> ChangedOnce(run))
       <==> (forall k :: 0 <= k < |programs| ==> !EnteredLate(programs[k]))
  {
    hide AllPinned, EnteredLate, Run;
    if k :| 0 <= k < |programs| && EnteredLate(programs[k]) {
      var run := LateRun(programs, k);
      assert !ChangedOnce(run) by { assert run[|run| - 1].value > 1; }
    } else {
      forall entries, cell, run | Run(programs, entries, cell, run) ensures ChangedOnce(run) {
        OneTransition(programs, entries, cell, run);
      }
    }
  }

  /** An accepted body that is entered late, at the exchange itself, by its first instruction. */
  const LATE_BODY: seq<Insn> := [
    RawSpan.Insn(0x15, 1, 10, 0), RawSpan.Insn(0x18, 1, 0, 0), RawSpan.Insn(0, 0, 0, 0), CALL_LOOKUP,
    RawSpan.Insn(0x15, 0, 7, 0), RawSpan.Insn(0x79, 3, 0, 0), RawSpan.Insn(0x15, 3, 5, 1), RawSpan.Insn(0x55, 3, 4, 0),
    RawSpan.Insn(0xb7, 2, 0, 1), RawSpan.Insn(0xbf, 4, 0, 0), ZERO_RESULT, RawSpan.Insn(0xdb, 36, 0, 0xf1),
    ZERO_RESULT, EXIT]

  const LATE_BLOCK := Block(11, false, 4, 3, 2)

  lemma LateBodyPinned()
    ensures Pinned(LATE_BODY, LATE_BLOCK) && SoleExchange(LATE_BODY, 11)
  {
    assert ReturnsQuietly(LATE_BODY, 13, true);
    assert ReturnsQuietly(LATE_BODY, 12, false);
  }

  function MachineOf(t: Thread): RawSpan.Machine {
    RawSpan.Machine(t.pc, t.regs)
  }

  /** Both steps of this run are those of the machine, and the map has no entry but the cell. */
  lemma LateBody() returns (run: seq<System>)
    ensures Pinned(LATE_BODY, LATE_BLOCK) && SoleExchange(LATE_BODY, 11)
    ensures |run| == 3 && Run([Program(LATE_BODY, LATE_BLOCK)], {CELL}, CELL, run) && run[2].value == 3
    ensures forall i :: 0 <= i < 2 ==> Real(run[i], run[i + 1])
  {
    LateBodyPinned();
    var regs := [0, 0, 3, 0, CELL, 0, 0, 0, 0, 0, 0];
    var first, second, third := Thread(0, regs, 0), Thread(11, regs, 0), Thread(12, regs, 0);
    LateSteps(regs, first, second, third);
    run := [System(0, [first], 0), System(0, [second], 0), System(3, [third], 1)];
    hide Pinned, SoleExchange, Acts, Real;
    var programs := [Program(LATE_BODY, LATE_BLOCK)];
    assert Step(programs, {CELL}, CELL, run[0], run[1], 0) && Step(programs, {CELL}, CELL, run[1], run[2], 0);
    assert Moves(programs, {CELL}, CELL, run[0], run[1]) && Moves(programs, {CELL}, CELL, run[1], run[2]);
  }

  /** The one thread of the system makes a step of the machine that does what its instruction says. */
  ghost predicate Real(s: System, n: System) {
    && |s.threads| == |n.threads| == 1
    && var t, u := s.threads[0], n.threads[0];
       && RawSpan.Step(LATE_BODY, MachineOf(t), MachineOf(u)) && 0 <= t.pc < |LATE_BODY| && |t.regs| == 11
       && Runs(LATE_BODY, {CELL}, CELL, t, s.value, u, n.value)
  }

  lemma LateSteps(regs: seq<int>, first: Thread, second: Thread, third: Thread)
    requires regs == [0, 0, 3, 0, CELL, 0, 0, 0, 0, 0, 0]
    requires first == Thread(0, regs, 0) && second == Thread(11, regs, 0) && third == Thread(12, regs, 0)
    ensures Real(System(0, [first], 0), System(0, [second], 0)) && Real(System(0, [second], 0), System(3, [third], 1))
    ensures var p := Program(LATE_BODY, LATE_BLOCK);
            Acts(p, {CELL}, CELL, first, 0, second, 0) && Acts(p, {CELL}, CELL, second, 0, third, 3)
  {
    assert regs[0 := 0] == regs;
  }

  // ---------------------------------------------------------------- threads that came in at the top

  /** Some reachable instruction outside the block leads into it, but not to its top. */
  ghost predicate EnteredMidway(p: Program) {
    exists q, e :: Reached(p.insns, q) && MidEdge(p, q, e)
  }

  predicate MidEdge(p: Program, q: int, e: int) {
    && 0 <= q < |p.insns| && !p.block.Within(q) && e in RawSpan.Successors(p.insns, q)
    && p.block.at - 8 < e <= p.block.at
  }

  /** No program is entered but at its top. */
  ghost predicate FromTheTop(programs: seq<Program>) {
    AllPinned(programs) && forall k :: 0 <= k < |programs| ==> !EnteredMidway(programs[k])
  }

  /** Where a thread may be, and what it holds inside its block. */
  ghost predicate InOrder(p: Program, entries: set<int>, cell: int, t: Thread) {
    |t.regs| == 11 && Reached(p.insns, t.pc) && (p.block.Within(t.pc) ==> Holds(p.block, entries, cell, t))
  }

  /** The cell changes only when a thread at its exchange holds it and loaded 0 from it. */
  ghost predicate Transition(b: Block, cell: int, t: Thread, v: int, w: int) {
    w != v ==> t.pc == b.at && |t.regs| == 11 && 1 <= b.pointer <= 9 && t.regs[b.pointer] == cell && t.seen == 0 && v == 0 && w == 1
  }

  lemma ActKeepsOrder(p: Program, entries: set<int>, cell: int, t: Thread, v: int, u: Thread, w: int)
    requires Pinned(p.insns, p.block) && !EnteredMidway(p) && 0 !in entries
    requires InOrder(p, entries, cell, t) && Acts(p, entries, cell, t, v, u, w)
    ensures InOrder(p, entries, cell, u) && Transition(p.block, cell, t, v, w)
    ensures Held(p.block, cell, t, v, u)
  {
    hide Pinned, Closed, Runs, RawSpan.Successors, Reached, Armed, Holds, Held;
    PinnedIsClosed(p.insns, p.block);
    if p.block.Within(t.pc) {
      HoldsMeans(p.block, entries, cell, t);
      BlockStep(p.insns, p.block, entries, cell, t, v, u, w);
      ArmedStep(p.insns, p.block, entries, cell, t, v, u, w);
      HeldOn(p.insns, p.block, entries, cell, t, v, u, w);
    } else {
      assert !MidEdge(p, t.pc, u.pc);
      TopHolds(p, entries, cell, u);
      HeldOutside(p.block, cell, t, v, u);
    }
    ReachedOn(p.insns, t.pc, u.pc);
  }

  lemma HoldsMeans(b: Block, entries: set<int>, cell: int, t: Thread)
    requires Holds(b, entries, cell, t)
    ensures |t.regs| == 11 && 1 <= b.pointer <= 9 && Armed(b, t)
  {}

  lemma TopHolds(p: Program, entries: set<int>, cell: int, t: Thread)
    requires Closed(p.insns, p.block) && |t.regs| == 11 && !(p.block.at - 8 < t.pc <= p.block.at)
    ensures Holds(p.block, entries, cell, t)
  {}

  /** Behind the load a thread goes on holding what it loaded from, and remembers what that gave. */
  ghost predicate Held(b: Block, cell: int, t: Thread, v: int, u: Thread) {
    b.Load() < u.pc <= b.at && |u.regs| == 11 && 1 <= b.pointer <= 9 && u.regs[Holder(b, u.pc)] == cell ==>
      && |t.regs| == 11 && b.Load() <= t.pc < b.at && t.regs[Holder(b, t.pc)] == cell
      && u.seen == if t.pc == b.Load() then v else t.seen
  }

  lemma HeldOn(insns: seq<Insn>, b: Block, entries: set<int>, cell: int, t: Thread, v: int, u: Thread, w: int)
    requires Closed(insns, b) && b.Within(t.pc) && |t.regs| == 11 && Runs(insns, entries, cell, t, v, u, w)
    ensures Held(b, cell, t, v, u)
  {
    BlockCode(insns, b, t.pc);
    hide Closed;
  }

  lemma HeldOutside(b: Block, cell: int, t: Thread, v: int, u: Thread)
    requires !(b.at - 8 < u.pc <= b.at)
    ensures Held(b, cell, t, v, u)
  {}

  /** The thread is about to load this value from the cell. */
  ghost predicate LoadsCell(programs: seq<Program>, cell: int, s: System, k: nat, value: int) {
    && k < |programs| == |s.threads|
    && var t, b := s.threads[k], programs[k].block;
       t.pc == b.Load() && |t.regs| == 11 && 0 <= b.Live() < 11 && t.regs[b.Live()] == cell && s.value == value
  }

  /** A thread behind its load that holds the cell has loaded what it remembers, from the cell, in this run. */
  ghost predicate Remembers(programs: seq<Program>, cell: int, run: seq<System>, i: nat, k: nat)
    requires i < |run| && k < |programs| == |run[i].threads|
  {
    var t, b := run[i].threads[k], programs[k].block;
    b.Load() < t.pc <= b.at && |t.regs| == 11 && 1 <= b.pointer <= 9 && t.regs[Holder(b, t.pc)] == cell ==>
      exists j :: 0 <= j < i && LoadsCell(programs, cell, run[j], k, t.seen)
  }

  /** All that is known of the threads of a run at one moment. */
  ghost predicate Orderly(programs: seq<Program>, entries: set<int>, cell: int, run: seq<System>, i: nat) {
    && i < |run| && |run[i].threads| == |programs|
    && forall k :: 0 <= k < |programs| ==> InOrder(programs[k], entries, cell, run[i].threads[k]) && Remembers(programs, cell, run, i, k)
  }

  lemma StartIsOrderly(programs: seq<Program>, entries: set<int>, cell: int, run: seq<System>)
    requires AllPinned(programs) && Run(programs, entries, cell, run)
    ensures Orderly(programs, entries, cell, run, 0)
  {
    hide Moves, Closed, RawSpan.Successors, ReturnsQuietly, Holds;
    forall k | 0 <= k < |programs|
      ensures InOrder(programs[k], entries, cell, run[0].threads[k]) && Remembers(programs, cell, run, 0, k)
    {
      var p, t := programs[k], run[0].threads[k];
      assert IsPath(p.insns, [0]) && [0][|[0]| - 1] == 0;
      PinnedIsClosed(p.insns, p.block);
      TopHolds(p, entries, cell, t);
    }
  }

  lemma StepIsOrderly(programs: seq<Program>, entries: set<int>, cell: int, run: seq<System>, i: nat) returns (k: nat)
    requires FromTheTop(programs) && 0 !in entries && Orderly(programs, entries, cell, run, i) && i < |run| - 1
    requires Moves(programs, entries, cell, run[i], run[i + 1])
    ensures k < |programs| && Step(programs, entries, cell, run[i], run[i + 1], k)
    ensures Orderly(programs, entries, cell, run, i + 1)
    ensures Transition(programs[k].block, cell, run[i].threads[k], run[i].value, run[i + 1].value)
  {
    hide Pinned, EnteredMidway, Acts, InOrder, Remembers, Transition, Held;
    k :| k < |programs| && Step(programs, entries, cell, run[i], run[i + 1], k);
    var t, u := run[i].threads[k], run[i + 1].threads[k];
    ActKeepsOrder(programs[k], entries, cell, t, run[i].value, u, run[i + 1].value);
    forall m | 0 <= m < |programs|
      ensures InOrder(programs[m], entries, cell, run[i + 1].threads[m]) && Remembers(programs, cell, run, i + 1, m)
    {
      if m == k {
        RemembersOn(programs, cell, run, i, k);
      } else {
        RemembersSame(programs, cell, run, i, m);
      }
    }
  }

  lemma RemembersOn(programs: seq<Program>, cell: int, run: seq<System>, i: nat, k: nat)
    requires i < |run| - 1 && k < |programs| == |run[i].threads| == |run[i + 1].threads|
    requires Pinned(programs[k].insns, programs[k].block) && Remembers(programs, cell, run, i, k)
    requires Held(programs[k].block, cell, run[i].threads[k], run[i].value, run[i + 1].threads[k])
    ensures Remembers(programs, cell, run, i + 1, k)
  {
    var b, t, u := programs[k].block, run[i].threads[k], run[i + 1].threads[k];
    hide ReturnsQuietly;
    if b.Load() < u.pc <= b.at && |u.regs| == 11 && u.regs[Holder(b, u.pc)] == cell {
      if t.pc == b.Load() {
        assert LoadsCell(programs, cell, run[i], k, u.seen);
      } else {
        var j :| 0 <= j < i && LoadsCell(programs, cell, run[j], k, t.seen);
      }
    }
  }

  lemma RemembersSame(programs: seq<Program>, cell: int, run: seq<System>, i: nat, m: nat)
    requires i < |run| - 1 && m < |programs| == |run[i].threads| == |run[i + 1].threads|
    requires run[i + 1].threads[m] == run[i].threads[m] && Remembers(programs, cell, run, i, m)
    ensures Remembers(programs, cell, run, i + 1, m)
  {
    hide LoadsCell;
  }

  lemma RunMeans(programs: seq<Program>, entries: set<int>, cell: int, run: seq<System>)
    requires FromTheTop(programs) && Run(programs, entries, cell, run)
    ensures 0 !in entries && AllPinned(programs)
  {
    hide Moves, Pinned, EnteredMidway;
  }

  lemma {:induction false} OrderlyAlong(programs: seq<Program>, entries: set<int>, cell: int, run: seq<System>, i: nat)
    requires FromTheTop(programs) && Run(programs, entries, cell, run) && i < |run|
    ensures Orderly(programs, entries, cell, run, i)
    decreases i
  {
    hide FromTheTop, Orderly, Moves, Run, AllPinned;
    RunMeans(programs, entries, cell, run);
    if i == 0 {
      StartIsOrderly(programs, entries, cell, run);
    } else {
      OrderlyAlong(programs, entries, cell, run, i - 1);
      MovesAt(programs, entries, cell, run, i - 1);
      var k := StepIsOrderly(programs, entries, cell, run, i - 1);
    }
  }

  /**
    In every run of programs that are entered at the top only, the cell is changed by a thread
    that holds its address and has itself loaded 0 from it, earlier in the run.
  */
  lemma LoadedZeroFirst(programs: seq<Program>, entries: set<int>, cell: int, run: seq<System>, i: nat) returns (k: nat, j: nat)
    requires FromTheTop(programs) && Run(programs, entries, cell, run) && i < |run| - 1 && run[i + 1].value != run[i].value
    ensures run[i].value == 0 && run[i + 1].value == 1
    ensures k < |programs| && |run[i].threads| == |programs| && Step(programs, entries, cell, run[i], run[i + 1], k)
    ensures run[i].threads[k].pc == programs[k].block.at
    ensures j < i && LoadsCell(programs, cell, run[j], k, 0)
  {
    hide FromTheTop, Orderly, Moves, Run, AllPinned;
    RunMeans(programs, entries, cell, run);
    OrderlyAlong(programs, entries, cell, run, i);
    MovesAt(programs, entries, cell, run, i);
    k := StepIsOrderly(programs, entries, cell, run, i);
    OrderlyMeans(programs, entries, cell, run, i, k);
    PinnedAt(programs, k);
    hide Step, LoadsCell, Pinned, InOrder;
    j :| 0 <= j < i && LoadsCell(programs, cell, run[j], k, 0);
  }

  lemma PinnedAt(programs: seq<Program>, k: nat)
    requires AllPinned(programs) && k < |programs|
    ensures Pinned(programs[k].insns, programs[k].block)
  {}

  lemma OrderlyMeans(programs: seq<Program>, entries: set<int>, cell: int, run: seq<System>, i: nat, k: nat)
    requires Orderly(programs, entries, cell, run, i) && k < |programs|
    ensures |run[i].threads| == |programs|
    ensures InOrder(programs[k], entries, cell, run[i].threads[k]) && Remembers(programs, cell, run, i, k)
  {}

  // ---------------------------------------------------------------- the way out

  /** These threads follow each other, and none touches the cell. */
  ghost predicate Walk(insns: seq<Insn>, entries: set<int>, cell: int, v: int, path: seq<Thread>) {
    && (forall i :: 0 <= i < |path| ==> 0 <= path[i].pc < |insns| && |path[i].regs| == 11)
    && forall i :: 0 <= i < |path| - 1 ==> Runs(insns, entries, cell, path[i], v, path[i + 1], v) && path[i].pc < path[i + 1].pc
  }

  /** A thread on the quiet path runs forward to an exit with result 0 and leaves the cell as it is. */
  lemma {:induction false} QuietPath(insns: seq<Insn>, entries: set<int>, cell: int, v: int, t: Thread, zeroed: bool) returns (path: seq<Thread>)
    requires ReturnsQuietly(insns, t.pc, zeroed) && |t.regs| == 11 && (zeroed ==> t.regs[0] == 0)
    ensures path != [] && path[0] == t && Walk(insns, entries, cell, v, path) && Forced(insns, path)
    ensures var last := path[|path| - 1]; insns[last.pc] == EXIT && last.regs[0] == 0
    decreases |insns| - t.pc
  {
    var i := insns[t.pc];
    if i == EXIT && zeroed {
      path := [t];
    } else {
      var u := if i == ZERO_RESULT then Thread(t.pc + 1, t.regs[0 := 0], t.seen) else Thread(t.pc + 1 + i.offset, t.regs, t.seen);
      assert Runs(insns, entries, cell, t, v, u, v);
      var rest := QuietPath(insns, entries, cell, v, u, zeroed || i == ZERO_RESULT);
      path := [t] + rest;
      assert forall j :: 1 <= j < |path| ==> path[j] == rest[j - 1];
    }
  }

  /** The walk is forced: whatever the cell holds meanwhile, no other step can be made, and none changes it. */
  lemma WalkIsForced(insns: seq<Insn>, entries: set<int>, cell: int, v: int, path: seq<Thread>, i: nat, seen: int, u: Thread, w: int)
    requires Walk(insns, entries, cell, v, path) && i < |path| - 1
    requires insns[path[i].pc] == ZERO_RESULT || ForwardJump(insns[path[i].pc])
    requires Runs(insns, entries, cell, path[i], seen, u, w)
    ensures u == path[i + 1] && w == seen
  {}

  /** Every instruction of the walk but the last is one of those it is forced at. */
  ghost predicate Forced(insns: seq<Insn>, path: seq<Thread>) {
    forall i :: 0 <= i < |path| - 1 ==>
      0 <= path[i].pc < |insns| && (insns[path[i].pc] == ZERO_RESULT || ForwardJump(insns[path[i].pc]))
  }

  /**
    In every run of programs that are entered at the top only, a thread at its positive guard
    that looked up the cell and remembers a 1 has loaded that 1 from the cell, leaves the block,
    and is forced to walk forward to an exit with result 0, whatever happens to the cell.
  */
  lemma AlreadyOne(programs: seq<Program>, entries: set<int>, cell: int, run: seq<System>, i: nat, k: nat, v: int)
    returns (j: nat, path: seq<Thread>)
    requires FromTheTop(programs) && Run(programs, entries, cell, run) && i < |run| && k < |programs| == |run[i].threads|
    requires var t, b := run[i].threads[k], programs[k].block;
             t.pc == b.Positive() && t.seen == 1 && |t.regs| == 11 && 0 <= b.Live() < 11
             && (t.regs[b.Live()] == cell || entries == {cell})
    ensures j < i && LoadsCell(programs, cell, run[j], k, 1)
    ensures var insns, t := programs[k].insns, run[i].threads[k];
            && path != [] && Walk(insns, entries, cell, v, path) && Forced(insns, path)
            && 0 <= t.pc < |insns| && |t.regs| == 11
            && (forall seen, u, w :: Runs(insns, entries, cell, t, seen, u, w) ==> u == path[0] && w == seen)
            && insns[path[|path| - 1].pc] == EXIT && path[|path| - 1].regs[0] == 0
  {
    hide FromTheTop, AllPinned, Run, Orderly, Remembers, Pinned, InOrder, Walk, Forced;
    var p, t := programs[k], run[i].threads[k];
    RunMeans(programs, entries, cell, run);
    OrderlyAlong(programs, entries, cell, run, i);
    OrderlyMeans(programs, entries, cell, run, i, k);
    PinnedAt(programs, k);
    PositiveHolds(p, entries, cell, t);
    j := Remembered(programs, cell, run, i, k);
    path := LeavesQuietly(p.insns, p.block, entries, cell, t, v);
  }

  /** At the positive guard the loaded register has what the thread remembers. */
  lemma PositiveHolds(p: Program, entries: set<int>, cell: int, t: Thread)
    requires Pinned(p.insns, p.block) && InOrder(p, entries, cell, t) && t.pc == p.block.Positive() && t.seen == 1
    requires t.regs[p.block.Live()] == cell || entries == {cell}
    ensures t.regs[p.block.Live()] == cell && t.regs[p.block.loaded] == 1
  {
    hide ReturnsQuietly, Reached;
  }

  lemma Remembered(programs: seq<Program>, cell: int, run: seq<System>, i: nat, k: nat) returns (j: nat)
    requires i < |run| && k < |programs| == |run[i].threads| && Remembers(programs, cell, run, i, k)
    requires Pinned(programs[k].insns, programs[k].block)
    requires var t, b := run[i].threads[k], programs[k].block;
             t.pc == b.Positive() && t.seen == 1 && |t.regs| == 11 && t.regs[b.Live()] == cell
    ensures j < i && LoadsCell(programs, cell, run[j], k, 1)
  {
    hide ReturnsQuietly, LoadsCell;
    j :| 0 <= j < i && LoadsCell(programs, cell, run[j], k, 1);
  }

  lemma LeavesQuietly(insns: seq<Insn>, b: Block, entries: set<int>, cell: int, t: Thread, v: int) returns (path: seq<Thread>)
    requires Pinned(insns, b) && t.pc == b.Positive() && |t.regs| == 11 && t.regs[b.loaded] == 1
    ensures path != [] && Walk(insns, entries, cell, v, path) && Forced(insns, path)
    ensures 0 <= t.pc < |insns|
    ensures forall seen, u, w :: Runs(insns, entries, cell, t, seen, u, w) ==> u == path[0] && w == seen
    ensures insns[path[|path| - 1].pc] == EXIT && path[|path| - 1].regs[0] == 0
  {
    var out := Thread(t.pc + 1 + insns[t.pc].offset, t.regs, t.seen);
    path := QuietPath(insns, entries, cell, v, out, false);
  }
}
