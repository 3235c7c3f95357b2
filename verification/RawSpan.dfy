/**
  The raw ia32 reader body as decoded by scripts/check-bpf-map-defs.py
  (1271-1327), next to the machine it describes (RFC 9669): acceptance by the
  span check is a statement about every execution.
 */
module RawSpan {
  import opened Options
  import opened SpanPaths

  const TWO32: int := 0x1_0000_0000
  const TWO64: int := 0x1_0000_0000_0000_0000

  /** One eight-byte slot, as unpacked with "<BBhi". */
  datatype Insn = Insn(op: int, reg: int, offset: int, imm: int)
  {
    predicate Unpacked() {
      && 0 <= op < 256 && 0 <= reg < 256
      && -0x8000 <= offset < 0x8000 && -0x8000_0000 <= imm < 0x8000_0000
    }
    function Class(): int { op % 8 }
    function Dst(): int { reg % 16 }
    function Src(): int { reg / 16 }
    predicate Atomic() { op % 8 == 3 && op / 32 == 6 }
    predicate Jump() { op % 8 == 5 || op % 8 == 6 }

    /** gotol, callx and the legacy packet loads are not decoded by the check. */
    predicate Modelled() {
      op != 0x06 && op != 0x8d && (op % 8 == 0 ==> op == 0x18)
    }
  }

  predicate Unpacked(insns: seq<Insn>) {
    forall i :: 0 <= i < |insns| ==> insns[i].Unpacked()
  }

  function Size(i: Insn): int { if i.op == 0x18 then 2 else 1 }

  // ----- decoding -----

  /** The edges the check gives the slot at `pc`. */
  function Successors(insns: seq<Insn>, pc: int): seq<int>
    requires 0 <= pc < |insns|
  {
    var i := insns[pc];
    if i.op == 0x95 then []
    else if i.op == 0x05 then [pc + 1 + i.offset]
    else if i.Jump() && i.op != 0x85 then [pc + 1, pc + 1 + i.offset]
    else [pc + Size(i)]
  }

  predicate WideOk(insns: seq<Insn>, pc: int)
    requires 0 <= pc < |insns|
  {
    insns[pc].op == 0x18 ==> pc + 1 < |insns| && insns[pc + 1].op == 0
  }

  /** The slots at which a linear sweep from `pc` starts an instruction. */
  ghost function Starts(insns: seq<Insn>, pc: nat): set<int>
    decreases |insns| - pc
  {
    if pc >= |insns| then {} else {pc} + Starts(insns, pc + Size(insns[pc]))
  }

  lemma {:induction false} StartsInRange(insns: seq<Insn>, pc: nat)
    ensures forall k :: k in Starts(insns, pc) ==> pc <= k < |insns|
    decreases |insns| - pc
  {
    if pc < |insns| { StartsInRange(insns, pc + Size(insns[pc])); }
  }

  /** What a decoded body consists of. */
  ghost predicate Decoded(insns: seq<Insn>, graph: map<int, seq<int>>, exits: set<int>) {
    && graph.Keys == Starts(insns, 0)
    && (forall pc :: pc in graph ==>
          0 <= pc < |insns| && WideOk(insns, pc) && graph[pc] == Successors(insns, pc))
    && (forall pc :: pc in exits <==> pc in graph && insns[pc].op == 0x95)
  }

  method Decode(insns: seq<Insn>) returns (body: Option<(map<int, seq<int>>, set<int>)>)
    ensures body.Some? ==> Decoded(insns, body.value.0, body.value.1)
    ensures body.None? ==> exists pc :: pc in Starts(insns, 0) && 0 <= pc < |insns| && !WideOk(insns, pc)
  {
    var graph: map<int, seq<int>>, exits: set<int> := map[], {};
    var pc := 0;
    while pc < |insns|
      invariant 0 <= pc
      invariant graph.Keys + Starts(insns, pc) == Starts(insns, 0)
      invariant forall k :: k in graph ==>
        0 <= k < |insns| && WideOk(insns, k) && graph[k] == Successors(insns, k)
      invariant forall k :: k in exits <==> k in graph && insns[k].op == 0x95
      decreases |insns| - pc
    {
      var i := insns[pc];
      var size := Size(i);
      if size == 2 && (pc + 1 >= |insns| || insns[pc + 1].op != 0) {
        assert pc in Starts(insns, pc) && !WideOk(insns, pc);
        return None;
      }
      graph := graph[pc := Successors(insns, pc)];
      if i.op == 0x95 { exits := exits + {pc}; }
      pc := pc + size;
    }
    body := Some((graph, exits));
  }

  // ----- the register facts -----

  type Facts = f: seq<Option<int>> | |f| == 11 witness NOTHING_KNOWN

  const NOTHING_KNOWN: seq<Option<int>> :=
    [None, None, None, None, None, None, None, None, None, None, None]

  function Unknown(): Facts { NOTHING_KNOWN }

  /** The fact a register-writing instruction gives its destination; None where the check raises. */
  function Written(insns: seq<Insn>, pc: int, f: Facts): Option<Option<int>>
    requires 0 <= pc < |insns| && WideOk(insns, pc)
  {
    var i := insns[pc];
    if i.op == 0x18 && i.Src() == 0 then
      Some(Some(i.imm % TWO32 + (insns[pc + 1].imm % TWO32) * TWO32))
    else if (i.op == 0xb4 || i.op == 0xb7) && i.offset == 0 then
      Some(Some(i.imm % (if i.op == 0xb4 then TWO32 else TWO64)))
    else if (i.op == 0xbc || i.op == 0xbf) && i.offset == 0 then
      if !(0 <= i.Src() <= 10) then None
      else if f[i.Src()].None? then Some(None)
      else if i.op == 0xbc then Some(Some(f[i.Src()].value % TWO32))
      else Some(f[i.Src()])
    else Some(None)
  }

  function Transfer(insns: seq<Insn>, pc: int, f: Facts): Option<Facts> {
    if !(0 <= pc < |insns|) || !WideOk(insns, pc) then None
    else
      var i := insns[pc];
      if i.op == 0x85 then Some(Unknown()[..6] + f[6..])
      else if i.Atomic() then Some(Unknown())
      else if i.Class() in {0, 1, 4, 7} then
        if !(0 <= i.Dst() <= 10) then None
        else
          var w := Written(insns, pc, f);
          if w.None? then None else Some(f[i.Dst() := w.value])
      else Some(f)
  }

  // ----- the machine -----

  datatype Machine = Machine(pc: int, regs: seq<int>)
  {
    predicate Valid() {
      |regs| == 11 && forall r :: 0 <= r < 11 ==> 0 <= regs[r] < TWO64
    }
  }

  /** All registers but those in `changed` keep their value. */
  predicate Keeps(old': seq<int>, new': seq<int>, changed: set<int>)
    requires |old'| == 11 && |new'| == 11
  {
    forall r :: 0 <= r < 11 && r !in changed ==> new'[r] == old'[r]
  }

  /** Values the instruction set fixes; loads, helper results and other arithmetic are left open. */
  ghost predicate WritesValue(insns: seq<Insn>, pc: int, regs: seq<int>, value: int)
    requires 0 <= pc < |insns| && |regs| == 11
  {
    var i := insns[pc];
    && (i.op == 0x18 && i.Src() == 0 && pc + 1 < |insns| ==>
          value == i.imm % TWO32 + (insns[pc + 1].imm % TWO32) * TWO32)
    && (i.op == 0xb4 && i.offset == 0 ==> value == i.imm % TWO32)
    && (i.op == 0xb7 && i.offset == 0 ==> value == i.imm % TWO64)
    && (i.op == 0xbc && i.offset == 0 && 0 <= i.Src() <= 10 ==> value == regs[i.Src()] % TWO32)
    && (i.op == 0xbf && i.offset == 0 && 0 <= i.Src() <= 10 ==> value == regs[i.Src()])
  }

  /** One instruction, in every way the environment may answer it. */
  ghost predicate Step(insns: seq<Insn>, m: Machine, n: Machine) {
    && m.Valid() && n.Valid() && 0 <= m.pc < |insns|
    && var i := insns[m.pc];
       if i.op == 0x95 then false
       else if i.op == 0x05 then n == m.(pc := m.pc + 1 + i.offset)
       else if i.op == 0x06 then n == m.(pc := m.pc + 1 + i.imm)
       else if i.op == 0x85 || i.op == 0x8d then
         n.pc == m.pc + 1 && Keeps(m.regs, n.regs, {0, 1, 2, 3, 4, 5})
       else if i.Jump() then
         && n.regs == m.regs
         && (n.pc == m.pc + 1 || n.pc == m.pc + 1 + i.offset)
         && (i.op == 0x2d && 0 <= i.Dst() <= 10 && 0 <= i.Src() <= 10 ==>
               n.pc == m.pc + 1 + (if m.regs[i.Dst()] > m.regs[i.Src()] then i.offset else 0))
       else if i.op == 0x18 || i.Class() in {1, 4, 7} then
         && n.pc == m.pc + Size(i)
         && Keeps(m.regs, n.regs, {i.Dst()})
         && (0 <= i.Dst() <= 10 ==> WritesValue(insns, m.pc, m.regs, n.regs[i.Dst()]))
       else if i.Class() == 0 then
         n.pc == m.pc + 1 && Keeps(m.regs, n.regs, {0, 1, 2, 3, 4, 5})
       else if i.Atomic() then
         n.pc == m.pc + 1 && Keeps(m.regs, n.regs, {0, i.Src()})
       else n == m.(pc := m.pc + 1)
  }

  ghost predicate Execution(insns: seq<Insn>, run: seq<Machine>) {
    && |run| > 0 && run[0].Valid()
    && forall i :: 0 <= i < |run| - 1 ==> Step(insns, run[i], run[i + 1])
  }

  ghost predicate Agree(f: Facts, regs: seq<int>) {
    |regs| == 11 && forall r :: 0 <= r < 11 && f[r].Some? ==> regs[r] == f[r].value
  }

  /** Every step of a modelled instruction follows a decoded edge and keeps the facts true. */
  lemma StepIsCovered(insns: seq<Insn>, m: Machine, n: Machine, f: Facts)
    requires Unpacked(insns) && Step(insns, m, n) && Agree(f, m.regs)
    requires insns[m.pc].Modelled() && WideOk(insns, m.pc) && Transfer(insns, m.pc, f).Some?
    ensures insns[m.pc].op != 0x95 && n.pc in Successors(insns, m.pc)
    ensures Agree(Transfer(insns, m.pc, f).value, n.regs)
  {
    var i := insns[m.pc];
    var g := Transfer(insns, m.pc, f).value;
    assert i.Unpacked();
    if i.op == 0x85 {
      forall r | 0 <= r < 11 && g[r].Some? ensures n.regs[r] == g[r].value {
        assert r >= 6 && g[r] == f[r];
      }
    }
  }

  /**
    The condition is exact: an instruction outside the decoded forms has a step that
    leaves the decoded edges or falsifies the facts.  (A gotol whose distance happens
    to be zero or its unused offset field is covered by accident.)
   */
  lemma UnmodelledIsNotCovered(i: Insn) returns (m: Machine, n: Machine, f: Facts)
    requires i.Unpacked() && !i.Modelled()
    requires i.op == 0x06 ==> i.imm != 0 && i.imm != i.offset
    requires i.Class() == 0 ==> i.Dst() <= 10
    ensures Step([i], m, n) && Agree(f, m.regs) && WideOk([i], 0) && Transfer([i], 0, f).Some?
    ensures !(n.pc in Successors([i], 0) && Agree(Transfer([i], 0, f).value, n.regs))
  {
    var zeros := [0, 0, 0, 0, 0, 0, 0, 0, 0, 0, 0];
    m := Machine(0, zeros);
    if i.op == 0x06 {
      f := Unknown();
      n := m.(pc := 1 + i.imm);
    } else {
      var r := if i.Dst() == 5 then 4 else 5;
      f := Unknown()[r := Some(0)];
      n := Machine(1, zeros[r := 1]);
      assert Transfer([i], 0, f).value[r] == Some(0);
    }
  }

  /** A modelled instruction that is not an exit can always be executed. */
  lemma CanStep(insns: seq<Insn>, m: Machine, f: Facts) returns (n: Machine)
    requires Unpacked(insns) && m.Valid() && 0 <= m.pc < |insns|
    requires insns[m.pc].Modelled() && insns[m.pc].op != 0x95
    requires WideOk(insns, m.pc) && Transfer(insns, m.pc, f).Some?
    ensures Step(insns, m, n)
  {
    var i := insns[m.pc];
    assert i.Unpacked();
    if i.op == 0x05 {
      n := m.(pc := m.pc + 1 + i.offset);
    } else if i.Jump() && i.op != 0x85 {
      var taken := i.op == 0x2d && 0 <= i.Dst() <= 10 && 0 <= i.Src() <= 10 && m.regs[i.Dst()] > m.regs[i.Src()];
      n := m.(pc := m.pc + 1 + (if taken then i.offset else 0));
    } else if i.op == 0x18 || i.Class() in {1, 4, 7} {
      var value :=
        if i.op == 0x18 && i.Src() == 0 then i.imm % TWO32 + (insns[m.pc + 1].imm % TWO32) * TWO32
        else if i.op == 0xb4 then i.imm % TWO32
        else if i.op == 0xb7 then i.imm % TWO64
        else if i.op == 0xbc && i.Src() <= 10 then m.regs[i.Src()] % TWO32
        else if i.op == 0xbf && i.Src() <= 10 then m.regs[i.Src()]
        else 0;
      assert 0 <= value < TWO64;
      n := Machine(m.pc + Size(i), m.regs[i.Dst() := value]);
    } else {
      n := m.(pc := m.pc + 1);
    }
  }

  // ----- acceptance -----

  /** `guard` is the only full-width address comparison before the user read. */
  ghost predicate SoleGuard(insns: seq<Insn>, read: int, guard: int)
    requires read <= |insns|
  {
    && 0 <= guard < read
    && forall pc :: 0 <= pc < read ==>
         (IsGuard(insns[pc]) <==> pc == guard)
  }

  function BodySpec(insns: seq<Insn>, graph: map<int, seq<int>>, exits: set<int>, guard: int, read: int): Spec<Facts> {
    Spec(graph, exits, guard, read, false,
         (pc, f: Facts) => Transfer(insns, pc, f),
         ReturnsSentinel)
  }

  predicate ReturnsSentinel(f: Facts) {
    f[0] == Some(TWO32)
  }

  /** The edge the guard takes when the address lies above the span. */
  function Rejected(insns: seq<Insn>, guard: int): int
    requires 0 <= guard < |insns|
  {
    guard + 1 + insns[guard].offset
  }

  ghost predicate Accepted(insns: seq<Insn>, read: int, guard: int, graph: map<int, seq<int>>, exits: set<int>, bound: nat)
    requires read <= |insns|
  {
    && SoleGuard(insns, read, guard)
    && Decoded(insns, graph, exits)
    && Proven(BodySpec(insns, graph, exits, guard, read), Node(0, Unknown()), Rejected(insns, guard), bound)
  }

  predicate IsGuard(i: Insn) {
    i.op == 0x2d && i.reg == 0x13
  }

  method Guards(insns: seq<Insn>, read: int) returns (guards: seq<int>)
    requires 0 <= read <= |insns|
    ensures forall i :: 0 <= i < |guards| ==> 0 <= guards[i] < read && IsGuard(insns[guards[i]])
    ensures forall pc :: 0 <= pc < read && IsGuard(insns[pc]) ==> pc in guards
    ensures forall i, j :: 0 <= i < j < |guards| ==> guards[i] < guards[j]
  {
    guards := [];
    for pc := 0 to read
      invariant forall i :: 0 <= i < |guards| ==> 0 <= guards[i] < pc && IsGuard(insns[guards[i]])
      invariant forall k :: 0 <= k < pc && IsGuard(insns[k]) ==> k in guards
      invariant forall i, j :: 0 <= i < j < |guards| ==> guards[i] < guards[j]
    {
      if IsGuard(insns[pc]) { guards := guards + [pc]; }
    }
  }

  lemma NoSoleGuard(insns: seq<Insn>, read: int, guards: seq<int>)
    requires 0 <= read <= |insns| && |guards| != 1
    requires forall i :: 0 <= i < |guards| ==> 0 <= guards[i] < read && IsGuard(insns[guards[i]])
    requires forall pc :: 0 <= pc < read && IsGuard(insns[pc]) ==> pc in guards
    requires forall i, j :: 0 <= i < j < |guards| ==> guards[i] < guards[j]
    ensures forall guard :: !SoleGuard(insns, read, guard)
  {
    forall guard ensures !SoleGuard(insns, read, guard) {
      if |guards| > 1 { assert IsGuard(insns[guards[0]]) && IsGuard(insns[guards[1]]); }
      if 0 <= guard < read { assert IsGuard(insns[guard]) ==> guard in guards; }
    }
  }

  method ValidateRawSpan(insns: seq<Insn>, read: int) returns (ok: bool)
    requires Unpacked(insns) && 0 <= read <= |insns|
    ensures ok ==> exists guard, graph, exits, bound: nat :: Accepted(insns, read, guard, graph, exits, bound)
    ensures !ok ==>
      || !(exists guard :: SoleGuard(insns, read, guard))
      || (exists pc :: pc in Starts(insns, 0) && 0 <= pc < |insns| && !WideOk(insns, pc))
      || (exists guard, graph, exits :: SoleGuard(insns, read, guard) && Decoded(insns, graph, exits) &&
            Refuted(BodySpec(insns, graph, exits, guard, read), Node(0, Unknown()), Rejected(insns, guard)))
  {
    var guards := Guards(insns, read);
    if |guards| != 1 {
      NoSoleGuard(insns, read, guards);
      return false;
    }
    var guard := guards[0];
    assert SoleGuard(insns, read, guard) by {
      forall pc | 0 <= pc < read && IsGuard(insns[pc]) ensures pc == guard { assert pc in guards; }
    }
    var body := Decode(insns);
    if body.None? { return false; }
    var (graph, exits) := body.value;
    var spec := BodySpec(insns, graph, exits, guard, read);
    ok := ValidateSpanPaths(spec, Node(0, Unknown()), Rejected(insns, guard));
    if ok {
      ghost var bound: nat :| Proven(spec, Node(0, Unknown()), Rejected(insns, guard), bound);
      assert Accepted(insns, read, guard, graph, exits, bound);
    }
  }

  // ----- what acceptance says about executions -----

  ghost predicate AllModelled(insns: seq<Insn>, graph: map<int, seq<int>>) {
    forall pc :: pc in graph && 0 <= pc < |insns| ==> insns[pc].Modelled()
  }

  ghost predicate DescribesBody(insns: seq<Insn>, s: Spec<Facts>) {
    && Unpacked(insns)
    && Decoded(insns, s.graph, s.exits) && AllModelled(insns, s.graph)
    && (forall pc, f: Facts {:trigger s.transfer(pc, f)} :: s.transfer(pc, f) == Transfer(insns, pc, f))
  }

  /** A machine step from a safe node is an edge of the product graph. */
  lemma StepIsEdge(insns: seq<Insn>, s: Spec<Facts>, m: Machine, n: Machine, node: Node<Facts>)
    requires DescribesBody(insns, s) && Step(insns, m, n)
    requires node.pc == m.pc && Agree(node.fact, m.regs) && !s.Faulty(node) && !s.Halted(node)
    ensures s.transfer(node.pc, node.fact).Some?
    ensures var next := Node(n.pc, s.transfer(node.pc, node.fact).value);
            s.Edge(node, next) && Agree(next.fact, n.regs)
  {
    StepIsCovered(insns, m, n, node.fact);
  }

  /** An execution that does not go past a stop of the walk is a run of the product graph. */
  lemma {:induction false} Simulate(insns: seq<Insn>, s: Spec<Facts>, start: Node<Facts>, c: seq<Machine>) returns (run: seq<Node<Facts>>)
    requires DescribesBody(insns, s) && AllRunsSafe(s, [start])
    requires Execution(insns, c) && c[0].pc == start.pc && Agree(start.fact, c[0].regs)
    requires forall j :: 0 <= j < |c| - 1 ==> s.rejection || c[j].pc != s.guard
    ensures |run| == |c| && s.IsRun([start], run)
    ensures forall j :: 0 <= j < |c| ==> run[j].pc == c[j].pc && Agree(run[j].fact, c[j].regs)
  {
    hide Step, DescribesBody;
    var last := |c| - 1;
    if last == 0 {
      run := [start];
    } else {
      var front := Simulate(insns, s, start, c[..last]);
      var n := front[last - 1];
      assert c[..last][last - 1] == c[last - 1];
      assert Step(insns, c[last - 1], c[last]);
      assert !s.Faulty(n);
      StepIsEdge(insns, s, c[last - 1], c[last], n);
      var m := Node(c[last].pc, s.transfer(n.pc, n.fact).value);
      run := front + [m];
    }
  }

  /** Every gotol goes where the decoder thinks it goes. */
  ghost predicate GotolsFollowed(insns: seq<Insn>, graph: map<int, seq<int>>) {
    forall pc :: pc in graph && 0 <= pc < |insns| && insns[pc].op == 0x06 ==> insns[pc].imm == 0 || insns[pc].imm == insns[pc].offset
  }

  /** Whatever becomes of the registers, every other instruction follows a decoded edge. */
  lemma StepIsFollowed(insns: seq<Insn>, m: Machine, n: Machine)
    requires Unpacked(insns) && Step(insns, m, n)
    requires insns[m.pc].op == 0x06 ==> insns[m.pc].imm == 0 || insns[m.pc].imm == insns[m.pc].offset
    ensures n.pc in Successors(insns, m.pc)
  {
    assert insns[m.pc].Unpacked();
  }

  lemma TraceEdge(insns: seq<Insn>, s: Spec<Facts>, m: Machine, n: Machine, node: Node<Facts>)
    requires Unpacked(insns) && Decoded(insns, s.graph, s.exits) && GotolsFollowed(insns, s.graph) && Step(insns, m, n)
    requires node.pc == m.pc && !s.Faulty(node) && !s.Halted(node)
    ensures s.transfer(node.pc, node.fact).Some? && s.Edge(node, Node(n.pc, s.transfer(node.pc, node.fact).value))
  {
    StepIsFollowed(insns, m, n);
    assert insns[m.pc].op != 0x95;
    hide Step;
  }

  /** An execution that does not go past a stop of the walk visits the places of a product run. */
  lemma {:induction false} Trace(insns: seq<Insn>, s: Spec<Facts>, start: Node<Facts>, c: seq<Machine>) returns (run: seq<Node<Facts>>)
    requires Unpacked(insns) && Decoded(insns, s.graph, s.exits) && GotolsFollowed(insns, s.graph) && AllRunsSafe(s, [start])
    requires Execution(insns, c) && c[0].pc == start.pc
    requires forall j :: 0 <= j < |c| - 1 ==> s.rejection || c[j].pc != s.guard
    ensures |run| == |c| && s.IsRun([start], run)
    ensures forall j :: 0 <= j < |c| ==> run[j].pc == c[j].pc
  {
    hide Step, Decoded, GotolsFollowed;
    var last := |c| - 1;
    if last == 0 {
      run := [start];
    } else {
      var front := Trace(insns, s, start, c[..last]);
      var n := front[last - 1];
      assert c[..last][last - 1] == c[last - 1];
      assert Step(insns, c[last - 1], c[last]);
      assert !s.Faulty(n);
      TraceEdge(insns, s, c[last - 1], c[last], n);
      var m := Node(c[last].pc, s.transfer(n.pc, n.fact).value);
      run := front + [m];
    }
  }

  /**
    Before the guard is met the reader is never executed, whatever loads and helpers answer, in
    every accepted body whose gotols go where the decoder thinks.
  */
  lemma ReadNeedsGuard(insns: seq<Insn>, read: int, guard: int, graph: map<int, seq<int>>, exits: set<int>, bound: nat, c: seq<Machine>)
    requires Unpacked(insns) && read <= |insns| && Accepted(insns, read, guard, graph, exits, bound)
    requires GotolsFollowed(insns, graph)
    requires Execution(insns, c) && c[0].pc == 0
    requires forall j :: 0 <= j < |c| - 1 ==> c[j].pc != guard
    ensures c[|c| - 1].pc != read && c[|c| - 1].pc in graph && |c| <= bound
  {
    hide Step, Decoded, GotolsFollowed, AtGuard;
    var s := BodySpec(insns, graph, exits, guard, read);
    var run := Trace(insns, s, Node(0, Unknown()), c);
    assert !s.Faulty(run[|run| - 1]);
  }

  // A body the check accepts although its first instruction, a gotol, leads around the guard at 1
  // to the read at 2.
  const BYPASS: seq<Insn> := [
    Insn(0x06, 0, 0, 1), Insn(0x2d, 0x13, 1, 0), Insn(0x85, 0, 0, 1),
    Insn(0x18, 0, 0, 0), Insn(0, 0, 0, 1), Insn(0x95, 0, 0, 0)]
  const BYPASS_GRAPH: map<int, seq<int>> := map[0 := [1, 1], 1 := [2, 3], 2 := [3], 3 := [5], 5 := []]

  lemma BypassStarts()
    ensures Starts(BYPASS, 0) == {0, 1, 2, 3, 5}
  {
    assert Starts(BYPASS, 6) == {};
    assert Starts(BYPASS, 5) == {5};
    assert Starts(BYPASS, 3) == {3, 5};
    assert Starts(BYPASS, 2) == {2, 3, 5};
    assert Starts(BYPASS, 1) == {1, 2, 3, 5};
  }

  lemma BypassDecoded()
    ensures Unpacked(BYPASS) && Decoded(BYPASS, BYPASS_GRAPH, {5}) && SoleGuard(BYPASS, 2, 1)
  {
    BypassStarts();
    hide Starts;
  }

  function BypassSpec(): Spec<Facts> {
    BodySpec(BYPASS, BYPASS_GRAPH, {5}, 1, 2)
  }

  /** The first walk only sees the step to the guard. */
  lemma BypassToGuard(run: seq<Node<Facts>>)
    requires BypassSpec().IsRun([Node(0, Unknown())], run)
    ensures |run| <= 2 && Distinct(run) && (forall i :: 0 <= i < |run| ==> !BypassSpec().Faulty(run[i]))
    ensures |run| == 2 ==> run[1] == Node(1, Unknown())
  {
    forall i | 0 <= i < |run| - 1 ensures !BypassSpec().Halted(run[i]) {
      assert BypassSpec().Edge(run[i], run[i + 1]);
    }
    assert run[0] == Node(0, Unknown());
    if |run| > 1 {
      assert BypassSpec().Edge(run[0], run[1]);
      assert BypassSpec().Halted(run[1]);
    }
  }

  lemma BypassAfterGuard(run: seq<Node<Facts>>)
    requires BypassSpec().AfterGuard().IsRun([Node(3, Unknown())], run)
    ensures |run| <= 2 && Distinct(run) && (forall i :: 0 <= i < |run| ==> !BypassSpec().AfterGuard().Faulty(run[i]))
  {
    var s := BypassSpec().AfterGuard();
    assert run[0] == Node(3, Unknown());
    if |run| > 1 {
      assert s.Edge(run[0], run[1]);
      assert run[1] == Node(5, Unknown()[0 := Some(TWO32)]);
      assert |run| > 2 ==> s.Edge(run[1], run[2]);
    }
  }

  lemma BypassReaches()
    ensures AtGuard(BypassSpec(), Node(0, Unknown()), Unknown())
  {
    var run := [Node(0, Unknown()), Node(1, Unknown())];
    assert BypassSpec().Edge(run[0], run[1]);
    assert BypassSpec().IsRun([Node(0, Unknown())], run);
  }

  lemma BypassSafe()
    ensures SafeFrom(BypassSpec(), Node(0, Unknown()), 2) && SafeFrom(BypassSpec().AfterGuard(), Node(3, Unknown()), 2)
  {
    var s, start, tail := BypassSpec(), Node(0, Unknown()), Node(3, Unknown());
    hide BypassSpec, Distinct;
    forall run | s.IsRun([start], run)
      ensures |run| <= 2 && Distinct(run) && (forall i :: 0 <= i < |run| ==> !s.Faulty(run[i]))
    {
      BypassToGuard(run);
    }
    forall run | s.AfterGuard().IsRun([tail], run)
      ensures |run| <= 2 && Distinct(run) && (forall i :: 0 <= i < |run| ==> !s.AfterGuard().Faulty(run[i]))
    {
      BypassAfterGuard(run);
    }
  }

  lemma BypassAccepted()
    ensures Accepted(BYPASS, 2, 1, BYPASS_GRAPH, {5}, 2)
  {
    BypassDecoded();
    BypassReaches();
    BypassSafe();
    var s, start := BypassSpec(), Node(0, Unknown());
    assert s.guard == 1 && Rejected(BYPASS, 1) == 3;
    hide SafeFrom, Decoded, SoleGuard, Rejected;
    forall x | AtGuard(s, start, x) ensures SafeFrom(s.AfterGuard(), Node(3, x), 2) {
      var run :| s.IsRun([start], run) && run[|run| - 1] == Node(s.guard, x);
      BypassToGuard(run);
    }
    hide AtGuard;
  }

  /** The condition matters: this accepted body performs the user read without meeting the guard. */
  lemma GotolBypassesGuard() returns (c: seq<Machine>)
    ensures Unpacked(BYPASS) && Accepted(BYPASS, 2, 1, BYPASS_GRAPH, {5}, 2) && !GotolsFollowed(BYPASS, BYPASS_GRAPH)
    ensures Execution(BYPASS, c) && c[0].pc == 0 && c[|c| - 1].pc == 2 && forall j :: 0 <= j < |c| ==> c[j].pc != 1
  {
    BypassDecoded();
    BypassAccepted();
    hide Accepted, Decoded;
    var zeros := [0, 0, 0, 0, 0, 0, 0, 0, 0, 0, 0];
    c := [Machine(0, zeros), Machine(2, zeros)];
    assert 0 in BYPASS_GRAPH && BYPASS[0].op == 0x06;
  }

  /** Runs of the second walk are executions that end, and end with the sentinel. */
  lemma SafeTail(insns: seq<Insn>, s: Spec<Facts>, start: Node<Facts>, bound: nat, c: seq<Machine>)
    requires DescribesBody(insns, s) && s.rejection && SafeFrom(s, start, bound)
    requires forall f: Facts :: s.sentinel(f) == ReturnsSentinel(f)
    requires Execution(insns, c) && c[0].pc == start.pc && Agree(start.fact, c[0].regs)
    ensures |c| <= bound
    ensures forall i :: 0 <= i < |c| ==> c[i].pc != s.read && c[i].pc in s.graph && 0 <= c[i].pc < |insns|
    ensures EndsOrSteps(insns, c[|c| - 1])
  {
    var run := Simulate(insns, s, start, c);
    assert forall i :: 0 <= i < |c| ==> !s.Faulty(run[i]);
    var last := c[|c| - 1];
    ValidLast(insns, c);
    LastEndsOrSteps(insns, s, last, run[|c| - 1]);
  }

  lemma ValidLast(insns: seq<Insn>, c: seq<Machine>)
    requires Execution(insns, c)
    ensures c[|c| - 1].Valid()
  {
    if |c| > 1 { assert Step(insns, c[|c| - 2], c[|c| - 1]); }
  }

  /** At an exit the sentinel is returned; anywhere else execution goes on. */
  ghost predicate EndsOrSteps(insns: seq<Insn>, m: Machine) {
    && 0 <= m.pc < |insns| && |m.regs| == 11
    && if insns[m.pc].op == 0x95 then m.regs[0] == TWO32 else exists n :: Step(insns, m, n)
  }

  lemma LastEndsOrSteps(insns: seq<Insn>, s: Spec<Facts>, m: Machine, node: Node<Facts>)
    requires DescribesBody(insns, s) && s.rejection && m.Valid()
    requires forall f: Facts :: s.sentinel(f) == ReturnsSentinel(f)
    requires node.pc == m.pc && Agree(node.fact, m.regs) && !s.Faulty(node)
    ensures EndsOrSteps(insns, m)
  {
    if insns[m.pc].op == 0x95 {
      assert m.pc in s.exits && s.transfer(node.pc, node.fact) == Some(node.fact);
    } else {
      var n := CanStep(insns, m, node.fact);
    }
  }

  lemma SpecDescribesBody(insns: seq<Insn>, read: int, guard: int, graph: map<int, seq<int>>, exits: set<int>)
    requires Unpacked(insns) && Decoded(insns, graph, exits) && AllModelled(insns, graph)
    ensures var s := BodySpec(insns, graph, exits, guard, read);
            && DescribesBody(insns, s) && DescribesBody(insns, s.AfterGuard())
            && forall f: Facts :: s.AfterGuard().sentinel(f) == ReturnsSentinel(f)
  {}

  /**
    If the first arrival at the guard takes the reject branch, the execution never
    executes the user read, cannot get stuck or run on, and any exit it reaches
    returns the failure sentinel.
   */
  lemma RejectedReturnsSentinel(insns: seq<Insn>, read: int, guard: int, graph: map<int, seq<int>>, exits: set<int>, bound: nat, c: seq<Machine>, k: nat)
    requires Unpacked(insns) && read <= |insns| && Accepted(insns, read, guard, graph, exits, bound)
    requires AllModelled(insns, graph)
    requires Execution(insns, c) && c[0].pc == 0
    requires k + 1 < |c| && c[k].pc == guard && c[k + 1].pc == Rejected(insns, guard)
    requires forall j :: 0 <= j < k ==> c[j].pc != guard
    ensures |c| <= k + 1 + bound
    ensures forall i :: k < i < |c| ==> c[i].pc != read && c[i].pc in graph
    ensures EndsOrSteps(insns, c[|c| - 1])
  {
    hide Step, DescribesBody, EndsOrSteps, Decoded, AllModelled, AtGuard, SafeFrom;
    SpecDescribesBody(insns, read, guard, graph, exits);
    var s := BodySpec(insns, graph, exits, guard, read);
    var x := FactsAtGuard(insns, s, c[..k + 1], bound);
    assert Step(insns, c[k], c[k + 1]);
    GuardCompares(insns, read, guard, c[k], c[k + 1]);
    var tail := c[k + 1..];
    ValidLast(insns, c[..k + 2]);
    SafeTail(insns, s.AfterGuard(), Node(Rejected(insns, guard), x), bound, tail);
    forall i | k < i < |c| ensures c[i].pc != read && c[i].pc in graph {
      assert c[i] == tail[i - k - 1];
    }
  }

  // A body the check accepts although a callx on its rejected path clobbers r0 unnoticed.
  const CLOBBER: seq<Insn> := [
    Insn(0x2d, 0x13, 1, 0), Insn(0x85, 0, 0, 1), Insn(0x18, 0, 0, 0), Insn(0, 0, 0, 1), Insn(0x8d, 0, 0, 0), Insn(0x95, 0, 0, 0)]
  const CLOBBER_GRAPH: map<int, seq<int>> := map[0 := [1, 2], 1 := [2], 2 := [4], 4 := [5, 5], 5 := []]

  lemma ClobberStarts()
    ensures Starts(CLOBBER, 0) == {0, 1, 2, 4, 5}
  {
    assert Starts(CLOBBER, 6) == {};
    assert Starts(CLOBBER, 5) == {5};
    assert Starts(CLOBBER, 4) == {4, 5};
    assert Starts(CLOBBER, 2) == {2, 4, 5};
    assert Starts(CLOBBER, 1) == {1, 2, 4, 5};
  }

  lemma ClobberDecoded()
    ensures Unpacked(CLOBBER) && Decoded(CLOBBER, CLOBBER_GRAPH, {5}) && SoleGuard(CLOBBER, 1, 0)
  {
    ClobberStarts();
    hide Starts;
  }

  function ClobberSpec(): Spec<Facts> {
    BodySpec(CLOBBER, CLOBBER_GRAPH, {5}, 0, 1)
  }

  /** The guard is the first instruction. */
  lemma ClobberAtGuard(run: seq<Node<Facts>>)
    requires ClobberSpec().IsRun([Node(0, Unknown())], run)
    ensures run == [Node(0, Unknown())] && !ClobberSpec().Faulty(run[0]) && Distinct(run)
  {
    assert run[0] == Node(0, Unknown()) && ClobberSpec().Halted(run[0]);
    assert |run| > 1 ==> ClobberSpec().Edge(run[0], run[1]);
  }

  /** From its reject edge the walk sees the sentinel set, and no register written after that. */
  lemma ClobberAfterGuard(run: seq<Node<Facts>>)
    requires ClobberSpec().AfterGuard().IsRun([Node(2, Unknown())], run)
    ensures |run| <= 3 && Distinct(run) && (forall i :: 0 <= i < |run| ==> !ClobberSpec().AfterGuard().Faulty(run[i]))
  {
    var s := ClobberSpec().AfterGuard();
    assert run[0] == Node(2, Unknown());
    if |run| > 1 {
      assert s.Edge(run[0], run[1]);
      assert run[1] == Node(4, Unknown()[0 := Some(TWO32)]);
      if |run| > 2 {
        assert s.Edge(run[1], run[2]);
        assert run[2] == Node(5, Unknown()[0 := Some(TWO32)]);
        assert |run| > 3 ==> s.Edge(run[2], run[3]);
      }
    }
  }

  lemma ClobberSafe()
    ensures SafeFrom(ClobberSpec(), Node(0, Unknown()), 3) && SafeFrom(ClobberSpec().AfterGuard(), Node(2, Unknown()), 3)
  {
    var s, start, tail := ClobberSpec(), Node(0, Unknown()), Node(2, Unknown());
    hide ClobberSpec, Distinct;
    forall run | s.IsRun([start], run)
      ensures |run| <= 3 && Distinct(run) && (forall i :: 0 <= i < |run| ==> !s.Faulty(run[i]))
    {
      ClobberAtGuard(run);
    }
    forall run | s.AfterGuard().IsRun([tail], run)
      ensures |run| <= 3 && Distinct(run) && (forall i :: 0 <= i < |run| ==> !s.AfterGuard().Faulty(run[i]))
    {
      ClobberAfterGuard(run);
    }
  }

  lemma ClobberAccepted()
    ensures Accepted(CLOBBER, 1, 0, CLOBBER_GRAPH, {5}, 3)
  {
    ClobberDecoded();
    ClobberSafe();
    var s, start := ClobberSpec(), Node(0, Unknown());
    assert s.guard == 0 && Rejected(CLOBBER, 0) == 2;
    assert s.IsRun([start], [start]) && AtGuard(s, start, Unknown());
    hide SafeFrom, Decoded, SoleGuard, Rejected;
    forall x | AtGuard(s, start, x) ensures SafeFrom(s.AfterGuard(), Node(2, x), 3) {
      var run :| s.IsRun([start], run) && run[|run| - 1] == Node(s.guard, x);
      ClobberAtGuard(run);
    }
    hide AtGuard;
  }

  lemma ClobberRun() returns (c: seq<Machine>)
    ensures |c| == 4 && Execution(CLOBBER, c) && c[0].pc == 0 && c[1].pc == 2
    ensures c[3].pc == 5 && |c[3].regs| == 11 && c[3].regs[0] == 7
  {
    var high := [0, 0, 0, 1, 0, 0, 0, 0, 0, 0, 0];
    var marked, lost := high[0 := TWO32], high[0 := 7];
    c := [Machine(0, high), Machine(2, high), Machine(4, marked), Machine(5, lost)];
    assert Step(CLOBBER, c[0], c[1]);
    assert Step(CLOBBER, c[1], c[2]);
    assert Step(CLOBBER, c[2], c[3]);
    hide Step;
  }

  /** The decoded forms matter here too: a rejected run of this accepted body exits without the sentinel. */
  lemma CallxLosesSentinel() returns (c: seq<Machine>)
    ensures Unpacked(CLOBBER) && Accepted(CLOBBER, 1, 0, CLOBBER_GRAPH, {5}, 3) && !AllModelled(CLOBBER, CLOBBER_GRAPH)
    ensures |c| == 4 && Execution(CLOBBER, c) && c[0].pc == 0 && c[1].pc == 2 == Rejected(CLOBBER, 0)
    ensures c[3].pc in {5} && |c[3].regs| == 11 && c[3].regs[0] == 7
  {
    ClobberDecoded();
    ClobberAccepted();
    hide Accepted, Decoded, Execution;
    c := ClobberRun();
    assert !CLOBBER[4].Modelled() && 4 in CLOBBER_GRAPH;
  }

  /** The facts the first walk records at the guard are true of the registers there. */
  lemma FactsAtGuard(insns: seq<Insn>, s: Spec<Facts>, c: seq<Machine>, bound: nat) returns (x: Facts)
    requires DescribesBody(insns, s) && SafeFrom(s, Node(0, Unknown()), bound)
    requires Execution(insns, c) && c[0].pc == 0 && c[|c| - 1].pc == s.guard
    requires forall j :: 0 <= j < |c| - 1 ==> c[j].pc != s.guard
    ensures AtGuard(s, Node(0, Unknown()), x) && Agree(x, c[|c| - 1].regs)
  {
    hide DescribesBody;
    var run := Simulate(insns, s, Node(0, Unknown()), c);
    x := run[|run| - 1].fact;
    assert run[|run| - 1] == Node(s.guard, x);
  }

  /** The guard's branch is the comparison of the address in r3 with the bound in r1. */
  lemma GuardCompares(insns: seq<Insn>, read: int, guard: int, m: Machine, n: Machine)
    requires 0 <= read <= |insns| && SoleGuard(insns, read, guard)
    requires m.pc == guard && Step(insns, m, n)
    ensures n.regs == m.regs
    ensures m.regs[3] > m.regs[1] ==> n.pc == Rejected(insns, guard)
    ensures m.regs[3] <= m.regs[1] ==> n.pc == guard + 1
  {
    assert insns[guard].Dst() == 3 && insns[guard].Src() == 1;
  }
}
