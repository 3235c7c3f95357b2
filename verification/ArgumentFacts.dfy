/**
  The stack addresses and constants the discovery decoder tracks up to its call sites
  (scripts/check-live-discovery-object.py, call_argument_facts), which the class check looks
  at (scripts/check-discovery-flow-object.py, class_provenance).

  Facts are about registers and about eight-byte stack slots; at a join only what all paths
  agree on is kept.  Calls, and stores whose base is not known, leave the facts about slots as
  they are: the facts are true of every execution in which none of these writes such a slot.
*/
module ArgumentFacts {
  import opened Disasm
  import opened ClassProvenance

  type Known = map<Loc, Argument>
  type Incoming = map<int, Known>

  const ENTRY: Known := map[R(10) := StackAt(0)]

  // ----- the abstract step -----

  function Fact(s: Known, l: Loc): Argument {
    if l in s then s[l] else OtherArgument
  }

  function Note(s: Known, l: Loc, a: Argument): Known {
    if a.OtherArgument? then s - {l} else s[l := a]
  }

  predicate Overlaps(slot: int, from: int, size: int) {
    slot < from + size && from < slot + 8
  }

  /** A store to a known place drops the slots it touches; a whole word is remembered. */
  function Stored(s: Known, from: int, size: nat, a: Argument): Known {
    var kept := map l | l in s && !(l.Slot? && Overlaps(l.offset, from, size)) :: s[l];
    if size == 8 && !a.OtherArgument? then kept[Slot(from) := a] else kept
  }

  function Sum(narrow: bool, a: Argument, amount: Argument): Argument {
    if !amount.Constant? then OtherArgument
    else
      match a
      case Constant(c) => Constant(if narrow then (c + amount.value) % TWO32 else c + amount.value)
      case StackAt(k) => if narrow then OtherArgument else StackAt(k + amount.value)
      case OtherArgument => OtherArgument
  }

  /** The number an addition adds, if it is known; narrow registers are not looked at. */
  function Added(s: Known, narrow: bool, amount: Amount): Argument {
    match amount
    case Literal(n) => Constant(n)
    case Held(r) => if narrow then OtherArgument else Fact(s, R(r))
  }

  /** The fact a move copies; `literal` is the number printed in it. */
  function Moved(s: Known, literal: int, narrow: bool, operand: Operand): Argument {
    match operand
    case Imm(_) => Constant(if narrow then literal % TWO32 else literal)
    case Reg(r) => if narrow then OtherArgument else Fact(s, R(r))
  }

  /** `literals` gives the number printed in the move at a position. */
  function Track(code: Code, literals: int -> int, pc: int, s: Known): Known
    requires 0 <= pc < |code|
  {
    match code[pc]
    case Store(size, base, offset, src, narrow) =>
      var a := Fact(s, R(base));
      if !narrow && a.StackAt? then Stored(s, a.offset + offset, size, Fact(s, R(src))) else s
    case Call(_) => s - {R(0), R(1), R(2), R(3), R(4), R(5)}
    case Bitwise(narrow, op, dst, operand) =>
      Note(s, R(dst), if op == Mov then Moved(s, literals(pc), narrow, operand) else OtherArgument)
    case Add(narrow, dst, amount) => Note(s, R(dst), Sum(narrow, Fact(s, R(dst)), Added(s, narrow, amount)))
    case Load(dst, size, base, offset) =>
      Note(s, R(dst), if size == 8 && base == 10 then Fact(s, Slot(offset)) else OtherArgument)
    case Arith(dst) => s - {R(dst)}
    case OtherWrite(dst) => s - {R(dst)}
    case _ => s
  }

  // ----- the work list -----

  /** `a` claims no more than `b`. */
  ghost predicate Under(a: Known, b: Known) {
    forall l :: l in a ==> l in b && b[l] == a[l]
  }

  function Agreed(a: Known, b: Known): Known {
    map l | l in a && l in b && a[l] == b[l] :: a[l]
  }

  ghost predicate Passes(code: Code, literals: int -> int, inc: Incoming, pc: int)
    requires pc in inc && 0 <= pc < |code|
  {
    forall next :: next in Next(code, pc) ==> next in inc && Under(inc[next], Track(code, literals, pc, inc[pc]))
  }

  ghost predicate Sited(code: Code, inc: Incoming) {
    (forall pc :: pc in inc ==> 0 <= pc < |code|) && 0 in inc && Under(inc[0], ENTRY)
  }

  /** Along every edge the facts behind it are among those that get there. */
  ghost predicate Stable(code: Code, literals: int -> int, inc: Incoming) {
    Sited(code, inc) && forall pc :: pc in inc ==> Passes(code, literals, inc, pc)
  }

  /** As Stable, but for what is still to be looked at. */
  ghost predicate StableBut(code: Code, literals: int -> int, inc: Incoming, open: set<int>) {
    && Sited(code, inc) && (forall pc :: pc in open ==> pc in inc)
    && forall pc :: pc in inc && pc !in open ==> Passes(code, literals, inc, pc)
  }

  /** These facts hold on however much else is known at each place. */
  ghost predicate Floor(code: Code, literals: int -> int, floor: Incoming) {
    && (0 in floor ==> Under(floor[0], ENTRY))
    && forall pc, s :: 0 <= pc < |code| ==> CarriesOn(code, literals, floor, pc, s)
  }

  ghost predicate CarriesOn(code: Code, literals: int -> int, floor: Incoming, pc: int, s: Known)
    requires 0 <= pc < |code|
  {
    (pc in floor ==> Under(floor[pc], s)) ==>
      forall next :: next in Next(code, pc) && next in floor ==> Under(floor[next], Track(code, literals, pc, s))
  }

  ghost predicate AtLeast(inc: Incoming, floor: Incoming) {
    forall pc :: pc in inc && pc in floor ==> Under(floor[pc], inc[pc])
  }

  ghost predicate Complete(code: Code, literals: int -> int, inc: Incoming) {
    forall floor: Incoming :: Floor(code, literals, floor) ==> AtLeast(inc, floor)
  }

  // Every change visits a new place or drops a fact.

  ghost function Volume(inc: Incoming, n: nat): nat {
    if n == 0 then 0 else Volume(inc, n - 1) + if n - 1 in inc then |inc[n - 1]| else 0
  }

  ghost function Unvisited(code: Code, inc: Incoming): set<int> {
    Below(|code|) - inc.Keys
  }

  ghost predicate Less(code: Code, a: Incoming, b: Incoming) {
    || Unvisited(code, a) < Unvisited(code, b)
    || (Unvisited(code, a) == Unvisited(code, b) && Volume(a, |code|) < Volume(b, |code|))
  }

  lemma FewerKeys(a: set<Loc>, b: set<Loc>)
    requires a < b
    ensures |a| < |b|
  {
    var x :| x in b && x !in a;
    assert b == a + (b - a);
  }

  lemma AgreedSmaller(a: Known, b: Known)
    requires Agreed(a, b) != a
    ensures |Agreed(a, b)| < |a|
  {
    var c := Agreed(a, b);
    assert c.Keys <= a.Keys && (c.Keys == a.Keys ==> c == a);
    FewerKeys(c.Keys, a.Keys);
  }

  lemma {:induction false} VolumeLess(inc: Incoming, pc: int, s: Known, n: nat)
    requires pc in inc && |s| < |inc[pc]|
    ensures Volume(inc[pc := s], n) <= Volume(inc, n)
    ensures 0 <= pc < n ==> Volume(inc[pc := s], n) < Volume(inc, n)
    decreases n
  {
    if n > 0 { VolumeLess(inc, pc, s, n - 1); }
  }

  function Merged(inc: Incoming, next: int, after: Known): Incoming {
    inc[next := if next in inc then Agreed(inc[next], after) else after]
  }

  lemma MergedIsLess(code: Code, inc: Incoming, next: int, after: Known)
    requires 0 <= next < |code| && Merged(inc, next, after) != inc
    ensures Less(code, Merged(inc, next, after), inc)
  {
    hide Volume;
    var more := Merged(inc, next, after);
    if next in inc {
      assert inc[next := inc[next]] == inc;
      AgreedSmaller(inc[next], after);
      VolumeLess(inc, next, Agreed(inc[next], after), |code|);
      assert more.Keys == inc.Keys;
    } else {
      assert next in Unvisited(code, inc) && next !in Unvisited(code, more);
      assert Unvisited(code, more) <= Unvisited(code, inc);
    }
  }

  /** What is known of the rest while one place is looked at. */
  ghost predicate Spreading(code: Code, literals: int -> int, inc: Incoming, pc: int, s: Known, j: nat, open: set<int>)
    requires 0 <= pc < |code|
  {
    && pc in inc && j <= |Next(code, pc)| && StableBut(code, literals, inc, open + {pc})
    && (pc in open ||
        (inc[pc] == s && forall i :: 0 <= i < j ==>
           Next(code, pc)[i] in inc && Under(inc[Next(code, pc)[i]], Track(code, literals, pc, s))))
  }

  lemma MergedSpreads(code: Code, literals: int -> int, inc: Incoming, pc: int, s: Known, j: nat, open: set<int>)
    requires Resolved(code) && 0 <= pc < |code| && j < |Next(code, pc)| && Spreading(code, literals, inc, pc, s, j, open)
    ensures var next := Next(code, pc)[j];
            var more := Merged(inc, next, Track(code, literals, pc, s));
            0 <= next < |code| && Spreading(code, literals, more, pc, s, j + 1, if more == inc then open else open + {next})
  {
    var next, after := Next(code, pc)[j], Track(code, literals, pc, s);
    NextInCode(code, pc, next);
    hide Track, Next;
    var more := Merged(inc, next, after);
    assert Under(more[next], after) && (next in inc ==> Under(more[next], inc[next]));
    if more == inc {
      assert inc[next] == more[next];
    } else {
      SpreadsOn(code, literals, inc, pc, next, after, open);
      assert next != pc ==> more[pc] == inc[pc];
    }
  }

  lemma SpreadsOn(code: Code, literals: int -> int, inc: Incoming, pc: int, next: int, after: Known, open: set<int>)
    requires StableBut(code, literals, inc, open + {pc}) && 0 <= next < |code| && pc in inc
    ensures StableBut(code, literals, Merged(inc, next, after), open + {next} + {pc})
  {
    hide Track, Next;
    var more := Merged(inc, next, after);
    assert next in inc ==> Under(more[next], inc[next]);
    forall q | q in more && q !in open + {next} + {pc} ensures Passes(code, literals, more, q) {
      assert Passes(code, literals, inc, q) && more[q] == inc[q];
    }
  }

  lemma SpreadDone(code: Code, literals: int -> int, inc: Incoming, pc: int, s: Known, open: set<int>)
    requires 0 <= pc < |code| && Spreading(code, literals, inc, pc, s, |Next(code, pc)|, open)
    ensures StableBut(code, literals, inc, open)
  {
    hide Track, Next;
    if pc !in open {
      assert Passes(code, literals, inc, pc);
    }
    forall q | q in inc && q !in open ensures Passes(code, literals, inc, q) {
      assert q != pc ==> q !in open + {pc};
    }
  }

  lemma MergedComplete(code: Code, literals: int -> int, inc: Incoming, pc: int, s: Known, next: int)
    requires 0 <= pc < |code| && next in Next(code, pc) && Complete(code, literals, inc)
    requires forall floor: Incoming :: Floor(code, literals, floor) && pc in floor ==> Under(floor[pc], s)
    ensures Complete(code, literals, Merged(inc, next, Track(code, literals, pc, s)))
  {
    hide Track, Next;
    var after := Track(code, literals, pc, s);
    forall floor: Incoming | Floor(code, literals, floor) ensures AtLeast(Merged(inc, next, after), floor) {
      assert CarriesOn(code, literals, floor, pc, s) && AtLeast(inc, floor);
    }
  }

  ghost function Elements(s: seq<int>): set<int> {
    set x | x in s
  }

  /** Passes the facts at one place on to its successors; whoever learns something is looked at again. */
  method Spread(code: Code, literals: int -> int, inc0: Incoming, rest: seq<int>, pc: int) returns (inc: Incoming, pending: seq<int>)
    requires Resolved(code) && 0 <= pc < |code| && pc in inc0
    requires StableBut(code, literals, inc0, Elements(rest) + {pc}) && Complete(code, literals, inc0)
    ensures StableBut(code, literals, inc, Elements(pending)) && Complete(code, literals, inc)
    ensures (inc == inc0 && pending == rest) || Less(code, inc, inc0)
  {
    inc, pending := inc0, rest;
    var s := inc[pc];
    var after, nexts := Track(code, literals, pc, s), Next(code, pc);
    assert Spreading(code, literals, inc, pc, s, 0, Elements(pending));
    assert forall floor: Incoming :: Floor(code, literals, floor) && pc in floor ==> Under(floor[pc], s) by {
      assert forall floor: Incoming :: Floor(code, literals, floor) ==> AtLeast(inc0, floor);
    }
    hide Track, Next, Spreading, Complete, StableBut, Less, Floor, Under, Merged;
    for j := 0 to |nexts|
      invariant Spreading(code, literals, inc, pc, s, j, Elements(pending)) && Complete(code, literals, inc)
      invariant (inc == inc0 && pending == rest) || Less(code, inc, inc0)
    {
      var next := nexts[j];
      MergedSpreads(code, literals, inc, pc, s, j, Elements(pending));
      MergedComplete(code, literals, inc, pc, s, next);
      var more := Merged(inc, next, after);
      if more != inc {
        MergedIsLess(code, inc, next, after);
        LessStill(code, more, inc, inc0);
        assert Elements(pending + [next]) == Elements(pending) + {next};
        inc, pending := more, pending + [next];
      }
    }
    SpreadDone(code, literals, inc, pc, s, Elements(pending));
  }

  lemma LessStill(code: Code, a: Incoming, b: Incoming, c: Incoming)
    requires Less(code, a, b) && (b == c || Less(code, b, c))
    ensures Less(code, a, c)
  {
    hide Volume, Unvisited;
  }

  /** The facts at every place that is reached: stable, and with all that is there on every path. */
  method CallArgumentFacts(code: Code, literals: int -> int) returns (inc: Incoming)
    requires Resolved(code)
    ensures code == [] ==> inc == map[]
    ensures code != [] ==> Stable(code, literals, inc)
    ensures Complete(code, literals, inc)
  {
    if code == [] {
      return map[];
    }
    inc := map[0 := ENTRY];
    var pending := [0];
    assert Elements([0]) == {0};
    hide Track, Next, Floor, Volume, Less;
    while pending != []
      invariant StableBut(code, literals, inc, Elements(pending)) && Complete(code, literals, inc)
      decreases Unvisited(code, inc), Volume(inc, |code|), |pending|
    {
      hide StableBut, Complete;
      var pc := pending[|pending| - 1];
      var rest := pending[..|pending| - 1];
      assert Elements(pending) == Elements(rest) + {pc} by { assert pending == rest + [pc]; }
      OpenIsSited(code, literals, inc, Elements(pending), pc);
      ghost var before := inc;
      inc, pending := Spread(code, literals, inc, rest, pc);
      LessMeans(code, inc, before);
    }
    assert Elements([]) == {};
  }

  lemma OpenIsSited(code: Code, literals: int -> int, inc: Incoming, open: set<int>, pc: int)
    requires StableBut(code, literals, inc, open) && pc in open
    ensures pc in inc && 0 <= pc < |code|
  {}

  lemma {:induction false} LessMeans(code: Code, a: Incoming, b: Incoming)
    ensures Less(code, a, b) <==> Unvisited(code, a) < Unvisited(code, b)
                                  || (Unvisited(code, a) == Unvisited(code, b) && Volume(a, |code|) < Volume(b, |code|))
  {}

  // ----- what the facts say of a machine -----

  /** `base` is where the frame ends. */
  ghost predicate Means(env: Env, base: int, a: Argument, v: bv64) {
    match a
    case StackAt(k) => env.number(v) == (base + k) % TWO64
    case Constant(c) => env.number(v) == c % TWO64
    case OtherArgument => true
  }

  /** Values count as 64-bit words do, and those that count an address of the frame point there. */
  ghost predicate Coherent(env: Env, base: int) {
    && (forall v :: 0 <= env.number(v) < TWO64)
    && (forall v {:trigger env.number(v & 0xffff_ffff)} :: env.number(v & 0xffff_ffff) == env.number(v) % TWO32)
    && (forall v, k :: InFrame(k) && env.number(v) == (base + k) % TWO64 ==> env.frame(v) == At(k))
  }

  /** Moves load what is printed. */
  ghost predicate Printed(code: Code, env: Env, literals: int -> int) {
    forall pc :: 0 <= pc < |code| && code[pc].Bitwise? && code[pc].op == Mov && code[pc].operand.Imm?
      ==> env.number(code[pc].operand.value) == literals(pc) % TWO64
  }

  function Written(i: Insn): set<int> {
    match i
    case Bitwise(_, _, dst, _) => {dst}
    case Load(dst, _, _, _) => {dst}
    case Add(_, dst, _) => {dst}
    case Arith(dst) => {dst}
    case OtherWrite(dst) => {dst}
    case Call(_) => {0, 1, 2, 3, 4, 5}
    case _ => {}
  }

  ghost predicate FrameReadOnly(code: Code) {
    forall pc :: 0 <= pc < |code| ==> 10 !in Written(code[pc])
  }

  ghost predicate WordAt(m: Machine, o: int, w: bv64) {
    forall b: nat {:trigger Byte(w, b)} :: b < 8 ==> m.stack(o + b) == Byte(w, b)
  }

  ghost predicate SlotMeans(env: Env, base: int, m: Machine, o: int, a: Argument) {
    a.OtherArgument? || exists w :: WordAt(m, o, w) && Means(env, base, a, w)
  }

  ghost predicate RegistersTrue(env: Env, base: int, s: Known, m: Machine) {
    |m.regs| == 11 && forall r: Register :: R(r) in s ==> Means(env, base, s[R(r)], m.regs[r])
  }

  ghost predicate SlotsTrue(env: Env, base: int, s: Known, m: Machine) {
    forall o :: Slot(o) in s ==> SlotMeans(env, base, m, o, s[Slot(o)])
  }

  ghost predicate FactsTrue(env: Env, base: int, s: Known, m: Machine) {
    && RegistersTrue(env, base, s, m) && SlotsTrue(env, base, s, m)
    && env.number(m.regs[10]) == base
  }

  // ----- where they can go wrong -----

  /** An instruction that may write the frame without a slot being dropped. */
  ghost predicate Unseen(s: Known, i: Insn) {
    match i
    case Store(_, base, _, _, narrow) => narrow || !Fact(s, R(base)).StackAt?
    case Call(_) => true
    case OtherStore => true
    case OtherWrite(_) => true
    case Other => true
    case _ => false
  }

  /** No such instruction writes a slot that holds a fact. */
  ghost predicate Undisturbed(code: Code, inc: Incoming, m: Machine, n: Machine) {
    m.at in inc && 0 <= m.at < |code| && Unseen(inc[m.at], code[m.at]) ==>
      forall o :: Slot(o) in inc[m.at] ==> SameWord(m, n, o)
  }

  ghost predicate SameWord(m: Machine, n: Machine, o: int) {
    forall x {:trigger n.stack(x)} :: o <= x < o + 8 ==> n.stack(x) == m.stack(x)
  }

  /** The pointers and sizes the class check looks at are ones the machine has. */
  ghost predicate Usable(s: Known, i: Insn) {
    match i
    case Store(_, base, _, _, _) => FrameOffset(Fact(s, R(base)))
    case Call(callee) =>
      callee != Lookup && callee != OtherCallee ==>
        var size := Fact(s, R(SizeRegister(callee)));
        FrameOffset(Fact(s, R(1))) && (size.Constant? ==> 0 <= size.value < TWO64)
    case _ => true
  }

  ghost predicate FrameOffset(a: Argument) {
    a.StackAt? ==> InFrame(a.offset)
  }

  ghost predicate AllUsable(code: Code, inc: Incoming) {
    forall pc :: pc in inc && 0 <= pc < |code| ==> Usable(inc[pc], code[pc])
  }

  // ----- one step -----

  lemma SumMeans(env: Env, base: int, narrow: bool, a: Argument, amount: Argument, x: bv64, y: int, z: bv64)
    requires Coherent(env, base) && Means(env, base, a, x)
    requires amount.Constant? ==> y % TWO64 == amount.value % TWO64
    requires env.number(z) == (env.number(x) + y) % (if narrow then TWO32 else TWO64)
    ensures Means(env, base, Sum(narrow, a, amount), z)
  {
    if amount.Constant? && !a.OtherArgument? {
      var p := if a.Constant? then a.value else base + a.offset;
      SameModulo(p, y, amount.value);
      assert env.number(x) == p % TWO64;
      if a.Constant? && narrow {
        assert env.number(z) == (p + amount.value) % TWO32;
      } else if !narrow {
        assert env.number(z) == (p + amount.value) % TWO64;
        assert a.StackAt? ==> p + amount.value == base + (a.offset + amount.value);
      }
    }
  }

  lemma SameModulo(p: int, y: int, c: int)
    requires y % TWO64 == c % TWO64
    ensures (p % TWO64 + y) % TWO64 == (p + c) % TWO64
    ensures (p % TWO64 + y) % TWO32 == (p + c) % TWO32
    ensures (p + c) % TWO32 % TWO64 == (p + c) % TWO32
  {
    var k := y / TWO64 - c / TWO64 - p / TWO64;
    assert p % TWO64 + y == p + c + k * TWO64;
    WholeTurns(p + c, k);
    TwiceModulo(p + c);
  }

  lemma WholeTurns(x: int, k: int)
    ensures (x + k * TWO64) % TWO64 == x % TWO64
    ensures (x + k * TWO64) % TWO32 == x % TWO32
  {
    assert k * TWO64 == (k * TWO32) * TWO32;
  }

  lemma MovedMeans(env: Env, base: int, s: Known, code: Code, literals: int -> int, m: Machine, n: Machine)
    requires Coherent(env, base) && Printed(code, env, literals) && RegistersTrue(env, base, s, m)
    requires Step(code, env, m, n) && code[m.at].Bitwise? && code[m.at].op == Mov
    ensures var i := code[m.at];
            Means(env, base, Moved(s, literals(m.at), i.narrow, i.operand), n.regs[i.dst])
  {
    var i := code[m.at];
    BitwiseResult(code, env, m, n);
    hide Step, Effect;
    if i.operand.Imm? && i.narrow {
      var v := i.operand.value;
      assert env.number(v & 0xffff_ffff) == env.number(v) % TWO32;
      TwiceModulo(literals(m.at));
    }
  }

  lemma TwiceModulo(c: int)
    ensures c % TWO64 % TWO32 == c % TWO32 && c % TWO32 % TWO64 == c % TWO32
  {
    assert c % TWO64 == c - c / TWO64 * TWO64;
  }

  /** The fact a step leaves about the register it computes. */
  function Result(s: Known, literal: int, i: Insn): Argument {
    match i
    case Bitwise(narrow, op, dst, operand) => if op == Mov then Moved(s, literal, narrow, operand) else OtherArgument
    case Add(narrow, dst, amount) => Sum(narrow, Fact(s, R(dst)), Added(s, narrow, amount))
    case Load(dst, size, base, offset) => if size == 8 && base == 10 then Fact(s, Slot(offset)) else OtherArgument
    case _ => OtherArgument
  }

  lemma RegistersAfter(code: Code, literals: int -> int, pc: int, s: Known, r: Register)
    requires 0 <= pc < |code|
    ensures var i, after := code[pc], Track(code, literals, pc, s);
            Fact(after, R(r)) == if r !in Written(i) then Fact(s, R(r)) else Result(s, literals(pc), i)
  {}

  lemma SlotsAfter(code: Code, literals: int -> int, pc: int, s: Known, o: int)
    requires 0 <= pc < |code|
    ensures var i, after := code[pc], Track(code, literals, pc, s);
            Fact(after, Slot(o)) ==
            if i.Store? && !Unseen(s, i) then
              var from := Fact(s, R(i.base)).offset + i.offset;
              if i.size == 8 && o == from then Fact(s, R(i.src))
              else if Overlaps(o, from, i.size) then OtherArgument
              else Fact(s, Slot(o))
            else Fact(s, Slot(o))
  {}

  lemma StepWrites(code: Code, env: Env, m: Machine, n: Machine)
    requires Step(code, env, m, n)
    ensures SameRegs(m, n, Written(code[m.at]))
  {}

  lemma FrameEnd(env: Env, base: int, v: bv64)
    requires Coherent(env, base) && env.number(v) == base
    ensures env.frame(v) == At(0)
  {
    assert InFrame(0) && (base + 0) % TWO64 == base;
  }

  lemma LoadMeans(code: Code, env: Env, base: int, s: Known, m: Machine, n: Machine)
    requires Coherent(env, base) && FactsTrue(env, base, s, m) && Step(code, env, m, n)
    requires code[m.at].Load? && code[m.at].size == 8 && code[m.at].base == 10 && Slot(code[m.at].offset) in s
    ensures Means(env, base, s[Slot(code[m.at].offset)], n.regs[code[m.at].dst])
  {
    var i := code[m.at];
    FrameEnd(env, base, m.regs[10]);
    assert SlotMeans(env, base, m, i.offset, s[Slot(i.offset)]);
    if s[Slot(i.offset)].OtherArgument? { return; }
    var w :| WordAt(m, i.offset, w) && Means(env, base, s[Slot(i.offset)], w);
    forall b: nat | b < 8 ensures Byte(n.regs[i.dst], b) == Byte(w, b) {
      assert m.stack(i.offset + b) == Byte(w, b);
    }
    BytesDecide(n.regs[i.dst], w);
  }

  lemma AddMeans(code: Code, env: Env, base: int, s: Known, m: Machine, n: Machine)
    requires Coherent(env, base) && RegistersTrue(env, base, s, m) && Step(code, env, m, n) && code[m.at].Add?
    ensures var i := code[m.at];
            Means(env, base, Sum(i.narrow, Fact(s, R(i.dst)), Added(s, i.narrow, i.amount)), n.regs[i.dst])
  {
    var i := code[m.at];
    SumMeans(env, base, i.narrow, Fact(s, R(i.dst)), Added(s, i.narrow, i.amount),
             m.regs[i.dst], AmountOf(env, m, i.amount), n.regs[i.dst]);
  }

  lemma ResultMeans(code: Code, env: Env, base: int, literals: int -> int, s: Known, m: Machine, n: Machine)
    requires Coherent(env, base) && Printed(code, env, literals) && FactsTrue(env, base, s, m) && Step(code, env, m, n)
    ensures var i := code[m.at];
            !i.Call? ==> forall r: Register :: r in Written(i) ==> Means(env, base, Result(s, literals(m.at), i), n.regs[r])
  {
    var i := code[m.at];
    if i.Bitwise? && i.op == Mov {
      MovedMeans(env, base, s, code, literals, m, n);
    } else if i.Load? && i.size == 8 && i.base == 10 && Slot(i.offset) in s {
      LoadMeans(code, env, base, s, m, n);
    } else if i.Add? {
      AddMeans(code, env, base, s, m, n);
    }
    hide Coherent, Printed, Step, Means;
  }

  lemma RegistersStep(code: Code, env: Env, base: int, literals: int -> int, s: Known, m: Machine, n: Machine)
    requires Coherent(env, base) && Printed(code, env, literals) && FactsTrue(env, base, s, m) && Step(code, env, m, n)
    ensures RegistersTrue(env, base, Track(code, literals, m.at, s), n)
  {
    StepWrites(code, env, m, n);
    ResultMeans(code, env, base, literals, s, m, n);
    hide Coherent, Printed, Effect, Means, SlotsTrue, Next;
    var after := Track(code, literals, m.at, s);
    forall r: Register | R(r) in after ensures Means(env, base, after[R(r)], n.regs[r]) {
      RegistersAfter(code, literals, m.at, s, r);
    }
  }

  lemma SlotKept(env: Env, base: int, m: Machine, n: Machine, o: int, a: Argument)
    requires SlotMeans(env, base, m, o, a) && SameWord(m, n, o)
    ensures SlotMeans(env, base, n, o, a)
  {
    hide Means, Byte;
    if a.OtherArgument? { return; }
    var w :| WordAt(m, o, w) && Means(env, base, a, w);
    assert WordAt(n, o, w) by {
      forall b: nat | b < 8 ensures n.stack(o + b) == Byte(w, b) {
        assert m.stack(o + b) == Byte(w, b);
      }
    }
  }

  lemma PointsAt(env: Env, base: int, a: Argument, v: bv64)
    requires Coherent(env, base) && Means(env, base, a, v) && a.StackAt? && InFrame(a.offset)
    ensures env.frame(v) == At(a.offset)
  {}

  /** A store through a known pointer writes where the facts say. */
  lemma StoreWrites(code: Code, env: Env, base: int, s: Known, m: Machine, n: Machine)
    requires Coherent(env, base) && RegistersTrue(env, base, s, m) && Step(code, env, m, n)
    requires code[m.at].Store? && !Unseen(s, code[m.at]) && Usable(s, code[m.at])
    ensures var i := code[m.at];
            StackWritten(m, n, Fact(s, R(i.base)).offset + i.offset, i.size, m.regs[i.src])
  {
    var i := code[m.at];
    PointsAt(env, base, s[R(i.base)], m.regs[i.base]);
    hide Coherent, Means, Byte;
  }

  lemma StoredSlot(env: Env, base: int, m: Machine, n: Machine, o: int, a: Argument, v: bv64)
    requires StackWritten(m, n, o, 8, v) && Means(env, base, a, v)
    ensures SlotMeans(env, base, n, o, a)
  {
    hide Means, Byte;
    assert WordAt(n, o, v) by {
      forall b: nat | b < 8 ensures n.stack(o + b) == Byte(v, b) {}
    }
  }

  lemma QuietStep(code: Code, env: Env, s: Known, m: Machine, n: Machine)
    requires Step(code, env, m, n) && !code[m.at].Store? && !Unseen(s, code[m.at])
    ensures SameStackOutside(m, n, 0, 0)
  {}

  lemma SlotStep(code: Code, env: Env, base: int, literals: int -> int, s: Known, m: Machine, n: Machine, o: int)
    requires Coherent(env, base) && FactsTrue(env, base, s, m) && Step(code, env, m, n) && Usable(s, code[m.at])
    requires Unseen(s, code[m.at]) && Slot(o) in s ==> SameWord(m, n, o)
    requires Slot(o) in Track(code, literals, m.at, s)
    ensures SlotMeans(env, base, n, o, Track(code, literals, m.at, s)[Slot(o)])
  {
    var i := code[m.at];
    SlotsAfter(code, literals, m.at, s, o);
    if Track(code, literals, m.at, s)[Slot(o)].OtherArgument? { return; }
    if i.Store? && !Unseen(s, i) {
      StoreWrites(code, env, base, s, m, n);
      hide Coherent, Effect, Step, Track, SlotMeans, Means;
      var from := Fact(s, R(i.base)).offset + i.offset;
      if i.size == 8 && o == from {
        StoredSlot(env, base, m, n, o, Fact(s, R(i.src)), m.regs[i.src]);
      } else {
        SlotKept(env, base, m, n, o, s[Slot(o)]);
      }
    } else {
      if !Unseen(s, i) { QuietStep(code, env, s, m, n); }
      SlotKept(env, base, m, n, o, s[Slot(o)]);
    }
  }

  lemma FactsStep(code: Code, env: Env, base: int, literals: int -> int, s: Known, m: Machine, n: Machine)
    requires Coherent(env, base) && Printed(code, env, literals) && FrameReadOnly(code)
    requires FactsTrue(env, base, s, m) && Step(code, env, m, n) && Usable(s, code[m.at])
    requires Unseen(s, code[m.at]) ==> forall o :: Slot(o) in s ==> SameWord(m, n, o)
    ensures FactsTrue(env, base, Track(code, literals, m.at, s), n)
  {
    RegistersStep(code, env, base, literals, s, m, n);
    StepWrites(code, env, m, n);
    hide Coherent, Printed, Effect, Next, Track, Unseen, Usable, SlotMeans, RegistersTrue;
    var after := Track(code, literals, m.at, s);
    forall o | Slot(o) in after ensures SlotMeans(env, base, n, o, after[Slot(o)]) {
      SlotStep(code, env, base, literals, s, m, n, o);
    }
    assert 10 !in Written(code[m.at]);
  }

  /** Different values count differently. */
  ghost predicate Injective(env: Env) {
    forall v, w :: env.number(v) == env.number(w) ==> v == w
  }

  /** An unseen write keeps the facts true exactly if it changes no slot that holds one. */
  lemma UnseenStepIff(code: Code, env: Env, base: int, literals: int -> int, s: Known, m: Machine, n: Machine)
    requires Coherent(env, base) && Injective(env) && Printed(code, env, literals) && FrameReadOnly(code)
    requires FactsTrue(env, base, s, m) && Step(code, env, m, n) && Usable(s, code[m.at]) && Unseen(s, code[m.at])
    requires forall l :: l in s ==> !s[l].OtherArgument?
    ensures FactsTrue(env, base, Track(code, literals, m.at, s), n)
            <==> forall o :: Slot(o) in s ==> SameWord(m, n, o)
  {
    var after := Track(code, literals, m.at, s);
    if FactsTrue(env, base, after, n) {
      forall o | Slot(o) in s ensures SameWord(m, n, o) {
        SlotsAfter(code, literals, m.at, s, o);
        hide Track, Step, Coherent, Printed, SameWord, WordAt, Means;
        assert SlotMeans(env, base, m, o, s[Slot(o)]) && SlotMeans(env, base, n, o, s[Slot(o)]);
        SlotDetermined(env, base, m, n, o, s[Slot(o)]);
      }
    } else {
      hide Track, Step, Coherent, Printed, FactsTrue;
      if forall o :: Slot(o) in s ==> SameWord(m, n, o) {
        FactsStep(code, env, base, literals, s, m, n);
      }
    }
  }

  lemma SlotDetermined(env: Env, base: int, m: Machine, n: Machine, o: int, a: Argument)
    requires Injective(env) && !a.OtherArgument? && SlotMeans(env, base, m, o, a) && SlotMeans(env, base, n, o, a)
    ensures SameWord(m, n, o)
  {
    hide Byte;
    var v :| WordAt(m, o, v) && Means(env, base, a, v);
    var w :| WordAt(n, o, w) && Means(env, base, a, w);
    assert v == w;
    forall x | o <= x < o + 8 ensures n.stack(x) == m.stack(x) {
      var b: nat := x - o;
      assert m.stack(o + b) == Byte(v, b) && n.stack(o + b) == Byte(v, b);
    }
  }

  // ----- whole executions -----

  /** The code runs as the facts were computed for it. */
  ghost predicate Setting(code: Code, env: Env, base: int, literals: int -> int, inc: Incoming) {
    && Coherent(env, base) && Printed(code, env, literals) && FrameReadOnly(code)
    && Stable(code, literals, inc) && AllUsable(code, inc)
  }

  /** An execution that starts with the frame pointer in r10. */
  ghost predicate Enters(code: Code, env: Env, base: int, run: seq<Machine>) {
    Execution(code, env, run) && env.number(run[0].regs[10]) == base
  }

  ghost predicate UndisturbedTo(code: Code, inc: Incoming, run: seq<Machine>, k: nat)
    requires k < |run|
  {
    forall i :: 0 <= i < k ==> Undisturbed(code, inc, run[i], run[i + 1])
  }

  lemma UnderTrue(env: Env, base: int, a: Known, b: Known, m: Machine)
    requires Under(a, b) && FactsTrue(env, base, b, m)
    ensures FactsTrue(env, base, a, m)
  {
    hide Means, SlotMeans;
  }

  lemma EntryTrue(env: Env, base: int, m: Machine)
    requires Coherent(env, base) && |m.regs| == 11 && env.number(m.regs[10]) == base
    ensures FactsTrue(env, base, ENTRY, m)
  {}

  lemma {:induction false} FactsAlong(code: Code, env: Env, base: int, literals: int -> int, inc: Incoming,
                                      run: seq<Machine>, k: nat)
    requires Setting(code, env, base, literals, inc) && Enters(code, env, base, run) && k < |run|
    requires UndisturbedTo(code, inc, run, k)
    ensures run[k].at in inc && 0 <= run[k].at < |code| && FactsTrue(env, base, inc[run[k].at], run[k])
    decreases k
  {
    hide Coherent, Printed, FrameReadOnly, Step, Track, FactsTrue, Under, Unseen, Usable, SameWord;
    if k == 0 {
      EntryTrue(env, base, run[0]);
      UnderTrue(env, base, inc[0], ENTRY, run[0]);
    } else {
      FactsAlong(code, env, base, literals, inc, run, k - 1);
      var m, n := run[k - 1], run[k];
      assert Step(code, env, m, n) && Undisturbed(code, inc, m, n) && Usable(inc[m.at], code[m.at]);
      StepGoes(code, env, m, n);
      FactsStep(code, env, base, literals, inc[m.at], m, n);
      assert Passes(code, literals, inc, m.at);
      UnderTrue(env, base, inc[n.at], Track(code, literals, m.at, inc[m.at]), n);
    }
  }

  lemma StepGoes(code: Code, env: Env, m: Machine, n: Machine)
    requires Step(code, env, m, n)
    ensures 0 <= m.at < |code| && n.at in Next(code, m.at)
  {}

  /** The class check is given these facts. */
  ghost predicate Supplies(plan: Plan, inc: Incoming) {
    forall pc, r: Register :: pc in inc ==> ArgumentOf(plan, pc, r) == Fact(inc[pc], R(r))
  }

  lemma ArgumentsAt(plan: Plan, code: Code, env: Env, base: int, inc: Incoming, m: Machine)
    requires Coherent(env, base) && Supplies(plan, inc) && AllUsable(code, inc)
    requires m.at in inc && FactsTrue(env, base, inc[m.at], m)
    ensures ArgumentsHold(plan, code, env, m)
  {
    hide SlotsTrue, ArgumentOf;
    var s := inc[m.at];
    FrameEnd(env, base, m.regs[10]);
    if 0 <= m.at < |code| {
      assert Usable(s, code[m.at]);
      match code[m.at]
      case Store(_, r, _, _, _) => PointerTrue(plan, env, base, inc, m, r);
      case Call(callee) =>
        if callee != Lookup && callee != OtherCallee {
          PointerTrue(plan, env, base, inc, m, 1);
          assert CountHolds(plan, env, m, SizeRegister(callee));
        }
      case _ =>
    }
  }

  lemma PointerTrue(plan: Plan, env: Env, base: int, inc: Incoming, m: Machine, r: Register)
    requires Coherent(env, base) && Supplies(plan, inc) && m.at in inc
    requires RegistersTrue(env, base, inc[m.at], m) && FrameOffset(Fact(inc[m.at], R(r)))
    ensures PointerHolds(plan, env, m, r)
  {
    hide Coherent, ArgumentOf;
    var a := Fact(inc[m.at], R(r));
    assert ArgumentOf(plan, m.at, r) == a;
    if a.StackAt? {
      PointsAt(env, base, a, m.regs[r]);
    }
  }

  /** Where no unseen write meets a slot with a fact, all that the class check looks at is true. */
  lemma ArgumentsAreTrue(plan: Plan, code: Code, env: Env, base: int, literals: int -> int, inc: Incoming,
                         run: seq<Machine>)
    requires Setting(code, env, base, literals, inc) && Supplies(plan, inc)
    requires Enters(code, env, base, run) && UndisturbedTo(code, inc, run, |run| - 1)
    ensures Tracked(plan, code, env, run)
  {
    hide Coherent, Printed, FrameReadOnly, Step, Undisturbed, FactsTrue, Supplies, ArgumentsHold, AllUsable;
    forall i | 0 <= i < |run| ensures 0 <= run[i].at < |code| && ArgumentsHold(plan, code, env, run[i]) {
      FactsAlong(code, env, base, literals, inc, run, i);
      ArgumentsAt(plan, code, env, base, inc, run[i]);
    }
  }

  // ----- a condition on the code -----

  ghost predicate NoSlots(s: Known) {
    forall o :: Slot(o) !in s
  }

  ghost predicate ClearOf(s: Known, from: int, size: int) {
    forall o :: Slot(o) in s ==> !Overlaps(o, from, size)
  }

  /** What is written here is known to be clear of the slots that hold facts. */
  ghost predicate Apart(s: Known, i: Insn) {
    match i
    case Store(size, base, offset, _, narrow) =>
      var a := Fact(s, R(base));
      if a.StackAt? then narrow ==> ClearOf(s, a.offset + offset, size) else NoSlots(s)
    case Call(Lookup) => true
    case Call(OtherCallee) => NoSlots(s)
    case Call(callee) =>
      var a, size := Fact(s, R(1)), Fact(s, R(SizeRegister(callee)));
      if a.StackAt? && size.Constant? then ClearOf(s, a.offset, size.value) else NoSlots(s)
    case OtherStore => NoSlots(s)
    case OtherWrite(_) => NoSlots(s)
    case Other => NoSlots(s)
    case _ => true
  }

  ghost predicate AllApart(code: Code, inc: Incoming) {
    forall pc :: pc in inc && 0 <= pc < |code| ==> Apart(inc[pc], code[pc])
  }

  lemma ClearWords(s: Known, m: Machine, n: Machine, from: int, size: int, o: int)
    requires ClearOf(s, from, size) && Slot(o) in s && SameStackOutside(m, n, from, size)
    ensures SameWord(m, n, o)
  {}

  lemma ApartStep(code: Code, env: Env, base: int, s: Known, m: Machine, n: Machine, o: int)
    requires Coherent(env, base) && RegistersTrue(env, base, s, m) && Step(code, env, m, n)
    requires Usable(s, code[m.at]) && Apart(s, code[m.at]) && Unseen(s, code[m.at]) && Slot(o) in s
    ensures SameWord(m, n, o)
  {
    var i := code[m.at];
    if i.Store? {
      var a := s[R(i.base)];
      PointsAt(env, base, a, m.regs[i.base]);
      ClearWords(s, m, n, a.offset + i.offset, i.size, o);
    } else if i.callee != Lookup {
      var a, size := s[R(1)], s[R(SizeRegister(i.callee))];
      PointsAt(env, base, a, m.regs[1]);
      assert Means(env, base, size, m.regs[SizeRegister(i.callee)]);
      ClearWords(s, m, n, a.offset, size.value, o);
    }
  }

  lemma {:induction false} ApartIsUndisturbed(code: Code, env: Env, base: int, literals: int -> int, inc: Incoming,
                                              run: seq<Machine>, k: nat)
    requires Setting(code, env, base, literals, inc) && Enters(code, env, base, run) && k < |run|
    requires AllApart(code, inc)
    ensures UndisturbedTo(code, inc, run, k)
    decreases k
  {
    hide Coherent, Printed, FrameReadOnly, Step, Stable, Unseen, Usable, Apart, SameWord;
    if k > 0 {
      ApartIsUndisturbed(code, env, base, literals, inc, run, k - 1);
      FactsAlong(code, env, base, literals, inc, run, k - 1);
      var m, n := run[k - 1], run[k];
      assert Step(code, env, m, n) && Usable(inc[m.at], code[m.at]) && Apart(inc[m.at], code[m.at]);
      if Unseen(inc[m.at], code[m.at]) {
        forall o | Slot(o) in inc[m.at] ensures SameWord(m, n, o) {
          ApartStep(code, env, base, inc[m.at], m, n, o);
        }
      }
    }
  }

  /** Checked before the code runs: all writes clear of the slots that hold facts. */
  lemma ApartIsTrue(plan: Plan, code: Code, env: Env, base: int, literals: int -> int, inc: Incoming, run: seq<Machine>)
    requires Setting(code, env, base, literals, inc) && Supplies(plan, inc) && AllApart(code, inc)
    requires Enters(code, env, base, run)
    ensures Tracked(plan, code, env, run)
  {
    hide Coherent, Printed, FrameReadOnly, Step, Stable, AllUsable, Supplies, AllApart, UndisturbedTo;
    ApartIsUndisturbed(code, env, base, literals, inc, run, |run| - 1);
    ArgumentsAreTrue(plan, code, env, base, literals, inc, run);
  }

  // ----- a fact that is false -----

  /** The frame pointer is spilled, and a helper reads user memory over it. */
  const SPILL: Code := [
    Bitwise(false, Mov, 6, Reg(10)),
    Store(8, 10, -8, 6, false),
    Bitwise(false, Mov, 1, Reg(10)),
    Add(false, 1, Literal(-8)),
    Bitwise(false, Mov, 2, Imm(8)),
    Call(ReadUser),
    Load(2, 8, 10, -8),
    Exit]

  const SPILLED: Known := map[R(10) := StackAt(0), Slot(-8) := StackAt(0)]

  /** What is there at each place of SPILL on every path. */
  function SpillFloor(): Incoming {
    map[0 := ENTRY,
        1 := map[R(10) := StackAt(0), R(6) := StackAt(0)],
        2 := SPILLED, 3 := SPILLED, 4 := SPILLED, 5 := SPILLED, 6 := SPILLED,
        7 := map[R(2) := StackAt(0)]]
  }

  lemma SpillCarries(literals: int -> int, pc: int, s: Known)
    requires 0 <= pc < 8
    ensures CarriesOn(SPILL, literals, SpillFloor(), pc, s)
  {
    if pc < 7 && Under(SpillFloor()[pc], s) {
      assert Next(SPILL, pc) == [pc + 1];
      SpillOn(literals, pc, s);
      hide Track, Under;
    }
  }

  lemma SpillOn(literals: int -> int, pc: int, s: Known)
    requires 0 <= pc < 7 && Under(SpillFloor()[pc], s)
    ensures Under(SpillFloor()[pc + 1], Track(SPILL, literals, pc, s))
  {
    var floor := SpillFloor()[pc];
    assert R(10) in floor && (pc == 1 ==> R(6) in floor) && (pc > 1 ==> Slot(-8) in floor);
    if 2 <= pc <= 5 {
      SpillKeeps(literals, pc, s);
      hide Track;
    }
  }

  lemma SpillKeeps(literals: int -> int, pc: int, s: Known)
    requires 0 <= pc < 7 && pc != 1
    ensures var after := Track(SPILL, literals, pc, s);
            forall l :: l in s && (l.Slot? || l == R(10)) ==> l in after && after[l] == s[l]
  {}

  lemma {:induction false} SpillReached(literals: int -> int, inc: Incoming, k: nat)
    requires Stable(SPILL, literals, inc) && k < 8
    ensures k in inc
  {
    if k > 0 {
      SpillReached(literals, inc, k - 1);
      assert Passes(SPILL, literals, inc, k - 1) && k in Next(SPILL, k - 1);
    }
  }

  /** The state before each instruction: `below` counts eight less than `pointer`. */
  function SpillState(pointer: bv64, below: bv64, other: bv64, k: nat): Machine {
    var start := [0, 0, 0, 0, 0, 0, 0, 0, 0, 0, pointer];
    var moved := if k < 1 then start else start[6 := pointer];
    var first := if k < 3 then moved else moved[1 := if k == 3 then pointer else below];
    var second := if k < 5 then first else first[2 := if k < 7 then 8 else other];
    var word := if k < 6 then pointer else other;
    Machine(k, second, x => if k >= 2 && -8 <= x < 0 then Byte(word, x + 8) else 0)
  }

  /** `below` counts eight less than `pointer`, and both point into the frame. */
  ghost predicate SpillValues(env: Env, base: int, pointer: bv64, below: bv64) {
    && env.number(pointer) == base && env.frame(pointer) == At(0)
    && env.number(below) == (base - 8) % TWO64 && env.frame(below) == At(-8)
    && env.number(8) == 8
  }

  lemma SpillMoves(env: Env, base: int, pointer: bv64, below: bv64, other: bv64, k: nat)
    requires SpillValues(env, base, pointer, below) && k in {0, 2, 4}
    ensures Step(SPILL, env, SpillState(pointer, below, other, k), SpillState(pointer, below, other, k + 1))
  {
    hide Byte, CallEffect, StackWritten;
    var m, n := SpillState(pointer, below, other, k), SpillState(pointer, below, other, k + 1);
    assert SameStackOutside(m, n, 0, 0);
    if k == 0 {
      assert SPILL[k] == Bitwise(false, Mov, 6, Reg(10));
    } else if k == 2 {
      assert SPILL[k] == Bitwise(false, Mov, 1, Reg(10));
    } else {
      assert SPILL[k] == Bitwise(false, Mov, 2, Imm(8));
    }
  }

  lemma SpillAdds(env: Env, base: int, pointer: bv64, below: bv64, other: bv64)
    requires SpillValues(env, base, pointer, below)
    ensures Step(SPILL, env, SpillState(pointer, below, other, 3), SpillState(pointer, below, other, 4))
  {
    hide Byte, CallEffect, StackWritten;
  }

  lemma SpillStores(env: Env, base: int, pointer: bv64, below: bv64, other: bv64)
    requires SpillValues(env, base, pointer, below)
    ensures Step(SPILL, env, SpillState(pointer, below, other, 1), SpillState(pointer, below, other, 2))
  {
    hide Byte, CallEffect;
    var m, n := SpillState(pointer, below, other, 1), SpillState(pointer, below, other, 2);
    assert StackWritten(m, n, -8, 8, pointer);
  }

  lemma SpillReads(env: Env, base: int, pointer: bv64, below: bv64, other: bv64)
    requires SpillValues(env, base, pointer, below)
    ensures Step(SPILL, env, SpillState(pointer, below, other, 5), SpillState(pointer, below, other, 6))
  {
    hide Byte, StackWritten;
    var m, n := SpillState(pointer, below, other, 5), SpillState(pointer, below, other, 6);
    assert SameStackOutside(m, n, -8, 8);
    assert m.regs[1] == below && m.regs[2] == 8;
  }

  lemma SpillLoads(env: Env, base: int, pointer: bv64, below: bv64, other: bv64)
    requires SpillValues(env, base, pointer, below)
    ensures Step(SPILL, env, SpillState(pointer, below, other, 6), SpillState(pointer, below, other, 7))
  {
    hide Byte, StackWritten, CallEffect;
    var m, n := SpillState(pointer, below, other, 6), SpillState(pointer, below, other, 7);
    assert n.regs[2] == other;
    assert forall b: nat :: b < 8 ==> m.stack(-8 + b) == Byte(other, b);
  }

  lemma SpillRuns(env: Env, base: int, pointer: bv64, below: bv64, other: bv64) returns (run: seq<Machine>)
    requires SpillValues(env, base, pointer, below)
    ensures Enters(SPILL, env, base, run) && |run| == 8
    ensures run[7].at == 7 && |run[7].regs| == 11 && run[7].regs[2] == other
  {
    hide Step, Byte;
    run := seq(8, k requires 0 <= k < 8 => SpillState(pointer, below, other, k));
    forall k | 0 <= k < 7 ensures Step(SPILL, env, run[k], run[k + 1]) {
      SpillStores(env, base, pointer, below, other);
      SpillReads(env, base, pointer, below, other);
      SpillLoads(env, base, pointer, below, other);
      SpillAdds(env, base, pointer, below, other);
      if k in {0, 2, 4} { SpillMoves(env, base, pointer, below, other, k); }
    }
  }

  lemma SpillFact(literals: int -> int, inc: Incoming)
    requires Stable(SPILL, literals, inc) && Complete(SPILL, literals, inc)
    ensures 7 in inc && Fact(inc[7], R(2)) == StackAt(0)
  {
    SpillReached(literals, inc, 7);
    assert Floor(SPILL, literals, SpillFloor()) by {
      hide CarriesOn;
      forall pc, s | 0 <= pc < |SPILL| ensures CarriesOn(SPILL, literals, SpillFloor(), pc, s) {
        SpillCarries(literals, pc, s);
      }
    }
    hide Stable, Floor;
    assert AtLeast(inc, SpillFloor());
    assert R(2) in SpillFloor()[7];
  }

  /** After the read the decoder still says that r2 is the frame pointer; it is whatever was read. */
  lemma SpillLost(env: Env, base: int, literals: int -> int, inc: Incoming, pointer: bv64, below: bv64, other: bv64)
    returns (run: seq<Machine>)
    requires Coherent(env, base) && Printed(SPILL, env, literals) && literals(4) == 8
    requires env.number(pointer) == base && env.number(below) == (base - 8) % TWO64 && env.number(other) != base
    requires Stable(SPILL, literals, inc) && Complete(SPILL, literals, inc)
    ensures Enters(SPILL, env, base, run) && |run| == 8 && run[7].at == 7
    ensures 7 in inc && Fact(inc[7], R(2)) == StackAt(0)
    ensures |run[7].regs| == 11 && run[7].regs[2] == other && !FactsTrue(env, base, inc[7], run[7])
  {
    SpillFact(literals, inc);
    hide Stable, Complete, Enters, SlotsTrue;
    FrameEnd(env, base, pointer);
    assert InFrame(-8);
    assert SPILL[4].operand == Imm(8) && env.number(8) == literals(4) % TWO64;
    run := SpillRuns(env, base, pointer, below, other);
    assert (base + 0) % TWO64 == base;
  }
}
