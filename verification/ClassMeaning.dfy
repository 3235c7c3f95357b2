/**
  What an accepted class provenance check means for the bytes of the exported
  record: the recipes of scripts/check-discovery-flow-object.py (482-545) executed
  on the machine.
 */
module ClassMeaning {
  import opened Options
  import opened Disasm
  import opened ClassProvenance

  const META_WORD: int := -0x40

  /** "PKCS 11" and its terminating zero, as a little-endian word. */
  const EXACT_NAME: bv64 := 0x31312053434b50

  /** The payload builder: record_meta, the bytes behind it, and the call that exports them. */
  predicate IsBuilder(code: Code, b: int) {
    && 0 <= b && b + BUILDER_LENGTH <= |code|
    && code[b] == Bitwise(false, Mov, 1, Imm(0xffffff0000ffff))
    && code[b + 1] == Bitwise(false, And, 8, Reg(1))
    && code[b + 2] == Load(1, 8, 10, -0x58)
    && code[b + 3] in {Store(4, 10, -0x8, 1, false), Store(4, 10, -0x8, 1, true)}
    && code[b + 4] == Store(8, 10, -0x30, 6, false)
    && code[b + 5] == Store(8, 10, -0x38, 5, false)
    && code[b + 6] == Bitwise(false, Or, 9, Reg(8))
    && code[b + 7] == Load(1, 8, 10, SLOT_A)
    && code[b + 8] == Bitwise(false, Or, 9, Reg(1))
    && code[b + 9] == Load(1, 8, 10, SLOT_B)
    && code[b + 10] == Bitwise(false, Or, 9, Reg(1))
    && code[b + 11] == Store(8, 10, META_WORD, 9, false)
    && IsPayload(code, b + 12)
  }

  predicate IsPayload(code: Code, b: int) {
    && 0 <= b && b + 14 <= |code|
    && code[b] == Bitwise(false, Mov, 1, Reg(10))
    && code[b + 1] == Add(false, 1, Literal(-0x28))
    && code[b + 2] == Load(2, 8, 7, 0)
    && code[b + 3] == Store(8, 1, 0, 2, false)
    && code[b + 4] == Load(2, 8, 7, 8)
    && code[b + 5] == Store(8, 1, 8, 2, false)
    && code[b + 6] == Load(2, 8, 7, 0x10)
    && code[b + 7] == Store(8, 1, 0x10, 2, false)
    && code[b + 8] == Load(2, 8, 7, 0x18)
    && code[b + 9] == Store(8, 1, 0x18, 2, false)
    && code[b + 10] == Bitwise(false, Mov, 1, Reg(10))
    && code[b + 11] == Add(false, 1, Literal(META_WORD))
    && code[b + 12] == Bitwise(false, Mov, 2, Reg(4))
    && code[b + 13] == Call(OtherCallee)
  }

  /** The string read and the classification of its result. */
  predicate IsClassifier(code: Code, c: int) {
    && 1 <= c && c + 15 < |code|
    && code[c - 1] == Call(ReadUserString)
    && code[c] == Bitwise(false, Mov, 3, Imm(0x1000000))
    && code[c + 1] == Bitwise(false, Mov, 9, Imm(0x40000))
    && code[c + 2] == Bitwise(false, Mov, 1, Imm(0))
    && code[c + 3] == Store(8, 10, SLOT_A, 1, false)
    && code[c + 4] == Branch(SignedAbove(1, Reg(0)), c + 12)
    && code[c + 5] == Bitwise(false, Mov, 9, Imm(0x20000))
    && code[c + 6] == Bitwise(false, Mov, 3, Imm(0))
    && code[c + 7] == Branch(NotEqual(0, Imm(8)), c + 12)
    && code[c + 8] == Load(1, 8, 10, META_WORD)
    && code[c + 9] == Bitwise(false, Mov, 2, Imm(EXACT_NAME))
    && code[c + 10] == Branch(NotEqual(1, Reg(2)), c + 12)
    && code[c + 11] == Bitwise(false, Mov, 9, Imm(0x10000))
    && code[c + 12] == Store(8, 10, SLOT_B, 3, false)
    && code[c + 13] == Load(4, 8, 10, -0x60)
    && code[c + 14] == Load(5, 8, 10, -0x68)
  }

  /** The positions of a plan are those of the matched recipes. */
  predicate Matched(plan: Plan, code: Code) {
    && Resolved(code) && IsClassifier(code, plan.classified) && IsBuilder(code, plan.builder)
    && plan.read == plan.classified - 1 && plan.builder == plan.classified + 15
    && 0 <= plan.guard < |code| && !(plan.classified - 1 <= plan.guard < plan.builder)
    && plan.guard + 1 != plan.builder && code[plan.guard] == Branch(Equal(3, Imm(0)), plan.builder)
  }

  // ----- record_meta carries the class -----

  /** The lane of r9 and of the two flag words on the way through the builder. */
  ghost predicate Carrying(m: Machine, class_: bv64) {
    && |m.regs| == 11 && Lane(m.regs[9]) == class_
    && m.stack(SLOT_A + 2) == 0 && m.stack(SLOT_B + 2) == 0
  }

  predicate Quiet(i: Insn) {
    || (i.Bitwise? && i.dst != 9)
    || (i.Load? && i.dst != 9)
    || (i.Store? && i.base == 10 && Misses(i, SLOT_A + 2) && Misses(i, SLOT_B + 2))
  }

  predicate Misses(i: Insn, byte: int)
    requires i.Store?
  {
    !(i.offset <= byte < i.offset + i.size)
  }

  lemma QuietKeeps(code: Code, env: Env, m: Machine, n: Machine, class_: bv64)
    requires Step(code, env, m, n) && Quiet(code[m.at]) && Carrying(m, class_)
    requires env.frame(m.regs[10]) == At(0)
    ensures Carrying(n, class_) && n.at == m.at + 1
    ensures (code[m.at].Store? || code[m.at].dst != 8) ==> n.regs[8] == m.regs[8]
  {
    hide Lane, Byte, Effect;
    GoesOn(code, env, m, n);
    match code[m.at]
    case Bitwise(_, _, _, _) => BitwiseResult(code, env, m, n);
    case Load(_, _, _, _) => LoadEffect(code, env, m, n);
    case Store(_, _, _, _, _) => StoreEffect(code, env, m, n);
  }

  /** ORing in a word whose lane is zero keeps the class. */
  lemma OrKeeps(code: Code, env: Env, m: Machine, n: Machine, class_: bv64, r: Register)
    requires Step(code, env, m, n) && code[m.at] == Bitwise(false, Or, 9, Reg(r)) && r != 9
    requires Carrying(m, class_) && Lane(m.regs[r]) == 0
    ensures Carrying(n, class_) && n.at == m.at + 1
  {
    GoesOn(code, env, m, n);
    BitwiseEffect(code, env, m, n);
    hide Lane, Byte, Effect;
    assert class_ | 0 == class_;
  }

  lemma FlagLoadIsClear(code: Code, env: Env, m: Machine, n: Machine, class_: bv64, slot: int)
    requires Step(code, env, m, n) && code[m.at] == Load(1, 8, 10, slot) && (slot == SLOT_A || slot == SLOT_B)
    requires Carrying(m, class_) && env.frame(m.regs[10]) == At(0)
    ensures Carrying(n, class_) && n.at == m.at + 1 && Lane(n.regs[1]) == 0
  {
    QuietKeeps(code, env, m, n, class_);
    LoadEffect(code, env, m, n);
    hide Byte, Effect;
    assert Byte(n.regs[1], 2) == m.stack(slot + 2);
  }

  /** The mask of the first two instructions clears the lane of r8. */
  lemma MaskClears(code: Code, env: Env, b: int, m: Machine, n: Machine, o: Machine, class_: bv64)
    requires IsBuilder(code, b) && m.at == b && Carrying(m, class_)
    requires Step(code, env, m, n) && Step(code, env, n, o)
    requires env.frame(m.regs[10]) == At(0) && env.frame(n.regs[10]) == At(0)
    ensures Carrying(o, class_) && o.at == b + 2 && Lane(o.regs[8]) == 0
  {
    hide IsPayload;
    QuietKeeps(code, env, m, n, class_);
    QuietKeeps(code, env, n, o, class_);
    BitwiseResult(code, env, m, n);
    BitwiseEffect(code, env, n, o);
    hide Effect;
    assert n.regs[1] == 0xffffff0000ffff;
    assert Lane(0xffffff0000ffff) == 0;
    hide Lane, Byte;
    assert Lane(o.regs[8]) == Lane(n.regs[8]) & 0 == 0;
  }

  ghost predicate FramePointerKept(env: Env, run: seq<Machine>) {
    forall i :: 0 <= i < |run| ==> |run[i].regs| == 11 && env.frame(run[i].regs[10]) == At(0)
  }

  ghost predicate Follows(code: Code, env: Env, run: seq<Machine>) {
    forall i :: 0 <= i < |run| - 1 ==> Step(code, env, run[i], run[i + 1])
  }

  lemma BuilderMasks(code: Code, env: Env, b: int, run: seq<Machine>, class_: bv64)
    requires IsBuilder(code, b) && |run| == 13 && run[0].at == b && Carrying(run[0], class_)
    requires Follows(code, env, run) && FramePointerKept(env, run)
    ensures Carrying(run[6], class_) && run[6].at == b + 6 && Lane(run[6].regs[8]) == 0
  {
    hide IsPayload, Effect, Lane, Byte, Carrying, Next;
    MaskClears(code, env, b, run[0], run[1], run[2], class_);
    QuietKeeps(code, env, run[2], run[3], class_);
    QuietKeeps(code, env, run[3], run[4], class_);
    QuietKeeps(code, env, run[4], run[5], class_);
    QuietKeeps(code, env, run[5], run[6], class_);
  }

  /** Twelve instructions after the builder is entered, record_meta holds the class. */
  lemma BuilderStores(code: Code, env: Env, b: int, run: seq<Machine>, class_: bv64)
    requires IsBuilder(code, b) && |run| == 13 && run[0].at == b && Carrying(run[0], class_)
    requires Follows(code, env, run) && FramePointerKept(env, run)
    ensures run[12].stack(META_WORD + 2) == class_ && run[12].at == b + 12
  {
    hide IsPayload, Effect, Lane, Byte, Carrying, Next;
    BuilderMasks(code, env, b, run, class_);
    OrKeeps(code, env, run[6], run[7], class_, 8);
    FlagLoadIsClear(code, env, run[7], run[8], class_, SLOT_A);
    OrKeeps(code, env, run[8], run[9], class_, 1);
    FlagLoadIsClear(code, env, run[9], run[10], class_, SLOT_B);
    OrKeeps(code, env, run[10], run[11], class_, 1);
    MetaStored(code, env, run[11], run[12], class_);
    GoesOn(code, env, run[11], run[12]);
  }

  lemma MetaStored(code: Code, env: Env, m: Machine, n: Machine, class_: bv64)
    requires Step(code, env, m, n) && code[m.at] == Store(8, 10, META_WORD, 9, false)
    requires Carrying(m, class_) && env.frame(m.regs[10]) == At(0)
    ensures n.stack(META_WORD + 2) == class_
  {
    hide Effect, Byte;
    StoreEffect(code, env, m, n);
  }

  /** The record on its way to the call: record_meta has its class, r1 points to this offset. */
  ghost predicate Recorded(env: Env, m: Machine, class_: bv64, pointer: int) {
    && |m.regs| == 11 && env.frame(m.regs[10]) == At(0)
    && m.stack(META_WORD + 2) == class_ && env.frame(m.regs[1]) == At(pointer)
  }

  /** Setting r1 to a place in the frame. */
  lemma Points(code: Code, env: Env, m: Machine, n: Machine, o: Machine, class_: bv64, offset: int)
    requires Step(code, env, m, n) && Step(code, env, n, o) && 0 <= m.at < |code| - 1
    requires code[m.at] == Bitwise(false, Mov, 1, Reg(10)) && code[m.at + 1] == Add(false, 1, Literal(offset)) && InFrame(offset)
    requires env.frame(m.regs[10]) == At(0) && env.frame(o.regs[10]) == At(0) && m.stack(META_WORD + 2) == class_
    ensures Recorded(env, o, class_, offset) && o.at == m.at + 2
  {
    hide Effect, Byte, Next;
    GoesOn(code, env, m, n);
    GoesOn(code, env, n, o);
    BitwiseResult(code, env, m, n);
    AddEffect(code, env, n, o);
  }

  /** Copying eight bytes to the payload leaves record_meta alone. */
  lemma Copies(code: Code, env: Env, m: Machine, n: Machine, o: Machine, class_: bv64, offset: int)
    requires Step(code, env, m, n) && Step(code, env, n, o) && 0 <= m.at < |code| - 1
    requires code[m.at] == Load(2, 8, 7, offset) && code[m.at + 1] == Store(8, 1, offset, 2, false) && 0 <= offset
    requires Recorded(env, m, class_, -0x28) && env.frame(o.regs[10]) == At(0)
    ensures Recorded(env, o, class_, -0x28) && o.at == m.at + 2
  {
    hide Effect, Byte, Next;
    GoesOn(code, env, m, n);
    GoesOn(code, env, n, o);
    LoadEffect(code, env, m, n);
    StoreEffect(code, env, n, o);
  }

  /** From the store of record_meta to the call nothing changes it, and r1 ends up pointing to it. */
  lemma PayloadKeeps(code: Code, env: Env, b: int, run: seq<Machine>, class_: bv64)
    requires IsPayload(code, b) && |run| == 14 && run[0].at == b && run[0].stack(META_WORD + 2) == class_
    requires Follows(code, env, run) && FramePointerKept(env, run)
    ensures Recorded(env, run[13], class_, META_WORD)
  {
    hide Step, Effect, Byte, Recorded, Next;
    Points(code, env, run[0], run[1], run[2], class_, -0x28);
    Copies(code, env, run[2], run[3], run[4], class_, 0);
    Copies(code, env, run[4], run[5], run[6], class_, 8);
    Copies(code, env, run[6], run[7], run[8], class_, 0x10);
    Copies(code, env, run[8], run[9], run[10], class_, 0x18);
    RecordedMeans(env, run[10], class_, -0x28);
    Points(code, env, run[10], run[11], run[12], class_, META_WORD);
    SecondArgument(code, env, run[12], run[13], class_);
  }

  lemma RecordedMeans(env: Env, m: Machine, class_: bv64, pointer: int)
    requires Recorded(env, m, class_, pointer)
    ensures m.stack(META_WORD + 2) == class_
  {}

  lemma SecondArgument(code: Code, env: Env, m: Machine, n: Machine, class_: bv64)
    requires Step(code, env, m, n) && code[m.at] == Bitwise(false, Mov, 2, Reg(4))
    requires Recorded(env, m, class_, META_WORD) && env.frame(n.regs[10]) == At(0)
    ensures Recorded(env, n, class_, META_WORD)
  {
    hide Effect, Byte, Next;
    BitwiseResult(code, env, m, n);
  }

  /** A position inside the builder has been reached from its top. */
  lemma {:induction false} CameThroughTop(plan: Plan, code: Code, env: Env, live: set<int>, run: seq<Machine>, k: nat, t: nat)
    requires Execution(code, env, run) && IsLive(code, live) && EnteredFromTop(code, live, plan.builder)
    requires plan.builder >= 0 && t < BUILDER_LENGTH && k < |run| && run[k].at == plan.builder + t
    ensures t <= k && run[k - t].at == plan.builder
    decreases t
  {
    hide Effect, Next, Reaches;
    if t > 0 {
      var p := plan.builder + t;
      assert Entries(code, live, p) == {p - 1};
      CameFrom(code, env, live, run, k, p - 1);
      CameThroughTop(plan, code, env, live, run, k - 1, t - 1);
    }
  }

  /** In an acyclic classifier an arrival at the builder is the first one. */
  lemma ArrivalIsFirst(plan: Plan, code: Code, env: Env, run: seq<Machine>, k: nat)
    requires Execution(code, env, run) && Acyclic(code) && k < |run| && run[k].at == plan.builder
    ensures forall j :: 0 <= j < k ==> run[j].at != plan.builder
  {
    hide Effect, Next, Reaches;
    forall j | 0 <= j < k ensures run[j].at != plan.builder {
      if run[j].at == plan.builder {
        assert Step(code, env, run[j], run[j + 1]);
        RunReaches(code, env, run, 0, j);
        RunReaches(code, env, run, j + 1, k);
        assert false;
      }
    }
  }

  /**
    In every execution of an accepted classifier that comes to the exporting call, its first
    argument points to record_meta, and bits 16..23 of it are the class of the path that led
    to the builder.
   */
  lemma {:induction false} RecordMetaHasClass(plan: Plan, code: Code, env: Env, live: set<int>, run: seq<Machine>)
    requires Matched(plan, code) && BuilderSafe(plan, code) && Acyclic(code)
    requires IsLive(code, live) && EnteredFromTop(code, live, plan.builder)
    requires Tracked(plan, code, env, run) && run[|run| - 1].at == plan.builder + 25
    ensures var k := |run| - 26;
            && k >= 0 && run[k].at == plan.builder && code[plan.builder + 25] == Call(OtherCallee)
            && Recorded(env, run[|run| - 1], HistoryAt(plan, code, run, k).expected, META_WORD)
  {
    hide Acyclic, IsLive, EnteredFromTop, Matched, IsBuilder, IsPayload, BuilderSafe, Carrying, HistoryAt, NextHistory;
    hide Step, Next, Effect, Lane, Byte, Tracked, Recorded, Execution, Follows, FramePointerKept;
    TrackedRuns(plan, code, env, run, 0);
    var k := |run| - 26;
    BuilderOf(plan, code);
    BuilderEnds(code, plan.builder);
    CameThroughTop(plan, code, env, live, run, |run| - 1, 25);
    ArrivalIsFirst(plan, code, env, run, k);
    PrefixCarries(plan, code, env, run, k);
    TrackedRuns(plan, code, env, run, k);
    BuilderExports(code, env, plan.builder, run[k..], HistoryAt(plan, code, run, k).expected);
  }

  lemma TrackedRuns(plan: Plan, code: Code, env: Env, run: seq<Machine>, k: nat)
    requires Tracked(plan, code, env, run) && k <= |run|
    ensures |run| > 0 && Execution(code, env, run) && Follows(code, env, run[k..]) && FramePointerKept(env, run[k..])
  {
    hide Step;
    assert forall i :: 0 <= i < |run| ==> ArgumentsHold(plan, code, env, run[i]);
  }

  lemma BuilderExports(code: Code, env: Env, b: int, run: seq<Machine>, class_: bv64)
    requires IsBuilder(code, b) && |run| == 26 && run[0].at == b && Carrying(run[0], class_)
    requires Follows(code, env, run) && FramePointerKept(env, run)
    ensures Recorded(env, run[25], class_, META_WORD)
  {
    hide IsBuilder, IsPayload, Step, Recorded, Carrying;
    BuilderEnds(code, b);
    BuilderStores(code, env, b, run[..13], class_);
    PayloadKeeps(code, env, b + 12, run[12..], class_);
  }

  lemma {:induction false} PrefixCarries(plan: Plan, code: Code, env: Env, run: seq<Machine>, k: nat)
    requires BuilderSafe(plan, code) && Tracked(plan, code, env, run) && k < |run| && run[k].at == plan.builder
    requires forall j :: 0 <= j < k ==> run[j].at != plan.builder
    ensures forall j :: 0 <= j < k ==> 0 <= run[j].at < |code|
    ensures Carrying(run[k], HistoryAt(plan, code, run, k).expected)
  {
    hide Effect, Lane, Byte, Next, NextHistory, HistoryAt;
    var front := run[..k + 1];
    assert Arrives(plan, code, env, front);
    HistoryOfPrefix(plan, code, run, k + 1, k);
  }

  lemma BuilderOf(plan: Plan, code: Code)
    requires Matched(plan, code)
    ensures plan.builder >= 0 && IsBuilder(code, plan.builder)
  {
    hide IsBuilder, IsClassifier;
  }

  lemma BuilderEnds(code: Code, b: int)
    requires IsBuilder(code, b)
    ensures 0 <= b && b + 25 < |code| && IsPayload(code, b + 12) && code[b + 25] == Call(OtherCallee)
  {}

  lemma {:induction false} HistoryOfPrefix(plan: Plan, code: Code, run: seq<Machine>, length: nat, k: nat)
    requires k < length <= |run| && forall i :: 0 <= i < length - 1 ==> 0 <= run[i].at < |code|
    ensures HistoryAt(plan, code, run[..length], k) == HistoryAt(plan, code, run, k)
  {
    if k > 0 { HistoryOfPrefix(plan, code, run, length, k - 1); }
  }

  // ----- class 1 means an exact name -----

  /** A run that has proved something since a read has made one, and knows where its last one is. */
  lemma {:induction false} LastRead(plan: Plan, code: Code, run: seq<Machine>, k: nat) returns (i: nat)
    requires k < |run| && forall j :: 0 <= j < k ==> 0 <= run[j].at < |code|
    requires HistoryAt(plan, code, run, k).proof.read
    ensures i < k && run[i].at == plan.read
    ensures forall j :: i < j < k ==> run[j].at != plan.read
  {
    if run[k - 1].at == plan.read {
      i := k - 1;
    } else {
      i := LastRead(plan, code, run, k - 1);
    }
  }

  /** The name buffer: the eight bytes the classifier compares. */
  ghost predicate SameName(m: Machine, n: Machine) {
    forall x: int {:trigger n.stack(x)} :: META_WORD <= x < META_WORD + 8 ==> n.stack(x) == m.stack(x)
  }

  lemma SameStackSameName(m: Machine, n: Machine)
    requires SameStackOutside(m, n, 0, 0)
    ensures SameName(m, n)
  {}

  predicate InLine(plan: Plan, at: int) {
    && plan.classified <= at < plan.builder
    && at != plan.classified + 4 && at != plan.classified + 7 && at != plan.classified + 10
  }

  predicate IsTest(plan: Plan, at: int) {
    at == plan.classified + 4 || at == plan.classified + 7 || at == plan.classified + 10
  }

  /** The straight-line instructions of the classifier leave r0 and the name alone. */
  lemma LineEffect(plan: Plan, code: Code, env: Env, m: Machine, n: Machine)
    requires Matched(plan, code) && Step(code, env, m, n) && InLine(plan, m.at)
    requires env.frame(m.regs[10]) == At(0)
    ensures n.at == m.at + 1 && n.regs[0] == m.regs[0] && SameName(m, n)
  {
    hide Effect, Byte, Matched, IsClassifier, IsBuilder, Plain, Next, Step;
    LineIsPlain(plan, code, m.at);
    PlainEffect(code, env, m, n);
  }

  /** Writes neither r0 nor the name. */
  predicate Plain(i: Insn) {
    || (i.Bitwise? && i.dst != 0)
    || (i.Load? && i.dst != 0)
    || (i.Store? && i.base == 10 && (i.offset + i.size <= META_WORD || META_WORD + 8 <= i.offset))
  }

  lemma LineIsPlain(plan: Plan, code: Code, at: int)
    requires Matched(plan, code) && InLine(plan, at)
    ensures 0 <= at < |code| && Plain(code[at])
  {
    hide IsBuilder;
  }

  lemma PlainEffect(code: Code, env: Env, m: Machine, n: Machine)
    requires Step(code, env, m, n) && Plain(code[m.at]) && env.frame(m.regs[10]) == At(0)
    ensures n.at == m.at + 1 && n.regs[0] == m.regs[0] && SameName(m, n)
  {
    hide Effect, Byte;
    GoesOn(code, env, m, n);
    match code[m.at]
    case Bitwise(_, _, _, _) => BitwiseResult(code, env, m, n);
    case Load(_, _, _, _) => LoadEffect(code, env, m, n);
    case Store(_, _, _, _, _) => StoreEffect(code, env, m, n);
  }

  /** A run inside the classifier's straight line takes another step, with the same history. */
  lemma LineStep(plan: Plan, code: Code, env: Env, run: seq<Machine>, j: nat)
    requires Matched(plan, code) && Arrives(plan, code, env, run) && j < |run| && InLine(plan, run[j].at)
    ensures j + 1 < |run| && run[j + 1].at == run[j].at + 1
    ensures HistoryAt(plan, code, run, j + 1) == HistoryAt(plan, code, run, j)
    ensures |run[j].regs| == 11 && |run[j + 1].regs| == 11
    ensures run[j + 1].regs[0] == run[j].regs[0] && SameName(run[j], run[j + 1])
  {
    assert j < |run| - 1 && ArgumentsHold(plan, code, env, run[j]);
    assert Step(code, env, run[j], run[j + 1]);
    LineEffect(plan, code, env, run[j], run[j + 1]);
    HistoryStep(plan, code, run, j);
    hide Effect, Byte, Step, HistoryAt;
    assert plan.read != run[j].at && plan.guard != run[j].at;
  }

  lemma HistoryStep(plan: Plan, code: Code, run: seq<Machine>, j: nat)
    requires j + 1 < |run| && forall i :: 0 <= i <= j ==> 0 <= run[i].at < |code|
    ensures HistoryAt(plan, code, run, j + 1)
         == NextHistory(plan, code, run[j].at, HistoryAt(plan, code, run, j), run[j + 1].at)
  {}

  /** At a test of the classifier control falls through or goes to the join. */
  lemma TestEffect(plan: Plan, code: Code, env: Env, m: Machine, n: Machine)
    requires Matched(plan, code) && Step(code, env, m, n) && IsTest(plan, m.at)
    ensures n.at == m.at + 1 || n.at == plan.classified + 12
    ensures Taken(code, m.at, n.at) <==> n.at == plan.classified + 12
    ensures n.regs == m.regs && SameName(m, n)
  {
    hide Effect, Byte, Decides, Matched, IsClassifier, IsBuilder, Next, SameName, SameStackOutside, Step;
    TestsOf(plan, code);
    BranchGoes(code, env, m, n);
    SameStackSameName(m, n);
  }

  /** What each test of the classifier decides. */
  lemma TestDecides(plan: Plan, code: Code, env: Env, m: Machine, n: Machine)
    requires Matched(plan, code) && Step(code, env, m, n) && IsTest(plan, m.at)
    ensures m.at == plan.classified + 4 && m.regs[1] == 0 ==> (n.at == plan.classified + 12 <==> Negative(m.regs[0]))
    ensures m.at == plan.classified + 7 ==> (n.at == plan.classified + 12 <==> m.regs[0] != 8)
    ensures m.at == plan.classified + 10 ==> (n.at == plan.classified + 12 <==> m.regs[1] != m.regs[2])
  {
    hide Effect, Byte, Matched, Next, IsClassifier, IsBuilder, Step;
    TestsOf(plan, code);
    BranchGoes(code, env, m, n);
  }

  lemma TestsOf(plan: Plan, code: Code)
    requires Matched(plan, code)
    ensures var c := plan.classified;
            && 1 <= c && c + 15 < |code|
            && code[c + 4] == Branch(SignedAbove(1, Reg(0)), c + 12)
            && code[c + 7] == Branch(NotEqual(0, Imm(8)), c + 12)
            && code[c + 10] == Branch(NotEqual(1, Reg(2)), c + 12)
  {
    hide IsBuilder;
  }

  lemma TestStep(plan: Plan, code: Code, env: Env, run: seq<Machine>, j: nat)
    requires Matched(plan, code) && Arrives(plan, code, env, run) && j < |run| && IsTest(plan, run[j].at)
    ensures j + 1 < |run| && |run[j].regs| == 11 && |run[j + 1].regs| == 11
    ensures run[j + 1].at == run[j].at + 1 || run[j + 1].at == plan.classified + 12
    ensures run[j + 1].regs == run[j].regs && SameName(run[j], run[j + 1])
    ensures Step(code, env, run[j], run[j + 1])
    ensures HistoryAt(plan, code, run, j + 1) ==
      var h := HistoryAt(plan, code, run, j);
      if run[j].at == plan.classified + 4 then h.(expected := if run[j + 1].at == plan.classified + 12 then 4 else 2)
      else if run[j + 1].at == plan.classified + 12 then h
      else if run[j].at == plan.classified + 7 then h.(proof := h.proof.(eight := true))
      else History(1, h.proof.(bytes := true))
  {
    hide Effect, Byte, HistoryAt, IsClassifier, IsBuilder, SameName, ArgumentsHold;
    assert j < |run| - 1;
    assert Step(code, env, run[j], run[j + 1]);
    hide Step;
    TestEffect(plan, code, env, run[j], run[j + 1]);
    HistoryStep(plan, code, run, j);
  }

  /** From the join on, the history of a run no longer changes. */
  lemma JoinKeepsHistory(plan: Plan, code: Code, env: Env, run: seq<Machine>, j: nat)
    requires Matched(plan, code) && Arrives(plan, code, env, run) && j < |run| && run[j].at == plan.classified + 12
    ensures HistoryAt(plan, code, run, |run| - 1) == HistoryAt(plan, code, run, j)
  {
    hide Effect, Byte, HistoryAt, NextHistory, SameName, IsClassifier, IsBuilder;
    LineStep(plan, code, env, run, j);
    LineStep(plan, code, env, run, j + 1);
    LineStep(plan, code, env, run, j + 2);
    assert run[j + 3].at == plan.builder;
  }

  /** What class 1 promises: the read returned 8 and left the exact name in the buffer. */
  ghost predicate ExactNameRead(plan: Plan, run: seq<Machine>, i: nat) {
    && i + 1 < |run| && run[i].at == plan.read && |run[i + 1].regs| == 11
    && run[i + 1].regs[0] == 8
    && Spelled(run[i + 1], EXACT_NAME)
  }

  /** As a signed word. */
  predicate Negative(word: bv64) {
    word >= 0x8000_0000_0000_0000
  }

  /** The class a read deserves: 4 if it failed, 1 if it returned 8 and the exact name, 2 otherwise. */
  ghost function ClassOfRead(m: Machine): bv64
    requires |m.regs| == 11
  {
    if Negative(m.regs[0]) then 4 else if m.regs[0] == 8 && Spelled(m, EXACT_NAME) then 1 else 2
  }

  ghost predicate Spelled(m: Machine, word: bv64) {
    forall b: nat {:trigger Byte(word, b)} :: b < 8 ==> m.stack(META_WORD + b) == Byte(word, b)
  }

  /** The buffer is loaded into r1 and the exact name into r2. */
  lemma NameLoaded(plan: Plan, code: Code, env: Env, m: Machine, n: Machine, o: Machine)
    requires Matched(plan, code) && m.at == plan.classified + 8 && n.at == m.at + 1
    requires Step(code, env, m, n) && Step(code, env, n, o) && env.frame(m.regs[10]) == At(0)
    ensures Spelled(m, o.regs[1]) && o.regs[2] == EXACT_NAME
  {
    hide Effect, Byte, Matched, IsClassifier, IsBuilder, Next;
    NameCode(plan, code);
    LoadEffect(code, env, m, n);
    BitwiseResult(code, env, n, o);
  }

  lemma NameCode(plan: Plan, code: Code)
    requires Matched(plan, code)
    ensures var c := plan.classified;
            && 1 <= c && c + 15 < |code|
            && code[c - 1] == Call(ReadUserString) && plan.read == c - 1
            && code[c + 8] == Load(1, 8, 10, META_WORD)
            && code[c + 9] == Bitwise(false, Mov, 2, Imm(EXACT_NAME))
  {
    hide IsBuilder;
  }

  /** Before the sign test r1 is cleared. */
  lemma ZeroLoaded(plan: Plan, code: Code, env: Env, m: Machine, n: Machine, o: Machine)
    requires Matched(plan, code) && m.at == plan.classified + 2 && n.at == m.at + 1
    requires Step(code, env, m, n) && Step(code, env, n, o)
    ensures o.regs[1] == 0
  {
    hide Effect, Byte, Matched, IsClassifier, IsBuilder, Next;
    ZeroCode(plan, code);
    BitwiseResult(code, env, m, n);
    StoreEffect(code, env, n, o);
  }

  lemma ZeroCode(plan: Plan, code: Code)
    requires Matched(plan, code)
    ensures var c := plan.classified;
            && 1 <= c && c + 15 < |code|
            && code[c + 2] == Bitwise(false, Mov, 1, Imm(0)) && code[c + 3] == Store(8, 10, SLOT_A, 1, false)
  {
    hide IsBuilder;
  }

  /** A run right after a read walks to the sign test with its result and the name unchanged. */
  lemma ToSignTest(plan: Plan, code: Code, env: Env, run: seq<Machine>, a: nat)
    requires Matched(plan, code) && Arrives(plan, code, env, run) && a < |run| && run[a].at == plan.classified
    ensures a + 4 < |run| && run[a + 4].at == plan.classified + 4
    ensures HistoryAt(plan, code, run, a + 4) == HistoryAt(plan, code, run, a)
    ensures |run[a].regs| == 11 && |run[a + 4].regs| == 11
    ensures run[a + 4].regs[0] == run[a].regs[0] && run[a + 4].regs[1] == 0 && SameName(run[a], run[a + 4])
  {
    hide Effect, Byte, HistoryAt, IsClassifier, IsBuilder, Step;
    LineStep(plan, code, env, run, a);
    LineStep(plan, code, env, run, a + 1);
    LineStep(plan, code, env, run, a + 2);
    LineStep(plan, code, env, run, a + 3);
    var m, n, o := run[a + 2], run[a + 3], run[a + 4];
    assert Step(code, env, m, n) && Step(code, env, n, o);
    ZeroLoaded(plan, code, env, m, n, o);
  }

  /** Past the length test the buffer is loaded and compared with the exact name. */
  lemma {:induction false} NameDecides(plan: Plan, code: Code, env: Env, run: seq<Machine>, a: nat)
    requires Matched(plan, code) && Arrives(plan, code, env, run) && a < |run| && run[a].at == plan.classified + 8
    ensures HistoryAt(plan, code, run, |run| - 1).expected
         == if Spelled(run[a], EXACT_NAME) then 1 else HistoryAt(plan, code, run, a).expected
  {
    hide Effect, Byte, HistoryAt, NextHistory, Step, IsClassifier, IsBuilder, SameName;
    LineStep(plan, code, env, run, a);
    LineStep(plan, code, env, run, a + 1);
    var m, n, o := run[a], run[a + 1], run[a + 2];
    assert Step(code, env, m, n) && Step(code, env, n, o) && ArgumentsHold(plan, code, env, m);
    NameLoaded(plan, code, env, m, n, o);
    SpelledOnce(m, o.regs[1], EXACT_NAME);
    TestStep(plan, code, env, run, a + 2);
    TestDecides(plan, code, env, o, run[a + 3]);
    if run[a + 3].at == plan.classified + 12 {
      JoinKeepsHistory(plan, code, env, run, a + 3);
    } else {
      LineStep(plan, code, env, run, a + 3);
      JoinKeepsHistory(plan, code, env, run, a + 4);
    }
  }

  /** Eight bytes spell one word. */
  lemma SpelledOnce(m: Machine, x: bv64, y: bv64)
    requires Spelled(m, x)
    ensures Spelled(m, y) <==> x == y
  {
    hide Byte;
    if Spelled(m, y) {
      forall b: nat | b < 8 ensures Byte(x, b) == Byte(y, b) {
        assert m.stack(META_WORD + b) == Byte(y, b);
      }
      BytesDecide(x, y);
    }
  }

  lemma SameNameSpelled(m: Machine, n: Machine, word: bv64)
    requires SameName(m, n)
    ensures Spelled(m, word) <==> Spelled(n, word)
  {
    hide Byte;
    forall b: nat | b < 8 ensures m.stack(META_WORD + b) == Byte(word, b) <==> n.stack(META_WORD + b) == Byte(word, b) {
      assert n.stack(META_WORD + b) == m.stack(META_WORD + b);
    }
  }

  /** After a read the class is the one its result and the buffer deserve, in every execution. */
  lemma {:induction false} ReadDecidesClass(plan: Plan, code: Code, env: Env, run: seq<Machine>, i: nat)
    requires Matched(plan, code) && Arrives(plan, code, env, run) && i + 1 < |run| && run[i].at == plan.read
    ensures |run[i + 1].regs| == 11 && HistoryAt(plan, code, run, |run| - 1).expected == ClassOfRead(run[i + 1])
  {
    hide Effect, Byte, HistoryAt, NextHistory, Step, IsClassifier, IsBuilder, Spelled;
    var a := i + 1;
    AfterRead(plan, code, env, run, i);
    ToSignTest(plan, code, env, run, a);
    TestStep(plan, code, env, run, a + 4);
    TestDecides(plan, code, env, run[a + 4], run[a + 5]);
    if run[a + 5].at == plan.classified + 12 {
      JoinKeepsHistory(plan, code, env, run, a + 5);
    } else {
      LineStep(plan, code, env, run, a + 5);
      LineStep(plan, code, env, run, a + 6);
      TestStep(plan, code, env, run, a + 7);
      TestDecides(plan, code, env, run[a + 7], run[a + 8]);
      if run[a + 8].at == plan.classified + 12 {
        JoinKeepsHistory(plan, code, env, run, a + 8);
      } else {
        NameDecides(plan, code, env, run, a + 8);
        SameNameSpelled(run[a], run[a + 8], EXACT_NAME);
      }
    }
  }

  lemma AfterRead(plan: Plan, code: Code, env: Env, run: seq<Machine>, i: nat)
    requires Matched(plan, code) && Arrives(plan, code, env, run) && i + 1 < |run| && run[i].at == plan.read
    ensures run[i + 1].at == plan.classified && HistoryAt(plan, code, run, i + 1) == History(4, Proof(true, false, false))
  {
    hide Effect, Byte, HistoryAt, ArgumentsHold, Matched, IsClassifier, IsBuilder;
    NameCode(plan, code);
    assert Step(code, env, run[i], run[i + 1]);
    GoesOn(code, env, run[i], run[i + 1]);
    HistoryStep(plan, code, run, i);
  }

  /**
    An execution arrives at the builder with class 1 only after a string read that
    returned 8 and left exactly the expected name in the buffer.
   */
  lemma ExactClassMeansExactName(plan: Plan, code: Code, env: Env, run: seq<Machine>) returns (i: nat)
    requires Matched(plan, code) && BuilderSafe(plan, code) && Arrives(plan, code, env, run)
    requires HistoryAt(plan, code, run, |run| - 1).expected == 1
    ensures ExactNameRead(plan, run, i)
  {
    hide Matched, Step, HistoryAt, ArgumentsHold, BuilderSafe, Negative, Spelled;
    ProvedIfExact(plan, code, env, run);
    i := LastRead(plan, code, run, |run| - 1);
    ReadDecidesClass(plan, code, env, run, i);
  }

  lemma {:induction false} ProvedIfExact(plan: Plan, code: Code, env: Env, run: seq<Machine>)
    requires BuilderSafe(plan, code) && Arrives(plan, code, env, run)
    ensures var h := HistoryAt(plan, code, run, |run| - 1); h.expected == 1 ==> h.proof == Proof(true, true, true)
  {
    hide Step, HistoryAt, ArgumentsHold, Lane;
    assert ArrivesWithClass(plan, code, run);
  }

  // ----- class 3 means no name -----

  /** On the way to the builder the class is not 3 yet. */
  lemma {:induction false} NotYetNull(plan: Plan, code: Code, env: Env, run: seq<Machine>, k: nat)
    requires Matched(plan, code) && Arrives(plan, code, env, run) && k < |run| - 1
    ensures HistoryAt(plan, code, run, k).expected != 3
  {
    hide Effect, Byte, ArgumentsHold, IsClassifier, IsBuilder;
    if k > 0 {
      NotYetNull(plan, code, env, run, k - 1);
      assert run[k].at != plan.builder;
    }
  }

  /** An execution arrives with class 3 exactly if it comes from the guard, where the name was null. */
  lemma {:induction false} NullClassMeansNoName(plan: Plan, code: Code, env: Env, run: seq<Machine>)
    requires Matched(plan, code) && Arrives(plan, code, env, run)
    ensures HistoryAt(plan, code, run, |run| - 1).expected == 3 <==> |run| > 1 && run[|run| - 2].at == plan.guard
    ensures HistoryAt(plan, code, run, |run| - 1).expected == 3 ==> |run[|run| - 2].regs| == 11 && run[|run| - 2].regs[3] == 0
  {
    hide Effect, Byte, ArgumentsHold, IsClassifier, IsBuilder;
    var k := |run| - 1;
    if k > 0 {
      NotYetNull(plan, code, env, run, k - 1);
      HistoryStep(plan, code, run, k - 1);
      assert Step(code, env, run[k - 1], run[k]);
      hide Step, HistoryAt;
      if run[k - 1].at == plan.guard {
        BranchGoes(code, env, run[k - 1], run[k]);
      }
    }
  }

  // ----- the whole table -----

  /** Along any edge of the graph a fixpoint knows where a path goes. */
  lemma KeyGoesOn(plan: Plan, code: Code, inc: Facts, k: Key, next: int)
    requires Fixpoint(plan, code, inc) && k in inc && k.pc != plan.builder
    requires 0 <= k.pc < |code| && next in Next(code, k.pc)
    ensures Key(next, NextHistory(plan, code, k.pc, k.history, next)) in inc
  {
    hide Next, NextHistory, Transfer;
    assert Settled(plan, code, inc, k);
    assert Covers(plan, code, inc, k, next);
  }

  /** Through the straight line of the classifier, and by falling through its last two tests. */
  function Fallen(plan: Plan, pc: int, h: History): History {
    if pc == plan.classified + 7 then h.(proof := h.proof.(eight := true))
    else if pc == plan.classified + 10 then History(1, h.proof.(bytes := true))
    else h
  }

  lemma KeyFalls(plan: Plan, code: Code, inc: Facts, k: Key)
    requires Matched(plan, code) && Fixpoint(plan, code, inc) && k in inc
    requires plan.classified + 5 <= k.pc < plan.builder
    ensures Key(k.pc + 1, Fallen(plan, k.pc, k.history)) in inc
  {
    hide Matched, Fixpoint, Next, Taken, NextHistory, Fallen;
    FallEdge(plan, code, k.pc, k.history);
    KeyGoesOn(plan, code, inc, k, k.pc + 1);
  }

  lemma OutsideLine(plan: Plan, code: Code)
    requires Matched(plan, code)
    ensures plan.read < plan.classified < plan.builder < |code|
    ensures !(plan.classified - 1 <= plan.guard < plan.builder)
  {
    hide IsClassifier, IsBuilder;
    BuilderEnds(code, plan.builder);
  }

  lemma FallEdge(plan: Plan, code: Code, pc: int, h: History)
    requires Matched(plan, code) && plan.classified + 5 <= pc < plan.builder
    ensures 0 <= pc < |code| && pc + 1 in Next(code, pc)
    ensures NextHistory(plan, code, pc, h, pc + 1) == Fallen(plan, pc, h)
  {
    hide Matched;
    if IsTest(plan, pc) {
      TestsOf(plan, code);
    } else {
      LineIsPlain(plan, code, pc);
    }
    OutsideLine(plan, code);
  }

  /** From behind the name test a path goes to the builder with its class. */
  lemma {:induction false} JoinArrives(plan: Plan, code: Code, inc: Facts, k: Key)
    requires Matched(plan, code) && Fixpoint(plan, code, inc) && k in inc
    requires plan.classified + 11 <= k.pc <= plan.builder
    ensures Key(plan.builder, k.history) in inc
    decreases plan.builder - k.pc
  {
    hide Fixpoint, IsClassifier, IsBuilder, Next;
    if k.pc < plan.builder {
      KeyFalls(plan, code, inc, k);
      JoinArrives(plan, code, inc, Key(k.pc + 1, k.history));
    }
  }

  /** Nothing gets behind the sign test or the name test without a read: its sibling would arrive with class 1. */
  lemma {:induction false} TestedAfterRead(plan: Plan, code: Code, inc: Facts, k: Key)
    requires Matched(plan, code) && Fixpoint(plan, code, inc) && AllGood(plan, inc) && k in inc
    requires plan.classified + 5 <= k.pc <= plan.classified + 10 || (k.pc == plan.classified + 11 && k.history.expected == 1)
    ensures k.history.proof.read
    decreases plan.builder - k.pc
  {
    hide Fixpoint, IsClassifier, IsBuilder, Next;
    if k.pc <= plan.classified + 10 {
      KeyFalls(plan, code, inc, k);
      TestedAfterRead(plan, code, inc, Key(k.pc + 1, Fallen(plan, k.pc, k.history)));
    } else {
      JoinArrives(plan, code, inc, k);
      assert Good(Key(plan.builder, k.history), inc[Key(plan.builder, k.history)]);
    }
  }

  /** Without a read the class stays 4 up to the last step. */
  lemma {:induction false} UnreadStaysFour(plan: Plan, code: Code, env: Env, inc: Facts, run: seq<Machine>, k: nat)
    requires Matched(plan, code) && Fixpoint(plan, code, inc) && AllGood(plan, inc)
    requires Arrives(plan, code, env, run) && k < |run| && forall i :: 0 <= i < |run| ==> run[i].at != plan.read
    ensures !HistoryAt(plan, code, run, k).proof.read
    ensures k < |run| - 1 || (k > 0 && run[k - 1].at != plan.guard) || k == 0 ==> HistoryAt(plan, code, run, k).expected == 4
  {
    hide Fixpoint, AllGood, IsClassifier, IsBuilder, Next, Effect, Byte, ArgumentsHold, Step;
    if k > 0 {
      UnreadStaysFour(plan, code, env, inc, run, k - 1);
      FactsHold(plan, code, env, inc, run, k);
      HistoryStep(plan, code, run, k - 1);
      assert Step(code, env, run[k - 1], run[k]);
      hide HistoryAt, Matched;
      UnreadStep(plan, code, env, inc, run[k - 1], run[k], HistoryAt(plan, code, run, k - 1));
    }
  }

  /** One step of that: only the guard's jump to the builder changes the class. */
  lemma UnreadStep(plan: Plan, code: Code, env: Env, inc: Facts, m: Machine, n: Machine, h: History)
    requires Matched(plan, code) && Fixpoint(plan, code, inc) && AllGood(plan, inc) && Step(code, env, m, n)
    requires m.at != plan.read && m.at != plan.builder && h.expected == 4 && !h.proof.read
    requires Key(n.at, NextHistory(plan, code, m.at, h, n.at)) in inc
    ensures !NextHistory(plan, code, m.at, h, n.at).proof.read
    ensures n.at != plan.builder || m.at != plan.guard ==> NextHistory(plan, code, m.at, h, n.at).expected == 4
  {
    hide Fixpoint, AllGood, IsClassifier, IsBuilder, Next, Effect, Byte;
    var next := NextHistory(plan, code, m.at, h, n.at);
    if m.at == plan.classified + 4 || m.at == plan.classified + 10 {
      TestEffect(plan, code, env, m, n);
      if n.at != plan.classified + 12 {
        TestedAfterRead(plan, code, inc, Key(n.at, next));
      }
    } else if m.at == plan.guard {
      GuardCode(plan, code);
    }
  }

  lemma GuardCode(plan: Plan, code: Code)
    requires Matched(plan, code)
    ensures 0 <= plan.guard < |code| && code[plan.guard] == Branch(Equal(3, Imm(0)), plan.builder)
  {
    hide IsClassifier, IsBuilder;
  }

  /**
    The class of every execution of an accepted classifier that arrives at the builder: what the
    read deserves if there was one, 3 if the name was null, and 4 if it was neither read nor null.
  */
  lemma {:induction false} ClassTable(plan: Plan, code: Code, env: Env, inc: Facts, run: seq<Machine>)
    requires Matched(plan, code) && Fixpoint(plan, code, inc) && AllGood(plan, inc) && Arrives(plan, code, env, run)
    ensures var class_ := HistoryAt(plan, code, run, |run| - 1).expected;
            var unread := forall i :: 0 <= i < |run| ==> run[i].at != plan.read;
            && (forall i :: 0 <= i < |run| - 1 && run[i].at == plan.read ==>
                  |run[i + 1].regs| == 11 && class_ == ClassOfRead(run[i + 1]))
            && (unread && |run| > 1 && run[|run| - 2].at == plan.guard ==> class_ == 3)
            && (unread && !(|run| > 1 && run[|run| - 2].at == plan.guard) ==> class_ == 4)
  {
    hide Matched, Fixpoint, AllGood, ArgumentsHold, Step, HistoryAt, ClassOfRead;
    forall i | 0 <= i < |run| - 1 && run[i].at == plan.read
      ensures |run[i + 1].regs| == 11 && HistoryAt(plan, code, run, |run| - 1).expected == ClassOfRead(run[i + 1])
    {
      ReadDecidesClass(plan, code, env, run, i);
    }
    NullClassMeansNoName(plan, code, env, run);
    if forall i :: 0 <= i < |run| ==> run[i].at != plan.read {
      UnreadStaysFour(plan, code, env, inc, run, |run| - 1);
    }
  }
}
