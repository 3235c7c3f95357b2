/**
  Sizes of types in a BTF table (scripts/check-bpf-map-defs.py, Btf.resolve and Btf.size).

  A table comes from a file: its references may run in circles.  Resolution follows modifiers
  (typedef, const, volatile, restrict, type tag) up to 64 of them; sizing recurses into members
  and elements up to 64 deep and remembers the references it came through.
*/
module BtfSize {
  import opened Options

  const LIMIT: nat := 64
  const MAX_SIZE: nat := 0xffff_ffff

  /** A member as stored: with bit fields, the top byte of the offset word is the width. */
  datatype Member = Member(typ: nat, word: nat)

  datatype Node =
    | Int(size: nat, encoding: nat)
    | Pointer(target: nat)
    | Array(element: nat, index: nat, count: nat)
    | Composite(size: nat, members: seq<Member>, bitFields: bool)
    | Plain(size: nat)
    | Modifier(target: nat)
    | Unsized

  type Table = seq<Node>

  function Width(m: Member, bitFields: bool): nat {
    if bitFields then m.word / 0x100_0000 else 0
  }

  function Offset(m: Member, bitFields: bool): nat {
    if bitFields then m.word % 0x100_0000 else m.word
  }

  /** Stored words come apart as they were put together. */
  lemma StoredMember(typ: nat, width: nat, offset: nat)
    requires width < 0x100 && offset < 0x100_0000
    ensures var m := Member(typ, width * 0x100_0000 + offset);
            && Width(m, true) == width && Offset(m, true) == offset
            && Width(m, false) == 0 && Offset(m, false) == m.word
  {}

  /** No reserved bit is set and the value bits lie within the storage. */
  predicate IntFits(size: nat, encoding: nat) {
    && encoding < 0x800_0000 && (encoding / 0x100) % 0x100 == 0
    && (size == 1 || size == 2 || size == 4 || size == 8 || size == 16)
    && encoding % 0x100 != 0 && (encoding / 0x1_0000) % 0x100 + encoding % 0x100 <= size * 8
  }

  predicate Sound(node: Node) {
    !node.Modifier? && (node.Int? ==> IntFits(node.size, node.encoding))
  }

  // ---------------------------------------------------------------- resolution

  /** What a reference stands for if at most this many nodes may be looked at. */
  function ResolveWithin(t: Table, ref: nat, nodes: nat): (r: Option<nat>)
    ensures r.Some? ==> 0 < r.value < |t| && Sound(t[r.value])
    decreases nodes
  {
    if ref == 0 || ref >= |t| || nodes == 0 then None
    else if t[ref].Modifier? then ResolveWithin(t, t[ref].target, nodes - 1)
    else if Sound(t[ref]) then Some(ref)
    else None
  }

  function Target(t: Table, ref: nat): Option<nat> {
    ResolveWithin(t, ref, LIMIT)
  }

  function After<T>(c: seq<T>, j: nat): T
    requires j < |c|
  {
    if j + 1 == |c| then c[0] else c[j + 1]
  }

  ghost predicate ModifierCycle(t: Table, c: seq<nat>) {
    forall j :: 0 <= j < |c| ==> 0 < c[j] < |t| && t[c[j]].Modifier? && t[c[j]].target == After(c, j)
  }

  /** A circle of modifiers stands for nothing, however long one looks. */
  lemma {:induction false} CycleResolvesNowhere(t: Table, c: seq<nat>, j: nat, nodes: nat)
    requires ModifierCycle(t, c) && j < |c|
    ensures ResolveWithin(t, c[j], nodes) == None
    decreases nodes
  {
    if nodes > 0 {
      CycleResolvesNowhere(t, c, if j + 1 == |c| then 0 else j + 1, nodes - 1);
    }
  }

  /** These modifiers were passed, one after the other, on the way here. */
  ghost predicate Trail(t: Table, trail: seq<nat>, at: nat) {
    forall j :: 0 <= j < |trail| ==>
      0 < trail[j] < |t| && t[trail[j]].Modifier? && t[trail[j]].target == NextOn(trail, at, j)
  }

  function NextOn(trail: seq<nat>, at: nat, j: nat): nat
    requires j < |trail|
  {
    if j + 1 == |trail| then at else trail[j + 1]
  }

  lemma TrailNone(t: Table, at: nat)
    ensures Trail(t, [], at)
  {}

  lemma TrailMore(t: Table, trail: seq<nat>, at: nat)
    requires Trail(t, trail, at) && 0 < at < |t| && t[at].Modifier?
    ensures Trail(t, trail + [at], t[at].target)
  {
    var more := trail + [at];
    forall j | 0 <= j < |more| ensures 0 < more[j] < |t| && t[more[j]].Modifier? && t[more[j]].target == NextOn(more, t[at].target, j) {
      if j < |trail| { assert NextOn(trail, at, j) == more[j + 1]; }
    }
  }

  lemma TrailCycle(t: Table, trail: seq<nat>, at: nat, k: nat)
    requires Trail(t, trail, at) && k < |trail| && trail[k] == at
    ensures ModifierCycle(t, trail[k..])
  {
    var c := trail[k..];
    forall j | 0 <= j < |c| ensures 0 < c[j] < |t| && t[c[j]].Modifier? && t[c[j]].target == After(c, j) {
      assert c[j] == trail[k + j] && NextOn(trail, at, k + j) == After(c, j);
    }
  }

  /** The loop that remembers where it has been finds exactly this: the memory is not needed. */
  method Resolve(t: Table, ref: nat) returns (r: Option<nat>)
    ensures r == Target(t, ref)
  {
    hide Trail, ModifierCycle, IntFits;
    TrailNone(t, ref);
    var at: nat, seen: set<nat> := ref, {};
    ghost var trail: seq<nat> := [];
    while at != 0 && at < |t|
      invariant |seen| == |trail| <= LIMIT && (forall x :: x in seen <==> x in trail)
      invariant Trail(t, trail, at)
      invariant ResolveWithin(t, ref, LIMIT) == ResolveWithin(t, at, LIMIT - |trail|)
      decreases LIMIT - |seen|
    {
      if at in seen || |seen| >= LIMIT {
        if at in seen {
          ghost var k :| 0 <= k < |trail| && trail[k] == at;
          TrailCycle(t, trail, at, k);
          CycleResolvesNowhere(t, trail[k..], 0, LIMIT - |trail|);
        }
        return None;
      }
      seen := seen + {at};
      if !t[at].Modifier? {
        return if Sound(t[at]) then Some(at) else None;
      }
      TrailMore(t, trail, at);
      trail, at := trail + [at], t[at].target;
    }
    return None;
  }

  // ---------------------------------------------------------------- sizes

  /** A member of this size, or a field of its width, ends within the composite. */
  predicate MemberFits(m: Member, bitFields: bool, memberSize: nat, size: nat) {
    var width, bits := Width(m, bitFields), memberSize * 8;
    Offset(m, bitFields) + (if width != 0 then width else bits) <= size * 8 && width <= bits
  }

  function InRange(size: nat): Option<nat> {
    if 0 < size <= MAX_SIZE then Some(size) else None
  }

  function IsInt(t: Table, ref: nat): bool {
    var at := Target(t, ref);
    at.Some? && t[at.value].Int?
  }

  /** The size of a type as the source computes it: seen are the references on the way here. */
  function Size(t: Table, ref: nat, seen: seq<nat>): (r: Option<nat>)
    ensures r.Some? ==> 0 < r.value <= MAX_SIZE
    decreases LIMIT - |seen|
  {
    if ref in seen || |seen| >= LIMIT || Target(t, ref).None? then None
    else
      match t[Target(t, ref).value]
      case Int(size, _) => InRange(size)
      case Plain(size) => InRange(size)
      case Pointer(_) => Some(8)
      case Composite(size, members, bitFields) =>
        if forall i | 0 <= i < |members| ::
             var m := Size(t, members[i].typ, seen + [ref]);
             m.Some? && MemberFits(members[i], bitFields, m.value, size)
        then InRange(size) else None
      case Array(element, index, count) =>
        var e := Size(t, element, seen + [ref]);
        if IsInt(t, index) && e.Some? then InRange(e.value * count) else None
      case _ => None
  }

  /** The size of a type by plain recursion on its structure, to a depth. */
  function SizeBy(t: Table, ref: nat, depth: nat): (r: Option<nat>)
    ensures r.Some? ==> 0 < r.value <= MAX_SIZE
    decreases depth
  {
    if depth == 0 || Target(t, ref).None? then None
    else
      match t[Target(t, ref).value]
      case Int(size, _) => InRange(size)
      case Plain(size) => InRange(size)
      case Pointer(_) => Some(8)
      case Composite(size, members, bitFields) =>
        if forall i | 0 <= i < |members| ::
             var m := SizeBy(t, members[i].typ, depth - 1);
             m.Some? && MemberFits(members[i], bitFields, m.value, size)
        then InRange(size) else None
      case Array(element, index, count) =>
        var e := SizeBy(t, element, depth - 1);
        if IsInt(t, index) && e.Some? then InRange(e.value * count) else None
      case _ => None
  }

  /** The size of the first needs the size of the second. */
  ghost predicate Needs(t: Table, ref: nat, part: nat) {
    var at := Target(t, ref);
    && at.Some?
    && match t[at.value] {
         case Array(element, _, _) => element == part
         case Composite(_, members, _) => exists i :: 0 <= i < |members| && members[i].typ == part
         case _ => false
       }
  }

  lemma NeededSize(t: Table, ref: nat, part: nat, depth: nat)
    requires Needs(t, ref, part) && SizeBy(t, ref, depth).Some?
    ensures depth > 0 && SizeBy(t, part, depth - 1).Some?
  {}

  ghost predicate NeedCycle(t: Table, c: seq<nat>) {
    forall j :: 0 <= j < |c| ==> Needs(t, c[j], After(c, j))
  }

  /** A type that contains itself, over however many steps, has no size at any depth. */
  lemma {:induction false} CycleHasNoSize(t: Table, c: seq<nat>, j: nat, depth: nat)
    requires NeedCycle(t, c) && j < |c|
    ensures SizeBy(t, c[j], depth) == None
    decreases depth
  {
    if SizeBy(t, c[j], depth).Some? {
      NeededSize(t, c[j], After(c, j), depth);
      CycleHasNoSize(t, c, if j + 1 == |c| then 0 else j + 1, depth - 1);
    }
  }

  /** The references remembered are the way the recursion came. */
  ghost predicate Way(t: Table, seen: seq<nat>, ref: nat) {
    forall j :: 0 <= j < |seen| ==> Needs(t, seen[j], NextOn(seen, ref, j))
  }

  lemma WayMore(t: Table, seen: seq<nat>, ref: nat, part: nat)
    requires Way(t, seen, ref) && Needs(t, ref, part)
    ensures Way(t, seen + [ref], part)
  {
    hide Needs;
    var more := seen + [ref];
    forall j | 0 <= j < |more| ensures Needs(t, more[j], NextOn(more, part, j)) {
      if j < |seen| { assert NextOn(seen, ref, j) == more[j + 1]; }
    }
  }

  lemma WayCycle(t: Table, seen: seq<nat>, ref: nat, k: nat)
    requires Way(t, seen, ref) && k < |seen| && seen[k] == ref
    ensures NeedCycle(t, seen[k..])
  {
    hide Needs;
    var c := seen[k..];
    forall j | 0 <= j < |c| ensures Needs(t, c[j], After(c, j)) {
      assert c[j] == seen[k + j] && NextOn(seen, ref, k + j) == After(c, j);
    }
  }

  /** The memory is not needed here either: depth alone decides, and circles run out of depth. */
  lemma {:induction false} SizeIsSizeBy(t: Table, ref: nat, seen: seq<nat>)
    requires Way(t, seen, ref) && |seen| <= LIMIT
    ensures Size(t, ref, seen) == SizeBy(t, ref, LIMIT - |seen|)
    decreases LIMIT - |seen|
  {
    if ref in seen {
      var k :| 0 <= k < |seen| && seen[k] == ref;
      WayCycle(t, seen, ref, k);
      CycleHasNoSize(t, seen[k..], 0, LIMIT - |seen|);
    } else if |seen| < LIMIT && Target(t, ref).Some? {
      match t[Target(t, ref).value]
      case Composite(size, members, bitFields) =>
        forall i | 0 <= i < |members|
          ensures Size(t, members[i].typ, seen + [ref]) == SizeBy(t, members[i].typ, LIMIT - |seen| - 1)
        {
          WayMore(t, seen, ref, members[i].typ);
          SizeIsSizeBy(t, members[i].typ, seen + [ref]);
        }
      case Array(element, _, _) =>
        WayMore(t, seen, ref, element);
        SizeIsSizeBy(t, element, seen + [ref]);
      case _ =>
    }
  }

  /** More depth never changes a size once there is one. */
  lemma {:induction false} SizeByGrows(t: Table, ref: nat, d: nat, e: nat)
    requires SizeBy(t, ref, d).Some? && d <= e
    ensures SizeBy(t, ref, e) == SizeBy(t, ref, d)
    decreases d
  {
    match t[Target(t, ref).value]
    case Composite(size, members, bitFields) =>
      forall i | 0 <= i < |members|
        ensures SizeBy(t, members[i].typ, e - 1) == SizeBy(t, members[i].typ, d - 1)
      {
        NeededSize(t, ref, members[i].typ, d);
        SizeByGrows(t, members[i].typ, d - 1, e - 1);
      }
    case Array(element, _, _) =>
      SizeByGrows(t, element, d - 1, e - 1);
    case _ =>
  }

  /** The size of a type by structure alone, to any depth. */
  ghost predicate HasSize(t: Table, ref: nat, size: nat) {
    exists depth: nat :: SizeBy(t, ref, depth) == Some(size)
  }

  /** The size by structure is unique. */
  lemma HasOneSize(t: Table, ref: nat, a: nat, b: nat)
    requires HasSize(t, ref, a) && HasSize(t, ref, b)
    ensures a == b
  {
    var d: nat :| SizeBy(t, ref, d) == Some(a);
    var e: nat :| SizeBy(t, ref, e) == Some(b);
    hide SizeBy;
    if d <= e { SizeByGrows(t, ref, d, e); } else { SizeByGrows(t, ref, e, d); }
  }

  /** What the computed size is: the size by structure, for exactly the types no deeper than 64. */
  lemma {:induction false} SizeMeans(t: Table, ref: nat)
    ensures Size(t, ref, []) == SizeBy(t, ref, LIMIT)
    ensures Size(t, ref, []).Some? ==> HasSize(t, ref, Size(t, ref, []).value)
  {
    SizeIsSizeBy(t, ref, []);
    hide SizeBy, Size;
  }

  /** A type that contains itself is refused, and has no size by structure either. */
  lemma {:induction false} ContainsItself(t: Table, c: seq<nat>, size: nat)
    requires NeedCycle(t, c) && c != []
    ensures Size(t, c[0], []) == None && !HasSize(t, c[0], size)
  {
    SizeMeans(t, c[0]);
    hide SizeBy, Size;
    CycleHasNoSize(t, c, 0, LIMIT);
    if HasSize(t, c[0], size) {
      var d: nat :| SizeBy(t, c[0], d) == Some(size);
      CycleHasNoSize(t, c, 0, d);
    }
  }

  /** A pointer has its size whatever it points to, itself included. */
  lemma {:induction false} PointerToItself(t: Table, ref: nat)
    requires 0 < ref < |t| && t[ref].Pointer?
    ensures Size(t, ref, []) == Some(8)
    ensures var list := [Unsized, Composite(8, [Member(2, 0)], false), Pointer(1)];
            Size(list, 1, []) == Some(8)
  {
    assert ResolveWithin(t, ref, LIMIT) == Some(ref);
    var list := [Unsized, Composite(8, [Member(2, 0)], false), Pointer(1)];
    assert ResolveWithin(list, 1, LIMIT) == Some(1) && ResolveWithin(list, 2, LIMIT) == Some(2);
    assert Size(list, 2, [1]) == Some(8);
    assert Size(list, 2, [] + [1]) == Some(8);
  }

  // ---------------------------------------------------------------- extents

  /** A run of bits. */
  datatype Extent = Extent(start: nat, length: nat)

  /**
    The bits, from the start of a type, of the part a path selects: a member by its position,
    an element by its index, and so on into these.  A bit field has no parts.
  */
  function Part(t: Table, ref: nat, path: seq<nat>, depth: nat): Option<Extent>
    decreases |path|
  {
    var size := SizeBy(t, ref, depth);
    if size.None? then None
    else if path == [] then Some(Extent(0, size.value * 8))
    else
      match t[Target(t, ref).value]
      case Composite(_, members, bitFields) =>
        if path[0] >= |members| then None
        else
          var m := members[path[0]];
          var width, offset := Width(m, bitFields), Offset(m, bitFields);
          if width != 0 then (if |path| == 1 then Some(Extent(offset, width)) else None)
          else Shifted(Part(t, m.typ, path[1..], depth - 1), offset)
      case Array(element, _, count) =>
        if path[0] >= count then None
        else Shifted(Part(t, element, path[1..], depth - 1), path[0] * (SizeBy(t, element, depth - 1).value * 8))
      case _ => None
  }

  function Shifted(e: Option<Extent>, base: nat): Option<Extent> {
    if e.None? then None else Some(Extent(base + e.value.start, e.value.length))
  }

  /** Every member of a sized composite is a part, at its offset, with its own size or its width. */
  lemma MemberPart(t: Table, ref: nat, depth: nat, k: nat)
    requires SizeBy(t, ref, depth).Some? && t[Target(t, ref).value].Composite? && k < |t[Target(t, ref).value].members|
    ensures var c := t[Target(t, ref).value];
            var m := c.members[k];
            var width := Width(m, c.bitFields);
            && SizeBy(t, m.typ, depth - 1).Some?
            && Part(t, ref, [k], depth)
               == Some(Extent(Offset(m, c.bitFields), if width != 0 then width else SizeBy(t, m.typ, depth - 1).value * 8))
  {
    assert [k][1..] == [];
    var m := t[Target(t, ref).value].members[k];
    assert Part(t, m.typ, [], depth - 1) == Some(Extent(0, SizeBy(t, m.typ, depth - 1).value * 8));
  }

  /** Every part of a sized type, however deep, is not empty and lies within the type. */
  lemma {:induction false} PartInside(t: Table, ref: nat, path: seq<nat>, depth: nat)
    requires Part(t, ref, path, depth).Some?
    ensures SizeBy(t, ref, depth).Some?
    ensures var e := Part(t, ref, path, depth).value;
            0 < e.length && e.start + e.length <= SizeBy(t, ref, depth).value * 8
    decreases |path|
  {
    if path != [] {
      match t[Target(t, ref).value]
      case Composite(_, members, bitFields) =>
        if Width(members[path[0]], bitFields) == 0 {
          PartInside(t, members[path[0]].typ, path[1..], depth - 1);
        }
      case Array(element, _, count) =>
        PartInside(t, element, path[1..], depth - 1);
        ElementInside(path[0], count, SizeBy(t, element, depth - 1).value);
      case _ =>
    }
  }

  lemma ElementInside(i: nat, count: nat, size: nat)
    requires i < count
    ensures i * (size * 8) + size * 8 <= size * count * 8
  {
    assert size * count * 8 == count * (size * 8);
    assert (i + 1) * (size * 8) <= count * (size * 8);
  }
}
