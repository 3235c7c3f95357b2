/**
  Decoding a section of legacy map definitions
  (scripts/check-bpf-map-defs.py, decode_map_definitions): symbols name 28-byte rows of seven
  little-endian words, which must tile the section.
*/
module MapDefinitions {
  import opened Options

  const ROW: nat := 28

  type Byte = b: int | 0 <= b < 256

  /** Seven words: type, key size, value size, maximum entries, flags, id and pinning. */
  const FIELDS: nat := 7
  type Definition = seq<nat>

  /** A symbol of the table: an object or not, in which section, where, how large, and its name. */
  datatype Record = Record(offset: nat, size: nat, isObject: bool, section: nat, name: string)

  datatype Symbol = Symbol(offset: nat, size: nat, name: string)

  function Selected(records: seq<Record>, section: nat): seq<Symbol> {
    if records == [] then []
    else
      var r, rest := records[|records| - 1], Selected(records[..|records| - 1], section);
      if r.isObject && r.section == section then rest + [Symbol(r.offset, r.size, r.name)] else rest
  }

  /** The record that names this symbol in a section. */
  function ObjectIn(s: Symbol, section: nat): Record {
    Record(s.offset, s.size, true, section, s.name)
  }

  /** A symbol is selected as often as the table has its object in the section, and nothing else is. */
  lemma {:induction false} SelectedCounts(records: seq<Record>, section: nat, s: Symbol)
    ensures multiset(Selected(records, section))[s] == multiset(records)[ObjectIn(s, section)]
  {
    if records != [] {
      var n := |records| - 1;
      SelectedCounts(records[..n], section, s);
      assert records == records[..n] + [records[n]];
    }
  }

  /** The objects of a section are these symbols, whatever else the table holds and in any order. */
  ghost predicate ObjectsAre(records: seq<Record>, section: nat, symbols: seq<Symbol>) {
    forall s: Symbol :: multiset(records)[ObjectIn(s, section)] == multiset(symbols)[s]
  }

  lemma {:induction false} SelectedAre(records: seq<Record>, section: nat, symbols: seq<Symbol>)
    requires ObjectsAre(records, section, symbols)
    ensures multiset(Selected(records, section)) == multiset(symbols)
  {
    forall s: Symbol ensures multiset(Selected(records, section))[s] == multiset(symbols)[s] {
      SelectedCounts(records, section, s);
    }
  }

  // ---------------------------------------------------------------- words

  function Word(data: seq<Byte>, at: nat): nat
    requires at + 4 <= |data|
  {
    data[at] as int + 0x100 * data[at + 1] as int + 0x1_0000 * data[at + 2] as int + 0x100_0000 * data[at + 3] as int
  }

  function Bytes(word: nat): (b: seq<Byte>)
    requires word < 0x1_0000_0000
    ensures |b| == 4
  {
    [word % 0x100, word / 0x100 % 0x100, word / 0x1_0000 % 0x100, word / 0x100_0000]
  }

  lemma WordOfBytes(word: nat)
    requires word < 0x1_0000_0000
    ensures Word(Bytes(word), 0) == word
  {
    assert word / 0x1_0000 == word / 0x100 / 0x100 && word / 0x100_0000 == word / 0x1_0000 / 0x100;
  }

  function Unpack(data: seq<Byte>, at: nat, fields: nat): (d: Definition)
    requires at + 4 * fields <= |data|
    ensures |d| == fields
    decreases fields
  {
    if fields == 0 then [] else [Word(data, at)] + Unpack(data, at + 4, fields - 1)
  }

  predicate Packable(d: Definition) {
    forall k :: 0 <= k < |d| ==> d[k] < 0x1_0000_0000
  }

  function Pack(d: Definition): (b: seq<Byte>)
    requires Packable(d)
    ensures |b| == 4 * |d|
  {
    if d == [] then [] else Bytes(d[0]) + Pack(d[1..])
  }

  /** Unpacking finds what was packed, wherever it lies. */
  lemma {:induction false} UnpackPacked(data: seq<Byte>, at: nat, d: Definition)
    requires Packable(d) && at + 4 * |d| <= |data| && data[at..at + 4 * |d|] == Pack(d)
    ensures Unpack(data, at, |d|) == d
    decreases |d|
  {
    if d != [] {
      var row := data[at..at + 4 * |d|];
      assert forall i :: 0 <= i < 4 ==> data[at + i] == row[i] && row[i] == Bytes(d[0])[i];
      WordOfBytes(d[0]);
      assert data[at + 4..at + 4 + 4 * |d[1..]|] == row[4..];
      assert row[4..] == Pack(d[1..]);
      UnpackPacked(data, at + 4, d[1..]);
    }
  }

  // ---------------------------------------------------------------- order

  /** The order of names, character by character. */
  predicate NameBefore(a: string, b: string) {
    a == [] || (b != [] && (a[0] < b[0] || (a[0] == b[0] && NameBefore(a[1..], b[1..]))))
  }

  /** Symbols sort by offset, then size, then name. */
  predicate Before(a: Symbol, b: Symbol) {
    a.offset < b.offset || (a.offset == b.offset && (a.size < b.size || (a.size == b.size && NameBefore(a.name, b.name))))
  }

  lemma {:induction false} NameOrder(a: string, b: string)
    ensures NameBefore(a, b) || NameBefore(b, a)
    ensures NameBefore(a, b) && NameBefore(b, a) ==> a == b
  {
    if a != [] && b != [] {
      NameOrder(a[1..], b[1..]);
      assert a == [a[0]] + a[1..] && b == [b[0]] + b[1..];
    }
  }

  lemma {:induction false} NameChain(a: string, b: string, c: string)
    requires NameBefore(a, b) && NameBefore(b, c)
    ensures NameBefore(a, c)
  {
    if a != [] && a[0] == b[0] == c[0] {
      NameChain(a[1..], b[1..], c[1..]);
    }
  }

  lemma BeforeOrder(a: Symbol, b: Symbol)
    ensures Before(a, b) || Before(b, a)
    ensures Before(a, b) && Before(b, a) ==> a == b
  {
    NameOrder(a.name, b.name);
  }

  lemma BeforeChain(a: Symbol, b: Symbol, c: Symbol)
    requires Before(a, b) && Before(b, c)
    ensures Before(a, c)
  {
    if a.offset == c.offset && a.size == c.size { NameChain(a.name, b.name, c.name); }
  }

  ghost predicate InOrder(s: seq<Symbol>) {
    forall i, j :: 0 <= i < j < |s| ==> Before(s[i], s[j])
  }

  /** Sorted lists of the same symbols are the same list. */
  lemma {:induction false} SortedOnce(a: seq<Symbol>, b: seq<Symbol>)
    requires InOrder(a) && InOrder(b) && multiset(a) == multiset(b)
    ensures a == b
    decreases |a|
  {
    hide InOrder, Before;
    SameLength(a, b);
    if a != [] {
      FirstIsLeast(a, b[0]);
      FirstIsLeast(b, a[0]);
      BeforeOrder(a[0], b[0]);
      RestOf(a);
      RestOf(b);
      SortedOnce(a[1..], b[1..]);
      assert a == [a[0]] + a[1..] && b == [b[0]] + b[1..];
    }
  }

  lemma SameLength(a: seq<Symbol>, b: seq<Symbol>)
    requires multiset(a) == multiset(b)
    ensures |a| == |b| && (a != [] ==> a[0] in multiset(b) && b[0] in multiset(a))
  {
    assert |a| == |multiset(a)| && |b| == |multiset(b)|;
    if a != [] {
      assert a[0] in multiset(a) && b[0] in multiset(b);
    }
  }

  lemma RestOf(a: seq<Symbol>)
    requires a != []
    ensures multiset(a[1..]) == multiset(a) - multiset{a[0]}
    ensures InOrder(a) ==> InOrder(a[1..])
  {
    assert a == [a[0]] + a[1..];
  }

  lemma FirstIsLeast(a: seq<Symbol>, x: Symbol)
    requires a != [] && InOrder(a) && x in multiset(a)
    ensures a[0] == x || Before(a[0], x)
  {
    var i :| 0 <= i < |a| && a[i] == x;
  }

  /** Puts a symbol where it belongs. */
  function Insert(s: seq<Symbol>, x: Symbol): seq<Symbol> {
    if s == [] || Before(s[|s| - 1], x) then s + [x]
    else Insert(s[..|s| - 1], x) + [s[|s| - 1]]
  }

  lemma {:induction false} InsertKeeps(s: seq<Symbol>, x: Symbol)
    requires InOrder(s)
    ensures InOrder(Insert(s, x)) && multiset(Insert(s, x)) == multiset(s) + multiset{x}
    decreases |s|
  {
    if s != [] {
      var last, rest := s[|s| - 1], s[..|s| - 1];
      assert s == rest + [last];
      if Before(last, x) {
        forall i | 0 <= i < |rest| ensures Before(s[i], x) {
          BeforeChain(s[i], last, x);
        }
      } else {
        InsertKeeps(rest, x);
        BeforeOrder(last, x);
        var r := Insert(rest, x);
        forall i | 0 <= i < |r| ensures Before(r[i], last) {
          assert r[i] in multiset(r);
        }
      }
    }
  }

  function Sort(s: seq<Symbol>): seq<Symbol> {
    if s == [] then [] else Insert(Sort(s[..|s| - 1]), s[|s| - 1])
  }

  lemma {:induction false} SortSorts(s: seq<Symbol>)
    ensures InOrder(Sort(s)) && multiset(Sort(s)) == multiset(s)
  {
    if s != [] {
      var rest := s[..|s| - 1];
      SortSorts(rest);
      InsertKeeps(Sort(rest), s[|s| - 1]);
      assert s == rest + [s[|s| - 1]];
    }
  }

  // ---------------------------------------------------------------- decoding

  /** The symbols, rearranged, are back-to-back rows that fill a section of this length, each with its own name. */
  ghost predicate Tiling(row: seq<Symbol>, objects: seq<Symbol>, length: nat) {
    multiset(row) == multiset(objects) && ROW * |row| == length && Rows(row)
  }

  ghost predicate Rows(row: seq<Symbol>) {
    && (forall i :: 0 <= i < |row| ==> row[i].offset == ROW * i && row[i].size == ROW)
    && (forall i, j :: 0 <= i < j < |row| ==> row[i].name != row[j].name)
  }

  lemma RowsInOrder(row: seq<Symbol>)
    requires Rows(row)
    ensures InOrder(row)
  {}

  /** The definition each name stands for. */
  function Table(row: seq<Symbol>, data: seq<Byte>): map<string, Definition>
    requires ROW * |row| <= |data|
  {
    if row == [] then map[]
    else
      var n := |row| - 1;
      Table(row[..n], data)[row[n].name := Unpack(data, ROW * n, FIELDS)]
  }

  lemma {:induction false} TableNames(row: seq<Symbol>, data: seq<Byte>)
    requires ROW * |row| <= |data|
    ensures forall name :: name in Table(row, data) <==> Names(row, name)
  {
    hide Unpack;
    if row != [] {
      var n := |row| - 1;
      TableNames(row[..n], data);
      forall name ensures Names(row, name) <==> name == row[n].name || Names(row[..n], name) {
        NamesLast(row, name);
      }
    }
  }

  ghost predicate Names(row: seq<Symbol>, name: string) {
    exists i :: 0 <= i < |row| && row[i].name == name
  }

  lemma NamesLast(row: seq<Symbol>, name: string)
    requires row != []
    ensures Names(row, name) <==> name == row[|row| - 1].name || Names(row[..|row| - 1], name)
  {
    assert forall i :: 0 <= i < |row| - 1 ==> row[i] == row[..|row| - 1][i];
  }

  /** A tiling, if there is one, is the sorted list. */
  lemma {:induction false} TilingIsSorted(row: seq<Symbol>, objects: seq<Symbol>, length: nat)
    requires Tiling(row, objects, length)
    ensures row == Sort(objects)
  {
    RowsInOrder(row);
    SortSorts(objects);
    SortedOnce(row, Sort(objects));
  }

  /** Accepts exactly the symbol lists that tile the section, and gives each row to its name. */
  method Decode(records: seq<Record>, section: nat, data: seq<Byte>) returns (r: Option<map<string, Definition>>)
    ensures r.Some? <==> exists row :: Tiling(row, Selected(records, section), |data|)
    ensures forall row :: Tiling(row, Selected(records, section), |data|) ==>
              ROW * |row| == |data| && r == Some(Table(row, data))
  {
    var objects := Sort(Selected(records, section));
    r := DecodeSorted(objects, data);
    SortSorts(Selected(records, section));
    hide Sort, Selected, Table, Rows;
    forall row | Tiling(row, Selected(records, section), |data|)
      ensures row == objects && ROW * |row| == |data| && r == Some(Table(row, data))
    {
      TilingIsSorted(row, Selected(records, section), |data|);
    }
    if r.Some? {
      assert Tiling(objects, Selected(records, section), |data|);
    }
  }

  lemma {:induction false} NoRows(objects: seq<Symbol>, data: seq<Byte>)
    ensures Rows(objects[..0]) && Table(objects[..0], data) == map[]
  {}

  /** One more row: what it takes, and what it gives. */
  lemma {:induction false} RowsNext(objects: seq<Symbol>, k: nat, data: seq<Byte>)
    requires k < |objects| && Rows(objects[..k]) && ROW * k <= |data|
    ensures Rows(objects) ==> Rows(objects[..k + 1])
    ensures var s := objects[k];
            && (Rows(objects[..k + 1]) <==> s.name !in Table(objects[..k], data) && s.size == ROW && s.offset == ROW * k)
            && (Rows(objects[..k + 1]) && ROW * k + ROW <= |data| ==>
                  Table(objects[..k + 1], data) == Table(objects[..k], data)[s.name := Unpack(data, s.offset, FIELDS)])
  {
    hide Unpack;
    var s := objects[k];
    TableNames(objects[..k], data);
    assert objects[..k + 1] == objects[..k] + [s] && objects[..k + 1][..k] == objects[..k];
  }

  /** The loop over the sorted symbols. */
  method DecodeSorted(objects: seq<Symbol>, data: seq<Byte>) returns (r: Option<map<string, Definition>>)
    ensures r.Some? <==> Rows(objects) && ROW * |objects| == |data|
    ensures r.Some? ==> r.value == Table(objects, data)
  {
    hide Unpack, Rows, Table;
    NoRows(objects, data);
    var maps: map<string, Definition>, cursor: nat := map[], 0;
    for k := 0 to |objects|
      invariant cursor == ROW * k <= |data| && Rows(objects[..k]) && maps == Table(objects[..k], data)
    {
      var s := objects[k];
      RowsNext(objects, k, data);
      if s.name in maps {
        return None;
      }
      if s.size != ROW {
        return None;
      }
      if s.offset % 4 != 0 {
        return None;
      }
      if s.offset != cursor {
        return None;
      }
      if s.offset + s.size > |data| {
        return None;
      }
      maps := maps[s.name := Unpack(data, s.offset, FIELDS)];
      cursor := cursor + s.size;
    }
    assert objects[..|objects|] == objects;
    if cursor != |data| {
      return None;
    }
    return Some(maps);
  }

  /** The order of the symbol table does not matter, nor what else is in it. */
  method DecodeReordered(a: seq<Record>, b: seq<Record>, section: nat, data: seq<Byte>)
    returns (x: Option<map<string, Definition>>, y: Option<map<string, Definition>>)
    requires forall s: Symbol :: multiset(a)[ObjectIn(s, section)] == multiset(b)[ObjectIn(s, section)]
    ensures x == y
  {
    forall s: Symbol ensures multiset(b)[ObjectIn(s, section)] == multiset(Selected(b, section))[s] {
      SelectedCounts(b, section, s);
    }
    SelectedAre(a, section, Selected(b, section));
    x := Decode(a, section, data);
    y := Decode(b, section, data);
    var p, q := Selected(a, section), Selected(b, section);
    assert forall row :: Tiling(row, p, |data|) <==> Tiling(row, q, |data|);
  }

  // ---------------------------------------------------------------- encoding

  datatype Named = Named(name: string, definition: Definition)

  ghost predicate Encodable(defs: seq<Named>) {
    && (forall i :: 0 <= i < |defs| ==> |defs[i].definition| == FIELDS && Packable(defs[i].definition))
    && (forall i, j :: 0 <= i < j < |defs| ==> defs[i].name != defs[j].name)
  }

  /** The symbols, bytes and contents of a section with these definitions, laid out in order. */
  function Layout(defs: seq<Named>): (row: seq<Symbol>)
    ensures |row| == |defs| && forall i :: 0 <= i < |row| ==> row[i] == Symbol(ROW * i, ROW, defs[i].name)
  {
    if defs == [] then []
    else
      var n := |defs| - 1;
      Layout(defs[..n]) + [Symbol(ROW * n, ROW, defs[n].name)]
  }

  function Image(defs: seq<Named>): (data: seq<Byte>)
    requires Encodable(defs)
    ensures |data| == ROW * |defs|
  {
    if defs == [] then []
    else Image(defs[..|defs| - 1]) + Pack(defs[|defs| - 1].definition)
  }

  function Contents(defs: seq<Named>): map<string, Definition> {
    if defs == [] then map[]
    else
      var n := |defs| - 1;
      Contents(defs[..n])[defs[n].name := defs[n].definition]
  }

  lemma {:induction false} ImageRow(defs: seq<Named>, k: nat)
    requires Encodable(defs) && k < |defs|
    ensures Image(defs)[ROW * k..ROW * k + ROW] == Pack(defs[k].definition)
    decreases |defs|
  {
    var n := |defs| - 1;
    if k < n {
      ImageRow(defs[..n], k);
      assert Image(defs)[ROW * k..ROW * k + ROW] == Image(defs[..n])[ROW * k..ROW * k + ROW];
    }
  }

  lemma {:induction false} UnpackImage(defs: seq<Named>, k: nat)
    requires Encodable(defs) && k < |defs|
    ensures Unpack(Image(defs), ROW * k, FIELDS) == defs[k].definition
  {
    ImageRow(defs, k);
    hide Image, Unpack, Pack;
    UnpackPacked(Image(defs), ROW * k, defs[k].definition);
  }

  /** A prefix of the layout over the whole image gives a prefix of the contents. */
  lemma {:induction false} TableOfImage(defs: seq<Named>, n: nat)
    requires Encodable(defs) && n <= |defs|
    ensures Table(Layout(defs)[..n], Image(defs)) == Contents(defs[..n])
    decreases n
  {
    hide Image, Layout, Unpack, Encodable;
    if n > 0 {
      TableOfImage(defs, n - 1);
      UnpackImage(defs, n - 1);
      assert Layout(defs)[..n][..n - 1] == Layout(defs)[..n - 1] && defs[..n][..n - 1] == defs[..n - 1];
    }
  }

  /** The names are mapped to their definitions, and nothing else is. */
  ghost predicate Holds(maps: map<string, Definition>, defs: seq<Named>) {
    && (forall k :: 0 <= k < |defs| ==> defs[k].name in maps && maps[defs[k].name] == defs[k].definition)
    && forall name :: name in maps ==> exists k :: 0 <= k < |defs| && defs[k].name == name
  }

  /** Decoding inverts laying out, whatever order the symbols come in. */
  method RoundTrip(defs: seq<Named>, records: seq<Record>, section: nat) returns (r: Option<map<string, Definition>>)
    requires Encodable(defs) && ObjectsAre(records, section, Layout(defs))
    ensures r.Some? && Holds(r.value, defs)
  {
    SelectedAre(records, section, Layout(defs));
    hide Image, Layout, Table, Contents, Tiling, Selected, Holds;
    LayoutTiles(defs, Selected(records, section));
    TableOfAll(defs);
    ContentsHolds(defs);
    r := Decode(records, section, Image(defs));
  }

  lemma {:induction false} LayoutTiles(defs: seq<Named>, objects: seq<Symbol>)
    requires Encodable(defs) && multiset(objects) == multiset(Layout(defs))
    ensures Tiling(Layout(defs), objects, |Image(defs)|)
  {
    hide Image, Layout;
  }

  lemma {:induction false} TableOfAll(defs: seq<Named>)
    requires Encodable(defs)
    ensures Table(Layout(defs), Image(defs)) == Contents(defs)
  {
    hide Image, Layout, Table, Contents;
    TableOfImage(defs, |defs|);
    assert Layout(defs)[..|defs|] == Layout(defs) && defs[..|defs|] == defs;
  }

  lemma {:induction false} ContentsAt(defs: seq<Named>, k: nat)
    requires Encodable(defs) && k < |defs|
    ensures defs[k].name in Contents(defs) && Contents(defs)[defs[k].name] == defs[k].definition
    decreases |defs|
  {
    if k < |defs| - 1 {
      ContentsAt(defs[..|defs| - 1], k);
    }
  }

  lemma {:induction false} ContentsOnly(defs: seq<Named>, name: string) returns (k: nat)
    requires name in Contents(defs)
    ensures k < |defs| && defs[k].name == name
    decreases |defs|
  {
    var n := |defs| - 1;
    if name == defs[n].name { k := n; } else { k := ContentsOnly(defs[..n], name); }
  }

  lemma {:induction false} ContentsHolds(defs: seq<Named>)
    requires Encodable(defs)
    ensures Holds(Contents(defs), defs)
  {
    hide Contents, Encodable;
    forall k | 0 <= k < |defs| ensures defs[k].name in Contents(defs) && Contents(defs)[defs[k].name] == defs[k].definition {
      ContentsAt(defs, k);
    }
    forall name | name in Contents(defs) ensures exists k :: 0 <= k < |defs| && defs[k].name == name {
      var k := ContentsOnly(defs, name);
    }
  }
}
