/**
  Scoring of one kernel's program loads (scripts/bpf-load-report.py: assign_btf_group,
  select_object_loads and evaluate).

  Loads that share a BTF id come from one object; roots only one object has tell which.  Each
  root of the requested object gets a row, and further rows report what is missing or mixed up.
*/
module LoadReport {
  import opened Options

  datatype Load = Load(
    root: string, loaded: bool, errno: int, stats: bool, processed: int, limit: int, auxiliary: bool, btf: int,
    programType: Option<int>, insnCount: Option<int>, fingerprint: Option<string>)

  // ---------------------------------------------------------------- which object a group is

  datatype Kind = Inventory | Counter | Detailed | Journal | Witness | Identity

  /** The frozen tables: roots only one kind of object has, and roots shared by several. */
  datatype Catalog = Catalog(unique: map<Kind, set<string>>, shared: set<string>, inventoryPrograms: set<string>,
                             exclusive: seq<set<string>>)

  ghost predicate Complete(c: Catalog) {
    forall k: Kind :: k in c.unique
  }

  datatype Verdict = Belongs(kind: Kind) | SharedOnly | Ambiguous | Foreign

  predicate Hits(c: Catalog, roots: set<string>, kind: Kind)
    requires Complete(c)
  {
    roots * c.unique[kind] != {}
  }

  ghost predicate Known(c: Catalog, root: string)
    requires Complete(c)
  {
    root in c.shared || exists k: Kind :: root in c.unique[k]
  }

  function AllKnown(c: Catalog): set<string>
    requires Complete(c)
  {
    c.shared + c.unique[Inventory] + c.unique[Counter] + c.unique[Detailed] + c.unique[Journal] + c.unique[Witness] + c.unique[Identity]
  }

  /** The decision list of the source: the journal pair wins over Detailed, any other mix is ambiguous. */
  function Assign(c: Catalog, roots: set<string>): Verdict
    requires Complete(c)
  {
    var inventory, counter, detailed := Hits(c, roots, Inventory), Hits(c, roots, Counter), Hits(c, roots, Detailed);
    var journal, prearm, identity := Hits(c, roots, Journal), Hits(c, roots, Witness), Hits(c, roots, Identity);
    if journal && (inventory || counter || prearm || identity) then Ambiguous
    else if journal then Belongs(Journal)
    else if prearm && (inventory || counter || detailed || identity) then Ambiguous
    else if prearm then Belongs(Witness)
    else if identity && (inventory || counter || detailed) then Ambiguous
    else if identity then Belongs(Identity)
    else if (inventory && counter) || (inventory && detailed) || (counter && detailed) then Ambiguous
    else if inventory then Belongs(Inventory)
    else if counter then Belongs(Counter)
    else if detailed then Belongs(Detailed)
    else if !(roots <= AllKnown(c)) then Foreign
    else SharedOnly
  }

  /** Journal and Detailed roots go together: a journal object is a Detailed one with a pair swapped. */
  predicate Compatible(k: Kind, l: Kind) {
    k == l || (k == Journal && l == Detailed) || (k == Detailed && l == Journal)
  }

  /** What the list decides, kind by kind. */
  lemma AssignMeans(c: Catalog, roots: set<string>)
    requires Complete(c)
    ensures match Assign(c, roots) {
              case Belongs(k) =>
                Hits(c, roots, k) && forall l: Kind :: Hits(c, roots, l) ==> l == k || (k == Journal && l == Detailed)
              case SharedOnly => (forall l: Kind :: !Hits(c, roots, l)) && forall r :: r in roots ==> r in c.shared
              case Foreign => (forall l: Kind :: !Hits(c, roots, l)) && exists r :: r in roots && !Known(c, r)
              case Ambiguous => exists k: Kind, l: Kind :: Hits(c, roots, k) && Hits(c, roots, l) && !Compatible(k, l)
            }
  {
    match Assign(c, roots)
    case Ambiguous =>
      AmbiguousMix(c, roots);
    case SharedOnly =>
      NothingHit(c, roots);
      forall r | r in roots ensures r in c.shared {
        NotUnique(c, roots, r);
      }
    case Foreign =>
      NothingHit(c, roots);
      var r :| r in roots && r !in AllKnown(c);
      NotUnique(c, roots, r);
    case Belongs(k) =>
      forall l: Kind | Hits(c, roots, l) ensures l == k || (k == Journal && l == Detailed) {
        match l case Inventory => case Counter => case Detailed => case Journal => case Witness => case Identity =>
      }
  }

  lemma NothingHit(c: Catalog, roots: set<string>)
    requires Complete(c) && (Assign(c, roots).SharedOnly? || Assign(c, roots).Foreign?)
    ensures forall l: Kind :: !Hits(c, roots, l)
  {
    forall l: Kind ensures !Hits(c, roots, l) {
      match l case Inventory => case Counter => case Detailed => case Journal => case Witness => case Identity =>
    }
  }

  lemma NotUnique(c: Catalog, roots: set<string>, r: string)
    requires Complete(c) && r in roots && forall l: Kind :: !Hits(c, roots, l)
    ensures r in AllKnown(c) <==> r in c.shared
    ensures Known(c, r) <==> r in c.shared
  {
    forall k: Kind ensures r !in c.unique[k] {
      assert !Hits(c, roots, k);
      assert r in roots * c.unique[k] <==> r in c.unique[k];
    }
  }

  lemma AmbiguousMix(c: Catalog, roots: set<string>)
    requires Complete(c) && Assign(c, roots) == Ambiguous
    ensures exists k: Kind, l: Kind :: Hits(c, roots, k) && Hits(c, roots, l) && !Compatible(k, l)
  {
    if Hits(c, roots, Journal) {
      var l := if Hits(c, roots, Inventory) then Inventory else if Hits(c, roots, Counter) then Counter else if Hits(c, roots, Witness) then Witness else Identity;
      assert Hits(c, roots, Journal) && Hits(c, roots, l) && !Compatible(Journal, l);
    } else if Hits(c, roots, Witness) {
      var l := if Hits(c, roots, Inventory) then Inventory else if Hits(c, roots, Counter) then Counter else if Hits(c, roots, Detailed) then Detailed else Identity;
      assert Hits(c, roots, Witness) && Hits(c, roots, l) && !Compatible(Witness, l);
    } else if Hits(c, roots, Identity) {
      var l := if Hits(c, roots, Inventory) then Inventory else if Hits(c, roots, Counter) then Counter else Detailed;
      assert Hits(c, roots, Identity) && Hits(c, roots, l) && !Compatible(Identity, l);
    } else {
      var k := if Hits(c, roots, Inventory) then Inventory else Counter;
      var l := if Hits(c, roots, Counter) && k != Counter then Counter else Detailed;
      assert Hits(c, roots, k) && Hits(c, roots, l) && !Compatible(k, l);
    }
  }

  // ---------------------------------------------------------------- which loads an object owns

  const UNRESOLVED := "unresolved"

  /** Auxiliary rows and unresolved successes never count. */
  predicate Counts(e: Load) {
    !e.auxiliary && !(e.root == UNRESOLVED && e.loaded)
  }

  predicate InGroup(e: Load, btf: int) {
    Counts(e) && e.root != UNRESOLVED && e.btf == btf
  }

  ghost function Group(loads: set<Load>, btf: int): set<Load> {
    set e | e in loads && InGroup(e, btf)
  }

  ghost function Roots(loads: set<Load>): set<string> {
    set e | e in loads :: e.root
  }

  predicate Wants(name: string, kind: Kind) {
    match kind
    case Inventory => name == "inventory"
    case Counter => "counter-" <= name
    case Detailed => name == "detailed" || name == "detailed-gate1"
    case Journal => name == "journal" || name == "journal-gate1"
    case Witness => name == "prearm-witness"
    case Identity => name == "identity"
  }

  /** A group of shared roots only is Detailed, or a part of Inventory. */
  predicate Takes(c: Catalog, name: string, roots: set<string>)
    requires Complete(c)
  {
    match Assign(c, roots)
    case Belongs(kind) => Wants(name, kind)
    case SharedOnly => Wants(name, Detailed) || (name == "inventory" && roots <= c.inventoryPrograms)
    case _ => false
  }

  ghost predicate Selected(c: Catalog, name: Option<string>, loads: set<Load>, e: Load)
    requires Complete(c)
  {
    && e in loads && Counts(e)
    && (name.None? || e.root == UNRESOLVED || (e.btf != 0 && Takes(c, name.value, Roots(Group(loads, e.btf)))))
  }

  lemma WantsOne(name: string, k: Kind, l: Kind)
    requires Wants(name, k) && Wants(name, l)
    ensures k == l
  {
    assert Wants(name, Counter) ==> name[0] == "counter-"[0];
    assert Wants(name, Inventory) ==> name[0] == 'i' && name[1] == 'n';
    assert Wants(name, Identity) ==> name[0] == 'i' && name[1] == 'd';
    assert Wants(name, Detailed) ==> name[0] == 'd';
    assert Wants(name, Journal) ==> name[0] == 'j';
    assert Wants(name, Witness) ==> name[0] == 'p';
  }

  /**
    A group supplies coverage to objects of one kind only, unless it has nothing but shared
    roots; and then only to Detailed, and to Inventory if every root is one of its programs.
  */
  lemma OneOwner(c: Catalog, a: string, k: Kind, b: string, l: Kind, roots: set<string>)
    requires Complete(c) && Wants(a, k) && Wants(b, l) && Takes(c, a, roots) && Takes(c, b, roots)
    ensures k == l || (Assign(c, roots) == SharedOnly && {k, l} == {Detailed, Inventory} && roots <= c.inventoryPrograms)
  {
    match Assign(c, roots)
    case Belongs(kind) =>
      WantsOne(a, k, kind);
      WantsOne(b, l, kind);
    case SharedOnly =>
      if Wants(a, Detailed) { WantsOne(a, k, Detailed); } else { WantsOne(a, k, Inventory); }
      if Wants(b, Detailed) { WantsOne(b, l, Detailed); } else { WantsOne(b, l, Inventory); }
    case _ =>
  }

  // ---------------------------------------------------------------- scoring

  datatype Status = Pass | Expected | Fail

  datatype Budgets = Budgets(minHeadroom: real, programs: map<string, map<string, int>>)

  const DEFAULT_MIN_HEADROOM: real := 5.0

  datatype Row =
    | RootRow(key: string, processed: int, limit: int, budget: Option<int>, status: Status)
    | Missing(key: string, pinned: int)
    | BothVariants(group: nat)
    | NoObject(btf: int)

  function RowStatus(r: Row): Status {
    if r.RootRow? then r.status else Fail
  }

  function Budget(budgets: Option<Budgets>, key: string, kernel: string): Option<int> {
    if budgets.Some? && key in budgets.value.programs && kernel in budgets.value.programs[key]
    then Some(budgets.value.programs[key][kernel]) else None
  }

  function ExpectedErrno(kernel: string): int {
    if "v5.15." <= kernel then 22 else 13
  }

  /** The one refusal that is expected: the two-instruction helper probe. */
  predicate IsLoopProbe(e: Load, kernel: string) {
    && e.root == UNRESOLVED && !e.loaded && e.programType == Some(2) && e.insnCount == Some(2)
    && e.fingerprint == Some("27ef27a73ecc6270") && e.errno == ExpectedErrno(kernel)
  }

  function Headroom(limit: int, processed: int): real
    requires limit > 0
  {
    (limit - processed) as real / limit as real * 100.0
  }

  /** Loaded and measured within the budget and the headroom. */
  predicate Within(e: Load, limit: int, budgets: Option<Budgets>, budget: Option<int>) {
    && e.loaded && e.stats && limit > 0
    && (budgets.Some? ==> budget.Some? && e.processed <= budget.value)
    && Headroom(limit, e.processed) >= if budgets.Some? then budgets.value.minHeadroom else DEFAULT_MIN_HEADROOM
  }

  lemma QuotientGrows(x: real, y: real, d: real)
    requires d > 0.0 && x <= y
    ensures x / d <= y / d
  {
    assert y / d - x / d == (y - x) / d;
  }

  /** The largest count decides for all entries of a root. */
  lemma LargestDecides(e: Load, processed: int, limit: int)
    requires limit > 0 && e.processed <= processed
    ensures Headroom(limit, processed) <= Headroom(limit, e.processed)
  {
    QuotientGrows((limit - processed) as real, (limit - e.processed) as real, limit as real);
  }

  /** The row of one root. */
  method Score(key: string, entries: seq<Load>, kernel: string, budgets: Option<Budgets>) returns (r: Row)
    requires entries != []
    ensures r.RootRow? && r.key == key && r.budget == Budget(budgets, key, kernel)
    ensures (exists e :: e in entries && e.processed == r.processed) && forall e :: e in entries ==> e.processed <= r.processed
    ensures r.status == Pass <==>
              && r.processed >= 0 && (forall e :: e in entries ==> e.limit == r.limit)
              && forall e :: e in entries ==> Within(e, r.limit, budgets, r.budget)
    ensures r.status == Expected <==>
              && r.processed >= 0 && r.limit > 0 && (forall e :: e in entries ==> e.limit == r.limit)
              && forall e :: e in entries ==> IsLoopProbe(e, kernel)
    ensures r.limit == if (forall e :: e in entries ==> e.limit == entries[0].limit) then entries[0].limit else -1
  {
    var processed := entries[0].processed;
    for k := 1 to |entries|
      invariant exists e :: e in entries[..k] && e.processed == processed
      invariant forall e :: e in entries[..k] ==> e.processed <= processed
    {
      assert entries[..k + 1] == entries[..k] + [entries[k]];
      if entries[k].processed > processed {
        processed := entries[k].processed;
      }
    }
    assert entries[..|entries|] == entries;
    var budget, agree := Budget(budgets, key, kernel), forall e | e in entries :: e.limit == entries[0].limit;
    var limit := if agree then entries[0].limit else -1;
    var minimum := if budgets.Some? then budgets.value.minHeadroom else DEFAULT_MIN_HEADROOM;
    var status := Pass;
    if !agree {
      status := Fail;
    } else if limit <= 0 || processed < 0 {
      status := Fail;
    } else if exists e | e in entries :: !e.loaded {
      status := if forall e | e in entries :: IsLoopProbe(e, kernel) then Expected else Fail;
    } else if exists e | e in entries :: !e.stats {
      status := Fail;
    } else if budgets.Some? && budget.None? {
      status := Fail;
    } else if budgets.Some? && processed > budget.value {
      status := Fail;
    } else if Headroom(limit, processed) < minimum {
      status := Fail;
    }
    r := RootRow(key, processed, limit, budget, status);
    if limit > 0 {
      forall e | e in entries ensures Headroom(limit, processed) <= Headroom(limit, e.processed) {
        LargestDecides(e, processed, limit);
      }
    }
  }

  // ---------------------------------------------------------------- the rows of a report

  /** A row that scores these loads of one root, in whatever order they came. */
  ghost predicate Scores(r: Row, key: string, entries: set<Load>, kernel: string, budgets: Option<Budgets>) {
    && r.RootRow? && r.key == key && r.budget == Budget(budgets, key, kernel)
    && (exists e :: e in entries && e.processed == r.processed) && (forall e :: e in entries ==> e.processed <= r.processed)
    && (if Agree(entries) then forall e :: e in entries ==> e.limit == r.limit else r.limit == -1)
    && (r.status == Pass <==>
          Agree(entries) && r.processed >= 0 && forall e :: e in entries ==> Within(e, r.limit, budgets, r.budget))
    && (r.status == Expected <==>
          Agree(entries) && r.processed >= 0 && r.limit > 0 && forall e :: e in entries ==> IsLoopProbe(e, kernel))
  }

  ghost predicate Agree(entries: set<Load>) {
    forall e, f :: e in entries && f in entries ==> e.limit == f.limit
  }

  lemma ScoresOnce(r: Row, q: Row, key: string, entries: set<Load>, kernel: string, budgets: Option<Budgets>)
    requires Scores(r, key, entries, kernel, budgets) && Scores(q, key, entries, kernel, budgets)
    ensures r == q
  {
    var e :| e in entries && e.processed == r.processed;
    var f :| f in entries && f.processed == q.processed;
    assert r.processed == q.processed && r.limit == q.limit;
  }

  function Key(name: Option<string>, root: string): string {
    (if name.Some? then name.value + "/" else "") + root
  }

  predicate UnderPrefix(name: Option<string>, key: string) {
    name.None? || name.value + "/" <= key
  }

  ghost function Chosen(c: Catalog, name: Option<string>, loads: set<Load>): set<Load>
    requires Complete(c)
  {
    set e | e in loads && Selected(c, name, loads, e)
  }

  ghost function OfRoot(loads: set<Load>, root: string): set<Load> {
    set e | e in loads && e.root == root
  }

  ghost predicate Stray(c: Catalog, loads: set<Load>, btf: int)
    requires Complete(c)
  {
    Group(loads, btf) != {} && (btf == 0 || Assign(c, Roots(Group(loads, btf))).Ambiguous? || Assign(c, Roots(Group(loads, btf))).Foreign?)
  }

  /** A report row, said in terms of the set of loads alone. */
  ghost predicate IsRow(c: Catalog, loads: set<Load>, kernel: string, budgets: Option<Budgets>, name: Option<string>, r: Row)
    requires Complete(c)
  {
    var chosen := Chosen(c, name, loads);
    match r
    case RootRow(_, _, _, _, _) =>
      exists root :: root in Roots(chosen) && Scores(r, Key(name, root), OfRoot(chosen, root), kernel, budgets)
    case Missing(key, pinned) =>
      && UnderPrefix(name, key) && Budget(budgets, key, kernel) == Some(pinned)
      && forall root :: root in Roots(chosen) ==> Key(name, root) != key
    case BothVariants(g) =>
      g < |c.exclusive| && exists a, b :: a in Roots(chosen) * c.exclusive[g] && b in Roots(chosen) * c.exclusive[g] && a != b
    case NoObject(btf) =>
      name.Some? && Stray(c, loads, btf)
  }

  lemma {:induction false} Largest(entries: set<Load>) returns (m: Load)
    requires entries != {}
    ensures m in entries && forall e :: e in entries ==> e.processed <= m.processed
    decreases |entries|
  {
    m :| m in entries;
    var rest := entries - {m};
    if rest != {} {
      var n := Largest(rest);
      if n.processed > m.processed { m := n; }
    }
    forall e | e in entries ensures e.processed <= m.processed {
      assert e in rest || e in entries - rest;
    }
  }

  /** Every root that is chosen has its row. */
  lemma RowOf(key: string, entries: set<Load>, kernel: string, budgets: Option<Budgets>) returns (r: Row)
    requires entries != {}
    ensures Scores(r, key, entries, kernel, budgets)
  {
    var m := Largest(entries);
    var limit, budget := if Agree(entries) then m.limit else -1, Budget(budgets, key, kernel);
    var passes := Agree(entries) && m.processed >= 0 && forall e :: e in entries ==> Within(e, limit, budgets, budget);
    var expected := Agree(entries) && m.processed >= 0 && limit > 0 && forall e :: e in entries ==> IsLoopProbe(e, kernel);
    assert (passes ==> m.loaded) && (expected ==> !m.loaded);
    r := RootRow(key, m.processed, limit, budget, if passes then Pass else if expected then Expected else Fail);
  }

  /**
    What a clean report says: every budgeted root of the object on this kernel was loaded, and
    every load of every root, duplicates included, was loaded and measured within budget and
    headroom, or is the one expected refusal; no group is of two objects or of none.
  */
  lemma CleanReport(c: Catalog, loads: set<Load>, kernel: string, budgets: Option<Budgets>, name: Option<string>, rows: set<Row>)
    requires Complete(c) && (forall r :: r in rows <==> IsRow(c, loads, kernel, budgets, name, r))
    requires forall r :: r in rows ==> RowStatus(r) != Fail
    ensures forall key :: UnderPrefix(name, key) && Budget(budgets, key, kernel).Some? ==>
              exists e :: Selected(c, name, loads, e) && Key(name, e.root) == key
    ensures forall e :: Selected(c, name, loads, e) ==>
              IsLoopProbe(e, kernel) || Within(e, e.limit, budgets, Budget(budgets, Key(name, e.root), kernel))
    ensures name.Some? ==> forall btf :: !Stray(c, loads, btf)
  {
    forall e | Selected(c, name, loads, e)
      ensures IsLoopProbe(e, kernel) || Within(e, e.limit, budgets, Budget(budgets, Key(name, e.root), kernel))
    {
      CleanRoot(c, loads, kernel, budgets, name, rows, e);
    }
    var chosen := Chosen(c, name, loads);
    forall key | UnderPrefix(name, key) && Budget(budgets, key, kernel).Some?
      ensures exists e :: Selected(c, name, loads, e) && Key(name, e.root) == key
    {
      var r := Missing(key, Budget(budgets, key, kernel).value);
      assert !IsRow(c, loads, kernel, budgets, name, r);
      var root :| root in Roots(chosen) && Key(name, root) == key;
      var e :| e in chosen && e.root == root;
    }
    if name.Some? {
      forall btf ensures !Stray(c, loads, btf) {
        assert !IsRow(c, loads, kernel, budgets, name, NoObject(btf));
      }
    }
  }

  lemma CleanRoot(c: Catalog, loads: set<Load>, kernel: string, budgets: Option<Budgets>, name: Option<string>, rows: set<Row>, e: Load)
    requires Complete(c) && (forall r :: IsRow(c, loads, kernel, budgets, name, r) ==> r in rows && RowStatus(r) != Fail)
    requires Selected(c, name, loads, e)
    ensures IsLoopProbe(e, kernel) || Within(e, e.limit, budgets, Budget(budgets, Key(name, e.root), kernel))
  {
    var chosen := Chosen(c, name, loads);
    assert e in chosen && e.root in Roots(chosen) && e in OfRoot(chosen, e.root);
    var r := RowOf(Key(name, e.root), OfRoot(chosen, e.root), kernel, budgets);
    assert IsRow(c, loads, kernel, budgets, name, r);
  }

  // ---------------------------------------------------------------- computing the report

  /** Loads by key, keys in the order they first come. */
  method GroupBy<K(==)>(loads: seq<Load>, key: Load -> K) returns (keys: seq<K>, groups: map<K, seq<Load>>)
    ensures forall k :: k in keys <==> k in groups
    ensures forall k :: k in groups ==> groups[k] != [] && forall e :: e in groups[k] <==> e in loads && key(e) == k
    ensures forall e :: e in loads ==> key(e) in groups
  {
    keys, groups := [], map[];
    for n := 0 to |loads|
      invariant forall k :: k in keys <==> k in groups
      invariant forall k :: k in groups ==> groups[k] != [] && forall e :: e in groups[k] <==> e in loads[..n] && key(e) == k
      invariant forall e :: e in loads[..n] ==> key(e) in groups
    {
      var e := loads[n];
      var k := key(e);
      assert loads[..n + 1] == loads[..n] + [e];
      if k in groups {
        groups := groups[k := groups[k] + [e]];
      } else {
        keys, groups := keys + [k], groups[k := [e]];
      }
    }
    assert loads[..|loads|] == loads;
  }

  ghost function All(loads: seq<Load>): set<Load> {
    set e | e in loads
  }

  /** Drops what does not count. */
  method Countable(loads: seq<Load>) returns (counted: seq<Load>)
    ensures forall e :: e in counted <==> e in loads && Counts(e)
  {
    counted := [];
    for n := 0 to |loads|
      invariant forall e :: e in counted <==> e in loads[..n] && Counts(e)
    {
      assert loads[..n + 1] == loads[..n] + [loads[n]];
      if Counts(loads[n]) {
        counted := counted + [loads[n]];
      }
    }
    assert loads[..|loads|] == loads;
  }

  /** The roots of a list of loads. */
  function RootsOf(loads: seq<Load>): (roots: set<string>)
    ensures forall r :: r in roots <==> exists e :: e in loads && e.root == r
  {
    set e | e in loads :: e.root
  }

  /** The loads one object owns, group by group, and the groups that are nobody's. */
  method Select(c: Catalog, counted: seq<Load>, name: string, ghost loads: set<Load>) returns (selected: seq<Load>, stray: set<int>)
    requires Complete(c) && forall e :: e in counted <==> e in loads && Counts(e)
    ensures forall e :: e in selected <==> Selected(c, Some(name), loads, e)
    ensures forall btf :: btf in stray <==> Stray(c, loads, btf)
  {
    var named, unresolved := Split(counted);
    var ids, groups := GroupBy(named, (e: Load) => e.btf);
    selected, stray := unresolved, {};
    GroupsAre(named, groups, loads);
    for n := 0 to |ids|
      invariant forall e :: e in selected <==> e in unresolved || (e in named && e.btf in ids[..n] && e.btf != 0 && Takes(c, name, Roots(Group(loads, e.btf))))
      invariant forall btf :: btf in stray <==> btf in ids[..n] && Stray(c, loads, btf)
    {
      var btf := ids[n];
      var entries := groups[btf];
      var roots := RootsOf(entries);
      assert ids[..n + 1] == ids[..n] + [btf];
      assert roots == Roots(Group(loads, btf)) && Group(loads, btf) != {} by { SameRoots(entries, Group(loads, btf)); }
      if btf == 0 || Assign(c, roots).Ambiguous? || Assign(c, roots).Foreign? {
        stray := stray + {btf};
      } else if Takes(c, name, roots) {
        selected := selected + entries;
      }
    }
    assert ids[..|ids|] == ids;
  }

  lemma SameRoots(entries: seq<Load>, group: set<Load>)
    requires entries != [] && forall e :: e in entries <==> e in group
    ensures RootsOf(entries) == Roots(group) && group != {}
  {
    assert entries[0] in group;
    forall r ensures r in RootsOf(entries) <==> r in Roots(group) {
      if r in RootsOf(entries) {
        var e :| e in entries && e.root == r;
        assert e in group;
      }
      if r in Roots(group) {
        var e :| e in group && e.root == r;
        assert e in entries;
      }
    }
  }

  /** The groups are those of the set of loads, and every other group is empty. */
  lemma GroupsAre(named: seq<Load>, groups: map<int, seq<Load>>, loads: set<Load>)
    requires forall e :: e in named <==> e in loads && Counts(e) && e.root != UNRESOLVED
    requires forall k :: k in groups ==> groups[k] != [] && forall e :: e in groups[k] <==> e in named && e.btf == k
    requires forall e :: e in named ==> e.btf in groups
    ensures forall k :: k in groups ==> forall e :: e in groups[k] <==> e in Group(loads, k)
    ensures forall btf :: btf !in groups ==> Group(loads, btf) == {}
  {
    forall btf | btf !in groups ensures Group(loads, btf) == {} {
      forall e ensures e !in Group(loads, btf) {
        assert e in Group(loads, btf) ==> e in named;
      }
    }
  }

  method Split(counted: seq<Load>) returns (named: seq<Load>, unresolved: seq<Load>)
    ensures forall e :: e in named <==> e in counted && e.root != UNRESOLVED
    ensures forall e :: e in unresolved <==> e in counted && e.root == UNRESOLVED
  {
    named, unresolved := [], [];
    for n := 0 to |counted|
      invariant forall e :: e in named <==> e in counted[..n] && e.root != UNRESOLVED
      invariant forall e :: e in unresolved <==> e in counted[..n] && e.root == UNRESOLVED
    {
      assert counted[..n + 1] == counted[..n] + [counted[n]];
      if counted[n].root == UNRESOLVED {
        unresolved := unresolved + [counted[n]];
      } else {
        named := named + [counted[n]];
      }
    }
    assert counted[..|counted|] == counted;
  }

  lemma TwoOf<T>(s: set<T>)
    ensures |s| > 1 <==> exists a, b :: a in s && b in s && a != b
  {
    if |s| > 1 {
      var a :| a in s;
      var rest := s - {a};
      assert |rest| == |s| - 1;
      var b :| b in rest;
      assert a in s && b in s && a != b;
    }
    if a, b :| a in s && b in s && a != b {
      assert |s - {a} - {b}| == |s| - 2;
    }
  }

  /** A row for every root. */
  method ScoreAll(roots: seq<string>, groups: map<string, seq<Load>>, name: Option<string>, kernel: string, budgets: Option<Budgets>)
    returns (rows: set<Row>)
    requires forall root :: root in roots ==> root in groups && groups[root] != []
    ensures forall r :: r in rows <==> exists root :: root in roots && Scores(r, Key(name, root), All(groups[root]), kernel, budgets)
  {
    rows := {};
    for n := 0 to |roots|
      invariant forall r :: r in rows <==> exists root :: root in roots[..n] && Scores(r, Key(name, root), All(groups[root]), kernel, budgets)
    {
      var root := roots[n];
      assert roots[..n + 1] == roots[..n] + [root];
      var row := Score(Key(name, root), groups[root], kernel, budgets);
      ScoreScores(row, Key(name, root), groups[root], kernel, budgets);
      hide Scores, All;
      forall r | Scores(r, Key(name, root), All(groups[root]), kernel, budgets) ensures r == row {
        ScoresOnce(r, row, Key(name, root), All(groups[root]), kernel, budgets);
      }
      rows := rows + {row};
    }
    assert roots[..|roots|] == roots;
  }

  /** What Score promises of a list it promises of the set. */
  lemma ScoreScores(r: Row, key: string, entries: seq<Load>, kernel: string, budgets: Option<Budgets>)
    requires entries != []
    requires r.RootRow? && r.key == key && r.budget == Budget(budgets, key, kernel)
    requires (exists e :: e in entries && e.processed == r.processed) && forall e :: e in entries ==> e.processed <= r.processed
    requires r.status == Pass <==>
               && r.processed >= 0 && (forall e :: e in entries ==> e.limit == r.limit)
               && forall e :: e in entries ==> Within(e, r.limit, budgets, r.budget)
    requires r.status == Expected <==>
               && r.processed >= 0 && r.limit > 0 && (forall e :: e in entries ==> e.limit == r.limit)
               && forall e :: e in entries ==> IsLoopProbe(e, kernel)
    requires r.limit == if (forall e :: e in entries ==> e.limit == entries[0].limit) then entries[0].limit else -1
    ensures Scores(r, key, All(entries), kernel, budgets)
  {
    assert entries[0] in All(entries);
    hide Within, IsLoopProbe;
    if forall e :: e in entries ==> e.limit == entries[0].limit {
      assert Agree(All(entries));
    } else {
      var e :| e in entries && e.limit != entries[0].limit;
      assert e in All(entries) && !Agree(All(entries));
    }
    var e :| e in entries && e.processed == r.processed;
    assert e in All(entries);
  }

  /**
    The whole evaluation.  Its rows are a matter of the set of loads: neither their order nor
    how often one is repeated can change them.
  */
  method Evaluate(c: Catalog, loads: seq<Load>, kernel: string, budgets: Option<Budgets>, name: Option<string>) returns (rows: set<Row>)
    requires Complete(c)
    ensures forall r :: r in rows <==> IsRow(c, All(loads), kernel, budgets, name, r)
  {
    hide Assign, Takes, Stray, UnderPrefix, Budget;
    var counted := Countable(loads);
    var chosen, stray: set<int> := counted, {};
    if name.Some? {
      chosen, stray := Select(c, counted, name.value, All(loads));
    }
    var roots, groups := GroupBy(chosen, (e: Load) => e.root);
    var scored := ScoreAll(roots, groups, name, kernel, budgets);
    var present := set root | root in roots :: Key(name, root);
    var missing := MissingRows(present, name, kernel, budgets);
    var both := VariantRows(c, set root | root in roots);
    rows := scored + missing + both + set btf | btf in stray :: NoObject(btf);
    ghost var owned := Chosen(c, name, All(loads));
    RootsAre(chosen, roots, groups, owned);
    forall r ensures r in rows <==> IsRow(c, All(loads), kernel, budgets, name, r) {
      hide Scores, Selected, Stray, All, OfRoot, Key, UnderPrefix, Budget;
      match r
      case RootRow(_, _, _, _, _) =>
        assert r in rows <==> r in scored;
      case Missing(key, pinned) =>
        assert r in rows <==> r in missing;
      case BothVariants(g) =>
        assert r in rows <==> r in both;
      case NoObject(btf) =>
        assert r in rows <==> btf in stray;
    }
  }

  /** The groups by root are those of the set of loads. */
  lemma RootsAre(chosen: seq<Load>, roots: seq<string>, groups: map<string, seq<Load>>, owned: set<Load>)
    requires forall e :: e in chosen <==> e in owned
    requires forall k :: k in roots <==> k in groups
    requires forall k :: k in groups ==> groups[k] != [] && forall e :: e in groups[k] <==> e in chosen && e.root == k
    requires forall e :: e in chosen ==> e.root in groups
    ensures (set root | root in roots) == Roots(owned)
    ensures forall root :: root in roots ==> All(groups[root]) == OfRoot(owned, root)
  {
    forall root ensures root in roots <==> root in Roots(owned) {
      if root in roots {
        assert groups[root][0] in groups[root] && groups[root][0] in owned;
      }
      if root in Roots(owned) {
        var e :| e in owned && e.root == root;
        assert e in chosen;
      }
    }
    forall root | root in roots ensures All(groups[root]) == OfRoot(owned, root) {
      forall e ensures e in All(groups[root]) <==> e in OfRoot(owned, root) {
        assert e in groups[root] <==> e in chosen && e.root == root;
      }
    }
  }

  method MissingRows(present: set<string>, name: Option<string>, kernel: string, budgets: Option<Budgets>) returns (rows: set<Row>)
    ensures forall r :: r in rows <==>
      r.Missing? && UnderPrefix(name, r.key) && Budget(budgets, r.key, kernel) == Some(r.pinned) && r.key !in present
  {
    if budgets.None? {
      return {};
    }
    var programs := budgets.value.programs;
    rows := set key | key in programs && kernel in programs[key] && UnderPrefix(name, key) && key !in present
                    :: Missing(key, programs[key][kernel]);
  }

  method VariantRows(c: Catalog, roots: set<string>) returns (rows: set<Row>)
    ensures forall r :: r in rows <==>
      r.BothVariants? && r.group < |c.exclusive| && exists a, b :: a in roots * c.exclusive[r.group] && b in roots * c.exclusive[r.group] && a != b
  {
    rows := {};
    for g := 0 to |c.exclusive|
      invariant forall r :: r in rows <==>
        r.BothVariants? && r.group < g && exists a, b :: a in roots * c.exclusive[r.group] && b in roots * c.exclusive[r.group] && a != b
    {
      TwoOf(roots * c.exclusive[g]);
      if |roots * c.exclusive[g]| > 1 {
        rows := rows + {BothVariants(g)};
      }
    }
  }
}
