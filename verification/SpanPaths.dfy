/**
  The path-sensitive walk that proves guard dominance and the failure sentinel
  of the ia32 argument reader (scripts/check-bpf-map-defs.py, 1224-1268).

  A node of the explored product graph is an instruction position together with
  the facts known there.  The fact domain V is unbounded, so termination and the
  absence of cycles cannot be read off the number of nodes.  The walk keeps a
  stack of pending nodes, each with the set of positions on the path that pushed
  it, and marks a node visited only when it is popped.
 */
module SpanPaths {
  import opened Options

  datatype Node<+V> = Node(pc: int, fact: V)

  datatype Item<+V> = Item(pc: int, result: V, ancestors: set<int>)

  datatype Report<+V> = Report(returned: bool, guardValues: set<V>)

  /** What one walk is given; `transfer` is None where the source raises. */
  datatype Spec<!V(!new)> = Spec(
    graph: map<int, seq<int>>,
    exits: set<int>,
    guard: int,
    read: int,
    rejection: bool,
    transfer: (int, V) -> Option<V>,
    sentinel: V -> bool)
  {
    /** The first walk stops where it meets the guard. */
    predicate Halted(n: Node<V>) {
      !rejection && n.pc == guard
    }

    predicate Exit(n: Node<V>) {
      !Halted(n) && n.pc in exits
    }

    /** The second walk, from the guard's reject edge. */
    function AfterGuard(): Spec<V> {
      Spec(graph, exits, guard, read, true, transfer, sentinel)
    }

    /** The node itself makes the walk raise. */
    predicate Faulty(n: Node<V>) {
      || n.pc !in graph
      || n.pc == read
      || (!Halted(n) &&
          match transfer(n.pc, n.fact)
          case None => true
          case Some(out) =>
            if n.pc in exits then rejection && !sentinel(out) else graph[n.pc] == [])
    }

    /** One step of the product graph. */
    ghost predicate Edge(m: Node<V>, n: Node<V>) {
      && !Faulty(m) && !Halted(m) && m.pc !in exits
      && n.pc in graph[m.pc]
      && n.fact == transfer(m.pc, m.fact).value
    }

    /** A finite run of the product graph from one of the start nodes. */
    ghost predicate IsRun(starts: seq<Node<V>>, run: seq<Node<V>>) {
      && |run| > 0
      && run[0] in starts
      && forall i :: 0 <= i < |run| - 1 ==> Edge(run[i], run[i + 1])
    }

    ghost predicate Reaches(starts: seq<Node<V>>, n: Node<V>) {
      exists run :: IsRun(starts, run) && run[|run| - 1] == n
    }

    /** A run on which the walk has a reason to raise. */
    ghost predicate BadRun(starts: seq<Node<V>>, run: seq<Node<V>>) {
      && IsRun(starts, run)
      && (Faulty(run[|run| - 1]) || RepeatsPc(run))
    }
  }

  ghost predicate Distinct<T>(s: seq<T>) {
    forall i, j :: 0 <= i < j < |s| ==> s[i] != s[j]
  }

  ghost predicate RepeatsPc<V>(run: seq<Node<V>>) {
    exists i, j :: 0 <= i < j < |run| && run[i].pc == run[j].pc
  }

  ghost function Pcs<V>(path: seq<Node<V>>): set<int> {
    set n | n in path :: n.pc
  }

  ghost function NodeOf<V>(item: Item<V>): Node<V> {
    Node(item.pc, item.result)
  }

  // ----- termination -----

  /** An item that may still lengthen its path by `room` positions, with branching `d`. */
  ghost function Weight(d: nat, room: nat): nat {
    if room == 0 then 1 else 1 + d * Weight(d, room - 1)
  }

  ghost function Room<V>(graph: map<int, seq<int>>, item: Item<V>): nat {
    if |item.ancestors| <= |graph| then |graph| - |item.ancestors| else 0
  }

  ghost function Load<V>(graph: map<int, seq<int>>, d: nat, pending: seq<Item<V>>): nat {
    if pending == [] then 0
    else Load(graph, d, pending[..|pending| - 1])
         + Weight(d, Room(graph, pending[|pending| - 1]))
  }

  lemma Distribute(n: nat, w: nat)
    ensures n * w + w == (n + 1) * w
  {}

  /** Pushing equally heavy items adds exactly their number times their weight. */
  lemma {:induction false} LoadOfPushed<V>(graph: map<int, seq<int>>, d: nat, below: seq<Item<V>>, pushed: seq<Item<V>>, room: nat)
    requires forall i :: 0 <= i < |pushed| ==> Room(graph, pushed[i]) == room
    ensures Load(graph, d, below + pushed) == Load(graph, d, below) + |pushed| * Weight(d, room)
  {
    if pushed == [] {
      assert below + pushed == below;
    } else {
      var front := pushed[..|pushed| - 1];
      LoadOfPushed(graph, d, below, front, room);
      assert (below + pushed)[..|below + pushed| - 1] == below + front;
      assert (below + pushed)[|below + pushed| - 1] == pushed[|pushed| - 1];
      var w := Weight(d, room);
      Distribute(|front|, w);
    }
  }

  /** Some number bounds the branching of a finite graph. */
  lemma {:induction false} BranchingBound(graph: map<int, seq<int>>, keys: set<int>) returns (d: nat)
    requires keys <= graph.Keys
    ensures forall k :: k in keys ==> |graph[k]| <= d
    decreases |keys|
  {
    d := 0;
    if k :| k in keys {
      d := BranchingBound(graph, keys - {k});
      if |graph[k]| > d { d := |graph[k]|; }
    }
  }

  /** Replacing a popped item by its successors makes the stack lighter. */
  lemma {:induction false} ExpandIsLighter<V>(graph: map<int, seq<int>>, d: nat, below: seq<Item<V>>, item: Item<V>, pushed: seq<Item<V>>)
    requires item.pc in graph && item.pc !in item.ancestors && item.ancestors <= graph.Keys
    requires |pushed| <= d
    requires forall i :: 0 <= i < |pushed| ==> pushed[i].ancestors == item.ancestors + {item.pc}
    ensures Load(graph, d, below + pushed) < Load(graph, d, below + [item])
  {
    var room := RoomShrinks(graph, item);
    assert Weight(d, room + 1) == 1 + d * Weight(d, room);
    hide Load, Room, Weight;
    LoadOfPushed(graph, d, below, pushed, room);
    LoadOfPushed(graph, d, below, [item], room + 1);
    MulLe(|pushed|, d, Weight(d, room));
  }

  /** A position not yet on the path takes one unit of room. */
  lemma RoomShrinks<V>(graph: map<int, seq<int>>, item: Item<V>) returns (room: nat)
    requires item.pc in graph && item.pc !in item.ancestors && item.ancestors <= graph.Keys
    ensures Room(graph, item) == room + 1
    ensures forall other: Item<V> :: other.ancestors == item.ancestors + {item.pc} ==> Room(graph, other) == room
  {
    var longer := item.ancestors + {item.pc};
    SubsetSize(longer, graph.Keys);
    assert |longer| == |item.ancestors| + 1 && |graph| == |graph.Keys|;
    room := |graph.Keys| - |longer|;
  }

  lemma MulLe(a: nat, b: nat, c: nat)
    requires a <= b
    ensures a * c <= b * c
  {}

  lemma {:induction false} SubsetSize<T>(a: set<T>, b: set<T>)
    requires a <= b
    ensures |a| <= |b|
  {
    if a != {} {
      var x :| x in a;
      SubsetSize(a - {x}, b - {x});
    }
  }

  // ----- what the loop keeps -----

  /**
    The ghost side of a walk in progress.  `paths[i]` is the run that pushed
    `pending[i]`, `gray` is the path being explored, and `done` lists the other
    visited nodes in the order in which their last successor was settled.
   */
  datatype View<V> = View(
    pending: seq<Item<V>>,
    paths: seq<seq<Node<V>>>,
    visited: set<Node<V>>,
    values: set<V>,
    done: seq<Node<V>>,
    gray: seq<Node<V>>)

  ghost predicate Recorded<V(!new)>(s: Spec<V>, values: set<V>, m: Node<V>) {
    s.Halted(m) && !s.Faulty(m) && m.fact in values
  }

  ghost predicate Waiting<V>(v: View<V>, m: Node<V>, depth: nat) {
    exists j :: 0 <= j < |v.pending| && j < |v.paths| && NodeOf(v.pending[j]) == m && |v.paths[j]| == depth
  }

  ghost predicate PathsOk<V(!new)>(s: Spec<V>, starts: seq<Node<V>>, v: View<V>) {
    && |v.paths| == |v.pending|
    && (forall i :: 0 <= i < |v.pending| ==>
          && v.paths[i] <= v.gray
          && v.pending[i].ancestors == Pcs(v.paths[i])
          && s.IsRun(starts, v.paths[i] + [NodeOf(v.pending[i])]))
    && (forall i, j :: 0 <= i < j < |v.paths| ==> |v.paths[i]| <= |v.paths[j]|)
  }

  ghost predicate NodesOk<V(!new)>(s: Spec<V>, starts: seq<Node<V>>, v: View<V>) {
    && !RepeatsPc(v.gray)
    && (forall n :: n in v.gray ==> n in v.visited)
    && Distinct(v.done)
    && (forall n :: n in v.done <==> n in v.visited && n !in v.gray)
    && (forall n :: n in v.visited ==> !s.Faulty(n) && !s.Halted(n) && s.Reaches(starts, n))
    && (forall x :: x in v.values ==> !s.rejection && s.Reaches(starts, Node(s.guard, x)))
  }

  ghost predicate DoneClosed<V(!new)>(s: Spec<V>, v: View<V>) {
    forall k, m :: 0 <= k < |v.done| && s.Edge(v.done[k], m) ==>
      Recorded(s, v.values, m) || m in v.done[..k]
  }

  ghost predicate GraySettled<V(!new)>(s: Spec<V>, v: View<V>, i: nat, m: Node<V>) {
    || Recorded(s, v.values, m)
    || m in v.done
    || (i + 1 < |v.gray| && m == v.gray[i + 1])
    || Waiting(v, m, i + 1)
  }

  ghost predicate GrayClosed<V(!new)>(s: Spec<V>, v: View<V>) {
    forall i, m :: 0 <= i < |v.gray| && s.Edge(v.gray[i], m) ==> GraySettled(s, v, i, m)
  }

  ghost predicate StartsCovered<V(!new)>(s: Spec<V>, starts: seq<Node<V>>, v: View<V>) {
    forall m :: m in starts ==>
      Recorded(s, v.values, m) || m in v.visited || Waiting(v, m, 0)
  }

  ghost predicate Inv<V(!new)>(s: Spec<V>, starts: seq<Node<V>>, v: View<V>) {
    && PathsOk(s, starts, v)
    && NodesOk(s, starts, v)
    && DoneClosed(s, v)
    && GrayClosed(s, v)
    && StartsCovered(s, starts, v)
  }

  /** The explored path is the one that pushed the top item. */
  ghost predicate Settled<V>(v: View<V>) {
    && |v.paths| == |v.pending|
    && if v.paths == [] then v.gray == [] else |v.gray| == |v.paths[|v.paths| - 1]|
  }

  /** A gray node none of whose successors is waiting any more is finished. */
  lemma Retire<V(!new)>(s: Spec<V>, starts: seq<Node<V>>, v: View<V>) returns (w: View<V>)
    requires Inv(s, starts, v)
    requires v.gray != []
    requires forall j :: 0 <= j < |v.paths| ==> |v.paths[j]| < |v.gray|
    ensures Inv(s, starts, w)
    ensures w == v.(gray := w.gray, done := w.done) && |w.gray| == |v.gray| - 1
  {
    var last := |v.gray| - 1;
    var n := v.gray[last];
    w := v.(gray := v.gray[..last], done := v.done + [n]);
    assert n in v.gray;
    assert n !in w.gray by { RetiredIsFresh(v.gray); }
    forall x
      ensures x in w.done <==> x in w.visited && x !in w.gray
    {
      assert x in v.gray <==> x in w.gray || x == n;
    }
    RetireKeepsDone(s, v, w);
    RetireKeepsGray(s, v, w);
    forall i | 0 <= i < |w.pending|
      ensures w.paths[i] <= w.gray
    {
      assert v.paths[i] <= v.gray;
    }
  }

  lemma RetiredIsFresh<V>(gray: seq<Node<V>>)
    requires gray != [] && !RepeatsPc(gray)
    ensures gray[|gray| - 1] !in gray[..|gray| - 1] && !RepeatsPc(gray[..|gray| - 1])
  {}

  lemma RetireKeepsDone<V(!new)>(s: Spec<V>, v: View<V>, w: View<V>)
    requires v.gray != [] && |v.paths| == |v.pending|
    requires DoneClosed(s, v) && GrayClosed(s, v)
    requires forall j :: 0 <= j < |v.paths| ==> |v.paths[j]| < |v.gray|
    requires w == v.(gray := v.gray[..|v.gray| - 1], done := v.done + [v.gray[|v.gray| - 1]])
    ensures DoneClosed(s, w)
  {
    forall k, m | 0 <= k < |w.done| && s.Edge(w.done[k], m)
      ensures Recorded(s, w.values, m) || m in w.done[..k]
    {
      if k < |v.done| {
        assert w.done[..k] == v.done[..k];
        assert s.Edge(v.done[k], m);
      } else {
        assert w.done[..k] == v.done;
        assert s.Edge(v.gray[|v.gray| - 1], m);
        assert GraySettled(s, v, |v.gray| - 1, m);
      }
    }
  }

  lemma RetireKeepsGray<V(!new)>(s: Spec<V>, v: View<V>, w: View<V>)
    requires v.gray != [] && |v.paths| == |v.pending|
    requires GrayClosed(s, v)
    requires w == v.(gray := v.gray[..|v.gray| - 1], done := v.done + [v.gray[|v.gray| - 1]])
    ensures GrayClosed(s, w)
  {
    forall i, m | 0 <= i < |w.gray| && s.Edge(w.gray[i], m)
      ensures GraySettled(s, w, i, m)
    {
      assert GraySettled(s, v, i, m);
      if Waiting(v, m, i + 1) { assert Waiting(w, m, i + 1); }
    }
  }

  /** If the explored path is not that of the top item, nothing waits for its last node. */
  lemma NothingWaitsBelow<V(!new)>(s: Spec<V>, starts: seq<Node<V>>, v: View<V>)
    requires PathsOk(s, starts, v) && !Settled(v)
    ensures v.gray != []
    ensures forall j :: 0 <= j < |v.paths| ==> |v.paths[j]| < |v.gray|
  {
    if v.paths != [] {
      var top := |v.paths| - 1;
      assert v.paths[top] <= v.gray;
    }
  }

  /** Retire gray nodes until the explored path is again that of the top item. */
  lemma {:induction false} Settle<V(!new)>(s: Spec<V>, starts: seq<Node<V>>, v: View<V>) returns (w: View<V>)
    requires Inv(s, starts, v)
    ensures Inv(s, starts, w) && Settled(w)
    ensures w == v.(gray := w.gray, done := w.done)
    decreases |v.gray|
  {
    hide PathsOk, NodesOk, DoneClosed, GrayClosed, StartsCovered;
    w := v;
    if !Settled(v) {
      NothingWaitsBelow(s, starts, v);
      w := Retire(s, starts, v);
      w := Settle(s, starts, w);
    }
  }

  /** The popped item leads to a node that needs no visit. */
  lemma DropTop<V(!new)>(s: Spec<V>, starts: seq<Node<V>>, v: View<V>, values: set<V>) returns (w: View<V>)
    requires Inv(s, starts, v) && Settled(v) && v.pending != []
    requires var item := v.pending[|v.pending| - 1];
             && item.pc !in item.ancestors
             && if s.Halted(NodeOf(item))
                then !s.Faulty(NodeOf(item)) && values == v.values + {item.result}
                else NodeOf(item) in v.visited && values == v.values
    ensures Inv(s, starts, w)
    ensures w == v.(pending := v.pending[..|v.pending| - 1],
                    paths := v.paths[..|v.pending| - 1],
                    values := values)
  {
    var top := |v.pending| - 1;
    var x := NodeOf(v.pending[top]);
    w := v.(pending := v.pending[..top], paths := v.paths[..top], values := values);
    assert v.paths[top] == v.gray;
    assert x.pc !in Pcs(v.gray);
    assert x !in v.gray;
    assert s.Halted(x) || x in v.done;
    if s.Halted(x) {
      var run := v.gray + [x];
      assert s.IsRun(starts, run) && run[|run| - 1] == x == Node(s.guard, x.fact);
    }
    DropKeepsWaiting(v, w, x);
    DropKeepsClosure(s, starts, v, w, x);
  }

  lemma DropKeepsWaiting<V>(v: View<V>, w: View<V>, x: Node<V>)
    requires v.pending != [] && |v.paths| == |v.pending|
    requires x == NodeOf(v.pending[|v.pending| - 1])
    requires w.pending == v.pending[..|v.pending| - 1] && w.paths == v.paths[..|v.pending| - 1]
    ensures forall m, d: nat :: Waiting(v, m, d) ==> m == x || Waiting(w, m, d)
  {
    forall m, d: nat | Waiting(v, m, d)
      ensures m == x || Waiting(w, m, d)
    {
      var j :| 0 <= j < |v.pending| && NodeOf(v.pending[j]) == m && |v.paths[j]| == d;
      if j < |v.pending| - 1 { assert NodeOf(w.pending[j]) == m && |w.paths[j]| == d; }
    }
  }

  lemma DropKeepsClosure<V(!new)>(s: Spec<V>, starts: seq<Node<V>>, v: View<V>, w: View<V>, x: Node<V>)
    requires DoneClosed(s, v) && GrayClosed(s, v) && StartsCovered(s, starts, v)
    requires w.gray == v.gray && w.done == v.done && w.visited == v.visited && v.values <= w.values
    requires Recorded(s, w.values, x) || (x in v.done && x in v.visited)
    requires forall m, d: nat :: Waiting(v, m, d) ==> m == x || Waiting(w, m, d)
    ensures DoneClosed(s, w) && GrayClosed(s, w) && StartsCovered(s, starts, w)
  {
    forall k, m | 0 <= k < |w.done| && s.Edge(w.done[k], m)
      ensures Recorded(s, w.values, m) || m in w.done[..k]
    {
      assert Recorded(s, v.values, m) || m in v.done[..k];
    }
    forall i, m | 0 <= i < |w.gray| && s.Edge(w.gray[i], m)
      ensures GraySettled(s, w, i, m)
    {
      assert GraySettled(s, v, i, m);
    }
  }

  ghost function Copies<T>(n: nat, x: T): seq<T> {
    seq(n, _ => x)
  }

  /** The popped item leads to a fresh node; its successors replace it on the stack. */
  lemma VisitTop<V(!new)>(s: Spec<V>, starts: seq<Node<V>>, v: View<V>, pushed: seq<Item<V>>) returns (w: View<V>)
    requires Inv(s, starts, v) && Settled(v) && v.pending != []
    requires var item := v.pending[|v.pending| - 1];
             && item.pc !in item.ancestors
             && NodeOf(item) !in v.visited && !s.Halted(NodeOf(item)) && !s.Faulty(NodeOf(item))
             && PushedFor(s, item, pushed)
    ensures Inv(s, starts, w)
    ensures w.pending == v.pending[..|v.pending| - 1] + pushed
    ensures w.values == v.values
    ensures w.visited == v.visited + {NodeOf(v.pending[|v.pending| - 1])}
  {
    var top := |v.pending| - 1;
    var x := NodeOf(v.pending[top]);
    var gray := v.gray + [x];
    w := View(v.pending[..top] + pushed, v.paths[..top] + Copies(|pushed|, gray),
              v.visited + {x}, v.values, v.done, gray);
    assert v.paths[top] == v.gray;
    assert s.IsRun(starts, gray) && gray[|gray| - 1] == x;
    VisitKeepsPaths(s, starts, v, w, pushed, x);
    assert !RepeatsPc(gray) by {
      forall i | 0 <= i < |v.gray| ensures v.gray[i].pc != x.pc {
        assert v.gray[i].pc in Pcs(v.gray);
      }
    }
    VisitKeepsWaiting(v, w, pushed, x);
    VisitKeepsGray(s, v, w, pushed, x);
  }

  /** The items pushed when `item` is expanded: one per successor, none at an exit. */
  ghost predicate PushedFor<V(!new)>(s: Spec<V>, item: Item<V>, pushed: seq<Item<V>>) {
    if item.pc in s.exits || s.Faulty(NodeOf(item)) || s.Halted(NodeOf(item)) then pushed == []
    else
      && |pushed| == |s.graph[item.pc]|
      && forall i :: 0 <= i < |pushed| ==>
           pushed[i] == Item(s.graph[item.pc][i], s.transfer(item.pc, item.result).value,
                             item.ancestors + {item.pc})
  }

  lemma VisitKeepsPaths<V(!new)>(s: Spec<V>, starts: seq<Node<V>>, v: View<V>, w: View<V>, pushed: seq<Item<V>>, x: Node<V>)
    requires PathsOk(s, starts, v) && v.pending != []
    requires x == NodeOf(v.pending[|v.pending| - 1]) && v.paths[|v.paths| - 1] == v.gray
    requires !s.Halted(x) && !s.Faulty(x)
    requires PushedFor(s, v.pending[|v.pending| - 1], pushed)
    requires w.pending == v.pending[..|v.pending| - 1] + pushed
    requires w.paths == v.paths[..|v.pending| - 1] + Copies(|pushed|, w.gray)
    requires w.gray == v.gray + [x]
    ensures PathsOk(s, starts, w)
  {
    var top := |v.pending| - 1;
    assert s.IsRun(starts, w.gray);
    forall i | 0 <= i < |w.pending|
      ensures w.paths[i] <= w.gray
      ensures w.pending[i].ancestors == Pcs(w.paths[i])
      ensures s.IsRun(starts, w.paths[i] + [NodeOf(w.pending[i])])
    {
      if i < top {
        assert w.paths[i] == v.paths[i] && w.pending[i] == v.pending[i];
        assert v.paths[i] <= v.gray;
      } else {
        var item := pushed[i - top];
        assert w.pending[i] == item && w.paths[i] == w.gray;
        assert Pcs(w.gray) == Pcs(v.gray) + {x.pc} by { PcsOfExtended(v.gray, x); }
        var m := NodeOf(item);
        assert s.Edge(x, m);
        var run := w.gray + [m];
        assert forall k :: 0 <= k < |run| - 1 ==> s.Edge(run[k], run[k + 1]);
      }
    }
  }

  lemma PcsOfExtended<V>(path: seq<Node<V>>, x: Node<V>)
    ensures Pcs(path + [x]) == Pcs(path) + {x.pc}
  {
    forall pc | pc in Pcs(path) + {x.pc} ensures pc in Pcs(path + [x]) {
      if pc in Pcs(path) {
        var n :| n in path && n.pc == pc;
        assert n in path + [x];
      } else {
        assert x in path + [x];
      }
    }
  }

  lemma VisitKeepsWaiting<V>(v: View<V>, w: View<V>, pushed: seq<Item<V>>, x: Node<V>)
    requires v.pending != [] && |v.paths| == |v.pending|
    requires x == NodeOf(v.pending[|v.pending| - 1])
    requires w.pending == v.pending[..|v.pending| - 1] + pushed
    requires w.paths == v.paths[..|v.pending| - 1] + Copies(|pushed|, w.gray)
    ensures forall m, d: nat :: Waiting(v, m, d) ==> m == x || Waiting(w, m, d)
  {
    forall m, d: nat | Waiting(v, m, d)
      ensures m == x || Waiting(w, m, d)
    {
      var j :| 0 <= j < |v.pending| && NodeOf(v.pending[j]) == m && |v.paths[j]| == d;
      if j < |v.pending| - 1 {
        assert NodeOf(w.pending[j]) == m && |w.paths[j]| == d;
      }
    }
  }

  lemma VisitKeepsGray<V(!new)>(s: Spec<V>, v: View<V>, w: View<V>, pushed: seq<Item<V>>, x: Node<V>)
    requires v.pending != [] && |v.paths| == |v.pending|
    requires x == NodeOf(v.pending[|v.pending| - 1]) && v.paths[|v.paths| - 1] == v.gray
    requires GrayClosed(s, v)
    requires PushedFor(s, v.pending[|v.pending| - 1], pushed)
    requires w.pending == v.pending[..|v.pending| - 1] + pushed
    requires w.paths == v.paths[..|v.pending| - 1] + Copies(|pushed|, w.gray)
    requires w.gray == v.gray + [x] && w.done == v.done && w.values == v.values
    ensures GrayClosed(s, w)
  {
    var top := |v.pending| - 1;
    forall i, m | 0 <= i < |w.gray| && s.Edge(w.gray[i], m)
      ensures GraySettled(s, w, i, m)
    {
      if i < |v.gray| {
        assert GraySettled(s, v, i, m);
        if Waiting(v, m, i + 1) {
          var j :| 0 <= j < |v.pending| && NodeOf(v.pending[j]) == m && |v.paths[j]| == i + 1;
          if j < top {
            assert NodeOf(w.pending[j]) == m && |w.paths[j]| == i + 1;
          }
        }
      } else {
        var k :| 0 <= k < |s.graph[x.pc]| && s.graph[x.pc][k] == m.pc;
        assert NodeOf(pushed[k]) == m;
        assert NodeOf(w.pending[top + k]) == m && |w.paths[top + k]| == i + 1;
      }
    }
  }

  // ----- what an accepted walk proves -----

  /** Every run of the product graph is safe and never meets a node twice. */
  ghost predicate AllRunsSafe<V(!new)>(s: Spec<V>, starts: seq<Node<V>>) {
    forall run :: s.IsRun(starts, run) ==>
      Distinct(run) && forall i :: 0 <= i < |run| ==> !s.Faulty(run[i])
  }

  ghost predicate RunsBounded<V(!new)>(s: Spec<V>, starts: seq<Node<V>>, bound: nat) {
    forall run :: s.IsRun(starts, run) ==> |run| <= bound
  }

  /** The walk has finished: `done` is a topological order of everything reachable. */
  ghost predicate Ordered<V(!new)>(s: Spec<V>, starts: seq<Node<V>>, values: set<V>, done: seq<Node<V>>) {
    && Distinct(done)
    && (forall n :: n in done ==> !s.Faulty(n) && !s.Halted(n))
    && (forall m :: m in starts ==> Recorded(s, values, m) || m in done)
    && (forall k, m :: 0 <= k < |done| && s.Edge(done[k], m) ==>
          Recorded(s, values, m) || m in done[..k])
  }

  /** Along a run the position in the topological order strictly falls. */
  lemma {:induction false} RunDescends<V(!new)>(s: Spec<V>, starts: seq<Node<V>>, values: set<V>, done: seq<Node<V>>, run: seq<Node<V>>) returns (at: seq<int>)
    requires Ordered(s, starts, values, done) && s.IsRun(starts, run)
    ensures |at| == |run|
    ensures forall i :: 0 <= i < |run| ==>
      if at[i] < 0 then at[i] == -1 && i == |run| - 1 && Recorded(s, values, run[i])
      else at[i] < |done| && run[i] == done[at[i]]
    ensures forall i, j :: 0 <= i < j < |run| ==> at[i] > at[j]
  {
    var last := |run| - 1;
    var n := run[last];
    if last == 0 {
      if n in done {
        var k :| 0 <= k < |done| && done[k] == n;
        at := [k];
      } else {
        at := [-1];
      }
    } else {
      var front := run[..last];
      var rest := RunDescends(s, starts, values, done, front);
      assert s.Edge(run[last - 1], run[last]);
      var p := rest[last - 1];
      assert front[last - 1] == run[last - 1];
      if n in done[..p] {
        var k :| 0 <= k < p && done[k] == n;
        at := rest + [k];
      } else {
        at := rest + [-1];
      }
    }
  }

  lemma {:induction false} DescentIsShort(at: seq<int>, top: int)
    requires top >= -1
    requires forall i :: 0 <= i < |at| ==> -1 <= at[i] < top
    requires forall i, j :: 0 <= i < j < |at| ==> at[i] > at[j]
    ensures |at| <= top + 1
  {
    if |at| > 0 { DescentIsShort(at[1..], at[0]); }
  }

  lemma OrderedRunsAreSafe<V(!new)>(s: Spec<V>, starts: seq<Node<V>>, values: set<V>, done: seq<Node<V>>)
    requires Ordered(s, starts, values, done)
    ensures AllRunsSafe(s, starts)
    ensures RunsBounded(s, starts, |done| + 1)
    ensures forall m :: s.Reaches(starts, m) ==> Recorded(s, values, m) || m in done
  {
    forall run | s.IsRun(starts, run)
      ensures Distinct(run) && |run| <= |done| + 1
      ensures forall i :: 0 <= i < |run| ==> !s.Faulty(run[i])
      ensures Recorded(s, values, run[|run| - 1]) || run[|run| - 1] in done
    {
      var at := RunDescends(s, starts, values, done, run);
      DescentIsShort(at, |done|);
      forall i, j | 0 <= i < j < |run| ensures run[i] != run[j] {
        assert at[i] > at[j];
      }
    }
  }

  /** What a report says about every run. */
  ghost predicate Faithful<V(!new)>(s: Spec<V>, starts: seq<Node<V>>, r: Report<V>) {
    && AllRunsSafe(s, starts)
    && (exists bound: nat :: RunsBounded(s, starts, bound))
    && (forall x :: x in r.guardValues <==> !s.rejection && s.Reaches(starts, Node(s.guard, x)))
    && (r.returned <==> exists n :: s.Reaches(starts, n) && s.Exit(n))
  }

  lemma FinishedIsFaithful<V(!new)>(s: Spec<V>, starts: seq<Node<V>>, v: View<V>, returned: bool)
    requires Inv(s, starts, v) && v.pending == [] && v.gray == []
    requires returned <==> exists n :: n in v.visited && n.pc in s.exits
    ensures Faithful(s, starts, Report(returned, v.values))
  {
    FinishedIsOrdered(s, starts, v);
    OrderedRunsAreSafe(s, starts, v.values, v.done);
    FinishedValues(s, starts, v);
    hide Ordered, PathsOk, DoneClosed, GrayClosed, StartsCovered, AllRunsSafe;
  }

  lemma FinishedValues<V(!new)>(s: Spec<V>, starts: seq<Node<V>>, v: View<V>)
    requires Inv(s, starts, v) && Ordered(s, starts, v.values, v.done)
    requires forall m :: s.Reaches(starts, m) ==> Recorded(s, v.values, m) || m in v.done
    ensures forall x :: x in v.values <==> !s.rejection && s.Reaches(starts, Node(s.guard, x))
  {
    hide PathsOk, DoneClosed, GrayClosed, StartsCovered;
    forall x | !s.rejection && s.Reaches(starts, Node(s.guard, x)) ensures x in v.values {
      assert s.Halted(Node(s.guard, x));
    }
  }

  lemma FinishedIsOrdered<V(!new)>(s: Spec<V>, starts: seq<Node<V>>, v: View<V>)
    requires Inv(s, starts, v) && v.pending == [] && v.gray == []
    ensures Ordered(s, starts, v.values, v.done)
  {
    forall m | m in starts ensures Recorded(s, v.values, m) || m in v.done {
      assert !Waiting(v, m, 0);
    }
  }

  /** Positions on pending paths lie in the graph, so a path can only grow so far. */
  lemma AncestorsInGraph<V(!new)>(s: Spec<V>, starts: seq<Node<V>>, v: View<V>, i: nat)
    requires Inv(s, starts, v) && i < |v.pending|
    ensures v.pending[i].ancestors <= s.graph.Keys
  {
    forall pc | pc in v.pending[i].ancestors ensures pc in s.graph {
      var n :| n in v.paths[i] && n.pc == pc;
      assert n in v.gray;
    }
  }

  lemma Dropped<V(!new)>(s: Spec<V>, starts: seq<Node<V>>, v: View<V>, values: set<V>, d: nat) returns (w: View<V>)
    requires Inv(s, starts, v) && Settled(v) && v.pending != []
    requires var item := v.pending[|v.pending| - 1];
             && item.pc in s.graph && item.pc !in item.ancestors
             && if s.Halted(NodeOf(item))
                then !s.Faulty(NodeOf(item)) && values == v.values + {item.result}
                else NodeOf(item) in v.visited && values == v.values
    ensures Inv(s, starts, w) && Settled(w)
    ensures w.pending == v.pending[..|v.pending| - 1] && w.visited == v.visited && w.values == values
    ensures Load(s.graph, d, w.pending) < Load(s.graph, d, v.pending)
  {
    hide PathsOk, NodesOk, DoneClosed, GrayClosed, StartsCovered;
    var top := |v.pending| - 1;
    AncestorsInGraph(s, starts, v, top);
    ExpandIsLighter(s.graph, d, v.pending[..top], v.pending[top], []);
    assert v.pending[..top] + [v.pending[top]] == v.pending && v.pending[..top] + [] == v.pending[..top];
    w := DropTop(s, starts, v, values);
    w := Settle(s, starts, w);
  }

  lemma Visited<V(!new)>(s: Spec<V>, starts: seq<Node<V>>, v: View<V>, pushed: seq<Item<V>>, d: nat) returns (w: View<V>)
    requires Inv(s, starts, v) && Settled(v) && v.pending != []
    requires forall k :: k in s.graph ==> |s.graph[k]| <= d
    requires var item := v.pending[|v.pending| - 1];
             && item.pc in s.graph && item.pc !in item.ancestors
             && NodeOf(item) !in v.visited && !s.Halted(NodeOf(item)) && !s.Faulty(NodeOf(item))
             && PushedFor(s, item, pushed)
    ensures Inv(s, starts, w) && Settled(w)
    ensures w.pending == v.pending[..|v.pending| - 1] + pushed && w.values == v.values
    ensures w.visited == v.visited + {NodeOf(v.pending[|v.pending| - 1])}
    ensures Load(s.graph, d, w.pending) < Load(s.graph, d, v.pending)
  {
    hide PathsOk, NodesOk, DoneClosed, GrayClosed, StartsCovered;
    var top := |v.pending| - 1;
    AncestorsInGraph(s, starts, v, top);
    ExpandIsLighter(s.graph, d, v.pending[..top], v.pending[top], pushed);
    assert v.pending[..top] + [v.pending[top]] == v.pending;
    w := VisitTop(s, starts, v, pushed);
    w := Settle(s, starts, w);
  }

  /**
    The walk.  An accepted walk has proved all runs safe and acyclic, and reports
    exactly the facts with which the guard is reached; a refused one has found a
    run with a reason.
   */
  method Walk<V(==,!new)>(s: Spec<V>, starts: seq<Node<V>>) returns (r: Option<Report<V>>)
    ensures r.Some? ==> Faithful(s, starts, r.value)
    ensures r.None? ==> exists run :: s.BadRun(starts, run)
  {
    hide PathsOk, NodesOk, DoneClosed, GrayClosed, StartsCovered, Faithful;
    var pending := seq(|starts|, i requires 0 <= i < |starts| => Item(starts[i].pc, starts[i].fact, {}));
    var visited: set<Node<V>>, returned, values: set<V> := {}, false, {};
    ghost var v := View(pending, Copies(|starts|, []), {}, {}, [], []);
    InitialInv(s, starts, v);
    ghost var d := BranchingBound(s.graph, s.graph.Keys);
    while pending != []
      invariant Inv(s, starts, v) && Settled(v)
      invariant v.pending == pending && v.visited == visited && v.values == values
      invariant returned <==> exists n :: n in visited && n.pc in s.exits
      decreases Load(s.graph, d, pending)
    {
      var top := |pending| - 1;
      var item := pending[top];
      var node := Node(item.pc, item.result);
      pending := pending[..top];
      if item.pc !in s.graph || item.pc in item.ancestors || item.pc == s.read {
        RefusedRun(s, starts, v);
        return None;
      }
      if !s.rejection && item.pc == s.guard {
        values := values + {item.result};
        v := Dropped(s, starts, v, values, d);
      } else if node in visited {
        v := Dropped(s, starts, v, values, d);
      } else {
        visited := visited + {node};
        var out := s.transfer(item.pc, item.result);
        if out.None? {
          RefusedRun(s, starts, v);
          return None;
        }
        var pushed: seq<Item<V>> := [];
        if item.pc in s.exits {
          if s.rejection && !s.sentinel(out.value) {
            RefusedRun(s, starts, v);
            return None;
          }
          returned := true;
        } else {
          var targets := s.graph[item.pc];
          if targets == [] {
            RefusedRun(s, starts, v);
            return None;
          }
          pushed := seq(|targets|, i requires 0 <= i < |targets| =>
            Item(targets[i], out.value, item.ancestors + {item.pc}));
        }
        v := Visited(s, starts, v, pushed, d);
        pending := pending + pushed;
      }
    }
    FinishedIsFaithful(s, starts, v, returned);
    r := Some(Report(returned, values));
  }

  lemma InitialInv<V(!new)>(s: Spec<V>, starts: seq<Node<V>>, v: View<V>)
    requires |v.pending| == |starts|
    requires forall i :: 0 <= i < |starts| ==> v.pending[i] == Item(starts[i].pc, starts[i].fact, {})
    requires v == View(v.pending, Copies(|starts|, []), {}, {}, [], [])
    ensures Inv(s, starts, v) && Settled(v)
  {
    assert PathsOk(s, starts, v) by { InitialPaths(s, starts, v); }
    assert StartsCovered(s, starts, v) by { InitialStarts(s, starts, v); }
    assert DoneClosed(s, v) && GrayClosed(s, v);
    if v.paths != [] { assert v.paths[|v.paths| - 1] == []; }
  }

  lemma InitialPaths<V(!new)>(s: Spec<V>, starts: seq<Node<V>>, v: View<V>)
    requires |v.pending| == |starts| && v.paths == Copies(|starts|, [])
    requires forall i :: 0 <= i < |starts| ==> v.pending[i] == Item(starts[i].pc, starts[i].fact, {})
    ensures PathsOk(s, starts, v)
  {
    forall i | 0 <= i < |starts|
      ensures v.paths[i] <= v.gray && v.pending[i].ancestors == Pcs(v.paths[i])
      ensures s.IsRun(starts, v.paths[i] + [NodeOf(v.pending[i])])
    {
      assert v.paths[i] == [] && Pcs<V>([]) == {};
      assert v.paths[i] + [NodeOf(v.pending[i])] == [starts[i]];
    }
  }

  lemma InitialStarts<V(!new)>(s: Spec<V>, starts: seq<Node<V>>, v: View<V>)
    requires |v.pending| == |starts| && v.paths == Copies(|starts|, [])
    requires forall i :: 0 <= i < |starts| ==> v.pending[i] == Item(starts[i].pc, starts[i].fact, {})
    ensures StartsCovered(s, starts, v)
  {
    forall m | m in starts ensures Waiting(v, m, 0) {
      var i :| 0 <= i < |starts| && starts[i] == m;
      assert NodeOf(v.pending[i]) == m && |v.paths[i]| == 0;
    }
  }

  /** The path of the top item is a run that justifies refusing it. */
  lemma RefusedRun<V(!new)>(s: Spec<V>, starts: seq<Node<V>>, v: View<V>)
    requires Inv(s, starts, v) && Settled(v) && v.pending != []
    requires var item := v.pending[|v.pending| - 1];
             item.pc in item.ancestors || s.Faulty(NodeOf(item))
    ensures exists run :: s.BadRun(starts, run)
  {
    var top := |v.pending| - 1;
    var item := v.pending[top];
    var run := v.paths[top] + [NodeOf(item)];
    if item.pc in item.ancestors {
      var n :| n in v.paths[top] && n.pc == item.pc;
      var i :| 0 <= i < |v.paths[top]| && v.paths[top][i] == n;
      assert run[i].pc == run[|run| - 1].pc;
    }
    assert s.BadRun(starts, run);
  }

  // ----- both walks together -----

  /** Facts with which the guard is reached from the entry. */
  ghost predicate AtGuard<V(!new)>(s: Spec<V>, entry: Node<V>, x: V) {
    s.Reaches([entry], Node(s.guard, x))
  }

  ghost predicate SafeFrom<V(!new)>(s: Spec<V>, start: Node<V>, bound: nat) {
    AllRunsSafe(s, [start]) && RunsBounded(s, [start], bound)
  }

  /** What acceptance means: no run bypasses the guard, and every rejected run is safe. */
  ghost predicate Proven<V(!new)>(s: Spec<V>, entry: Node<V>, rejected: int, bound: nat) {
    && SafeFrom(s, entry, bound)
    && (exists x :: AtGuard(s, entry, x))
    && forall x :: AtGuard(s, entry, x) ==> SafeFrom(s.AfterGuard(), Node(rejected, x), bound)
  }

  /** What refusal means: a run of one of the walks gives the reason. */
  ghost predicate Refuted<V(!new)>(s: Spec<V>, entry: Node<V>, rejected: int) {
    || (exists run :: s.BadRun([entry], run))
    || (forall x :: !AtGuard(s, entry, x))
    || (exists x, run :: AtGuard(s, entry, x) && s.AfterGuard().BadRun([Node(rejected, x)], run))
  }

  /** Safe bounded runs end, and they can only end at an exit. */
  lemma {:induction false} SafeRunsReturn<V(!new)>(s: Spec<V>, starts: seq<Node<V>>, bound: nat, run: seq<Node<V>>) returns (n: Node<V>)
    requires AllRunsSafe(s, starts) && RunsBounded(s, starts, bound) && s.rejection
    requires s.IsRun(starts, run)
    ensures s.Reaches(starts, n) && s.Exit(n)
    decreases bound - |run|
  {
    n := run[|run| - 1];
    assert !s.Faulty(n);
    if n.pc !in s.exits {
      var m := Node(s.graph[n.pc][0], s.transfer(n.pc, n.fact).value);
      var longer := run + [m];
      assert s.Edge(n, m);
      assert s.IsRun(starts, longer);
      n := SafeRunsReturn(s, starts, bound, longer);
    }
  }

  lemma RunsFromOneStart<V(!new)>(s: Spec<V>, starts: seq<Node<V>>, start: Node<V>, bound: nat)
    requires AllRunsSafe(s, starts) && RunsBounded(s, starts, bound) && start in starts
    ensures SafeFrom(s, start, bound)
  {
    forall run | s.IsRun([start], run)
      ensures Distinct(run) && (forall i :: 0 <= i < |run| ==> !s.Faulty(run[i])) && |run| <= bound
    {
      assert s.IsRun(starts, run);
    }
  }

  method ListOf<T(==)>(xs: set<T>) returns (list: seq<T>)
    ensures forall x :: x in list <==> x in xs
  {
    list := [];
    var todo := xs;
    while todo != {}
      invariant todo <= xs
      invariant forall x :: x in list <==> x in xs - todo
      decreases |todo|
    {
      var x :| x in todo;
      list := list + [x];
      todo := todo - {x};
    }
  }

  /** The two walks of the span check. */
  method ValidateSpanPaths<V(==,!new)>(s: Spec<V>, entry: Node<V>, rejected: int) returns (ok: bool)
    requires !s.rejection
    ensures ok ==> exists bound: nat :: Proven(s, entry, rejected, bound)
    ensures !ok ==> Refuted(s, entry, rejected)
  {
    var first := Walk(s, [entry]);
    if first.None? { return false; }
    if first.value.guardValues == {} { return false; }
    var values := ListOf(first.value.guardValues);
    var starts := seq(|values|, i requires 0 <= i < |values| => Node(rejected, values[i]));
    var after := s.AfterGuard();
    var second := Walk(after, starts);
    if second.None? {
      assert Refuted(s, entry, rejected) by {
        var run :| after.BadRun(starts, run);
        var i :| 0 <= i < |starts| && run[0] == starts[i];
        assert values[i] in first.value.guardValues && AtGuard(s, entry, values[i]);
        assert after.BadRun([Node(rejected, values[i])], run);
      }
      return false;
    }
    ghost var bound1: nat :| RunsBounded(s, [entry], bound1);
    ghost var bound2: nat :| RunsBounded(after, starts, bound2);
    ghost var bound := bound1 + bound2;
    assert RunsBounded(after, starts, bound);
    var x :| x in first.value.guardValues;
    assert x in values && AtGuard(s, entry, x);
    assert after.IsRun(starts, [starts[0]]);
    ghost var n := SafeRunsReturn(after, starts, bound, [starts[0]]);
    if !second.value.returned { assert false; return false; }
    forall x | AtGuard(s, entry, x)
      ensures SafeFrom(after, Node(rejected, x), bound)
    {
      var i :| 0 <= i < |values| && values[i] == x;
      assert starts[i] == Node(rejected, x);
      RunsFromOneStart(after, starts, Node(rejected, x), bound);
    }
    assert Proven(s, entry, rejected, bound);
    ok := true;
  }
}
