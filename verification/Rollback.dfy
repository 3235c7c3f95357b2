/**
  One removal pass over the ledger of an acquisition
  (scripts/capture-stopped-canary.py, AcquisitionFiles.remove).

  A pass looks at the ledger backwards.  For every entry it reads the identity the path has now,
  refuses if it is not the recorded one, and unlinks the path.  Any step may fail, and other
  processes may change the file system before the look and between the look and the unlink.
*/
module Rollback {
  import opened Options

  /** Directories are numbered; a device and inode number together are one identity. */
  type Dir = int
  type Identity = int
  type Bytes = seq<bv8>

  datatype Path = Path(parent: Dir, name: string)

  datatype World = World(entries: map<Path, Identity>, bytes: map<Identity, Bytes>, dirs: map<Dir, Identity>)

  /** A ledger entry: a path this acquisition created and the identity it had then. */
  datatype Entry = Entry(path: Path, identity: Identity)

  /** What happens around one attempt: failures of its two system calls, and what others do. */
  datatype Attempt = Attempt(lookFails: bool, unlinkFails: bool, before: World -> World, between: World -> World)

  predicate Fails(a: Attempt) {
    a.lookFails || a.unlinkFails
  }

  ghost predicate Quiet(a: Attempt) {
    forall w: World :: a.before(w) == w && a.between(w) == w
  }

  ghost predicate AllQuiet(attempts: Path -> Attempt) {
    forall p: Path :: Quiet(attempts(p))
  }

  datatype Fate = Gone | Kept | Unlinked(identity: Identity)

  function Unlink(w: World, p: Path): World {
    w.(entries := w.entries - {p})
  }

  /** The world and the fate of an entry after one attempt to remove it. */
  function TryRemove(w: World, e: Entry, a: Attempt): (World, Fate) {
    var seen := a.before(w);
    if a.lookFails then (seen, Kept)
    else if e.path !in seen.entries then (seen, Gone)
    else if seen.entries[e.path] != e.identity then (seen, Kept)
    else
      var now := a.between(seen);
      if a.unlinkFails then (now, Kept)
      else if e.path !in now.entries then (now, Gone)
      else (Unlink(now, e.path), Unlinked(now.entries[e.path]))
  }

  /** Which part of the ledger a pass covers: everything, or only what lies in one directory. */
  datatype Scope = Everything | Only(dir: Option<Dir>)

  predicate Covers(scope: Scope, p: Path) {
    scope.Everything? || scope.dir == Some(p.parent)
  }

  datatype Swept = Swept(world: World, retained: seq<Entry>, trace: seq<World>, removed: seq<(Entry, Identity)>,
                         refused: bool)

  /** A whole pass: last entry first, what is kept stays in order. */
  function Sweep(w: World, owned: seq<Entry>, scope: Scope, attempts: Path -> Attempt): Swept
    decreases |owned|
  {
    if owned == [] then Swept(w, [], [], [], false)
    else
      var e, rest := owned[|owned| - 1], owned[..|owned| - 1];
      if !Covers(scope, e.path) then
        var s := Sweep(w, rest, scope, attempts);
        s.(retained := s.retained + [e])
      else
        var (next, fate) := TryRemove(w, e, attempts(e.path));
        var s := Sweep(next, rest, scope, attempts);
        Swept(s.world,
              if fate.Kept? then s.retained + [e] else s.retained,
              [next] + s.trace,
              if fate.Unlinked? then [(e, fate.identity)] + s.removed else s.removed,
              fate.Kept? || s.refused)
  }

  // ---------------------------------------------------------------- order

  /** One ledger is another with entries left out. */
  predicate Within(a: seq<Entry>, b: seq<Entry>) {
    if a == [] then true
    else if b == [] then false
    else if a[|a| - 1] == b[|b| - 1] then Within(a[..|a| - 1], b[..|b| - 1])
    else Within(a, b[..|b| - 1])
  }

  lemma {:induction false} WithinLonger(a: seq<Entry>, b: seq<Entry>, e: Entry)
    requires Within(a, b)
    ensures Within(a, b + [e]) && Within(a + [e], b + [e])
    decreases |b|, 1
  {
    assert (b + [e])[..|b|] == b && (a + [e])[..|a|] == a;
    if a != [] && a[|a| - 1] == e {
      WithinShorter(a, b);
    }
  }

  lemma {:induction false} WithinShorter(a: seq<Entry>, b: seq<Entry>)
    requires Within(a, b) && a != []
    ensures Within(a[..|a| - 1], b)
    decreases |b|, 0
  {
    var a', b' := a[..|a| - 1], b[..|b| - 1];
    assert b == b' + [b[|b| - 1]];
    if a[|a| - 1] == b[|b| - 1] {
      WithinLonger(a', b', b[|b| - 1]);
    } else {
      WithinShorter(a, b');
      WithinLonger(a', b', b[|b| - 1]);
    }
  }

  /** Whatever fails and whoever interferes, the entries a pass keeps stay in ledger order. */
  lemma {:induction false} RetainedInOrder(w: World, owned: seq<Entry>, scope: Scope, attempts: Path -> Attempt)
    ensures Within(Sweep(w, owned, scope, attempts).retained, owned)
    decreases |owned|
  {
    if owned != [] {
      hide TryRemove, Within, Covers;
      var e, rest := owned[|owned| - 1], owned[..|owned| - 1];
      var next := if Covers(scope, e.path) then TryRemove(w, e, attempts(e.path)).0 else w;
      RetainedInOrder(next, rest, scope, attempts);
      WithinLonger(Sweep(next, rest, scope, attempts).retained, rest, e);
      assert owned == rest + [e];
    }
  }

  // ---------------------------------------------------------------- interference

  /** Everything a pass unlinked had, when it was unlinked, the recorded identity. */
  ghost predicate OnlyOwnFiles(s: Swept) {
    forall i :: 0 <= i < |s.removed| ==> s.removed[i].0.identity == s.removed[i].1
  }

  /** Nobody replaces this path between the look and the unlink. */
  ghost predicate Steady(p: Path, a: Attempt) {
    !Fails(a) ==>
      forall w: World {:trigger a.before(w)} ::
        var seen := a.before(w);
        var now := a.between(seen);
        p in seen.entries && p in now.entries ==> now.entries[p] == seen.entries[p]
  }

  lemma {:induction false} SteadySweep(w: World, owned: seq<Entry>, scope: Scope, attempts: Path -> Attempt)
    requires forall p: Path :: Steady(p, attempts(p))
    ensures OnlyOwnFiles(Sweep(w, owned, scope, attempts))
    decreases |owned|
  {
    if owned != [] {
      var e, rest := owned[|owned| - 1], owned[..|owned| - 1];
      if Covers(scope, e.path) {
        var (next, fate) := TryRemove(w, e, attempts(e.path));
        SteadySweep(next, rest, scope, attempts);
        assert Steady(e.path, attempts(e.path));
      } else {
        SteadySweep(w, rest, scope, attempts);
      }
    }
  }

  /**
    The look before the unlink protects foreign files exactly as far as it can: passes with
    these attempts unlink only files with the recorded identity, for every ledger and world,
    if and only if no path is replaced between its look and its unlink.  Changes before the
    look, of any kind, do no harm.
  */
  lemma OnlyOwnFilesIff(attempts: Path -> Attempt)
    ensures (forall w: World, owned: seq<Entry> :: OnlyOwnFiles(Sweep(w, owned, Everything, attempts)))
       <==> (forall p: Path :: Steady(p, attempts(p)))
  {
    if forall p: Path :: Steady(p, attempts(p)) {
      forall w: World, owned: seq<Entry> ensures OnlyOwnFiles(Sweep(w, owned, Everything, attempts)) {
        SteadySweep(w, owned, Everything, attempts);
      }
    }
    if p: Path :| !Steady(p, attempts(p)) {
      var w := ForeignFileTaken(p, attempts);
    }
  }

  lemma ForeignFileTaken(p: Path, attempts: Path -> Attempt) returns (w: World)
    requires !Steady(p, attempts(p))
    ensures p in attempts(p).before(w).entries
    ensures !OnlyOwnFiles(Sweep(w, [Entry(p, attempts(p).before(w).entries[p])], Everything, attempts))
  {
    w := ReplacedIn(p, attempts(p));
    var owned := [Entry(p, attempts(p).before(w).entries[p])];
    assert owned[..0] == [];
    var s := Sweep(w, owned, Everything, attempts);
    assert s.removed[0].0.identity != s.removed[0].1;
  }

  lemma ReplacedIn(p: Path, a: Attempt) returns (w: World)
    requires !Steady(p, a)
    ensures !Fails(a) && p in a.before(w).entries && p in a.between(a.before(w)).entries
    ensures a.between(a.before(w)).entries[p] != a.before(w).entries[p]
  {
    w :| var seen := a.before(w);
         var now := a.between(seen);
         p in seen.entries && p in now.entries && now.entries[p] != seen.entries[p];
  }

  /** The window is real: a file put in place between the look and the unlink is lost. */
  lemma ForeignFileLost(p: Path, mine: Identity, theirs: Identity) returns (attempts: Path -> Attempt, w: World)
    requires mine != theirs
    ensures var s := Sweep(w, [Entry(p, mine)], Everything, attempts);
            s.removed == [(Entry(p, mine), theirs)] && p !in s.world.entries
  {
    var replace := (v: World) => World(v.entries[p := theirs], v.bytes, v.dirs);
    attempts := (q: Path) => Attempt(false, false, (v: World) => v, replace);
    w := World(map[p := mine], map[], map[]);
    var owned := [Entry(p, mine)];
    assert owned[..0] == [];
    assert replace(w).entries[p] == theirs;
    assert TryRemove(w, owned[0], attempts(p)) == (Unlink(replace(w), p), Unlinked(theirs));
  }

  // ---------------------------------------------------------------- undisturbed passes

  ghost function Paths(owned: seq<Entry>): set<Path> {
    set e | e in owned :: e.path
  }

  /** The identity a ledger claims for each of its paths: the latest entry counts. */
  function Claims(owned: seq<Entry>): map<Path, Identity> {
    if owned == [] then map[]
    else
      var e := owned[|owned| - 1];
      Claims(owned[..|owned| - 1])[e.path := e.identity]
  }

  lemma {:induction false} ClaimsPaths(owned: seq<Entry>)
    ensures Claims(owned).Keys == Paths(owned)
  {
    if owned != [] {
      var e, rest := owned[|owned| - 1], owned[..|owned| - 1];
      ClaimsPaths(rest);
      assert owned == rest + [e];
    }
  }

  /** A path of the ledger that still exists is the file the ledger claims. */
  ghost predicate Claimed(w: World, owned: seq<Entry>) {
    forall p :: p in Claims(owned) && p in w.entries ==> w.entries[p] == Claims(owned)[p]
  }

  /** As Claimed, for the paths a pass is going to remove. */
  ghost predicate ClaimedIfRemoved(w: World, owned: seq<Entry>, scope: Scope, attempts: Path -> Attempt) {
    forall p :: p in Claims(owned) && p in w.entries && Removes(scope, attempts, p) ==> w.entries[p] == Claims(owned)[p]
  }

  predicate Removes(scope: Scope, attempts: Path -> Attempt, p: Path) {
    Covers(scope, p) && !Fails(attempts(p))
  }

  lemma TryRemoveQuiet(w: World, e: Entry, a: Attempt)
    requires Quiet(a) && (e.path in w.entries && !Fails(a) ==> w.entries[e.path] == e.identity)
    ensures var (next, fate) := TryRemove(w, e, a);
            if Fails(a) then next == w && (e.path in w.entries ==> fate == Kept)
            else next == Unlink(w, e.path) && !fate.Kept?
  {
    assert a.before(w) == w && a.between(w) == w;
    if e.path !in w.entries { assert w.entries - {e.path} == w.entries; }
  }

  /** Where a pass goes on after its first entry. */
  function Next(w: World, e: Entry, scope: Scope, attempts: Path -> Attempt): World {
    if Removes(scope, attempts, e.path) then Unlink(w, e.path) else w
  }

  /** An undisturbed pass, one entry at a time. */
  lemma SweepStep(w: World, owned: seq<Entry>, scope: Scope, attempts: Path -> Attempt)
    requires owned != [] && AllQuiet(attempts) && ClaimedIfRemoved(w, owned, scope, attempts)
    ensures var e, rest := owned[|owned| - 1], owned[..|owned| - 1];
            var next := Next(w, e, scope, attempts);
            var s, t := Sweep(w, owned, scope, attempts), Sweep(next, rest, scope, attempts);
            && ClaimedIfRemoved(next, rest, scope, attempts)
            && s.world == t.world
            && s.trace == (if Covers(scope, e.path) then [next] else []) + t.trace
            && (s.retained == t.retained || s.retained == t.retained + [e])
            && (e.path in next.entries ==> s.retained == t.retained + [e])
            && (Removes(scope, attempts, e.path) ==> s.retained == t.retained && s.refused == t.refused)
            && (t.refused ==> s.refused) && (!Covers(scope, e.path) ==> s.refused == t.refused)
            && (Covers(scope, e.path) && e.path in next.entries ==> s.refused)
  {
    var e, rest := owned[|owned| - 1], owned[..|owned| - 1];
    assert e.path in Claims(owned) && Claims(owned)[e.path] == e.identity;
    assert forall p :: p in Claims(rest) && p != e.path ==> p in Claims(owned) && Claims(owned)[p] == Claims(rest)[p];
    hide Claims;
    if Covers(scope, e.path) {
      TryRemoveQuiet(w, e, attempts(e.path));
    }
    hide TryRemove, Fails;
  }

  /** The ledger paths a pass takes away. */
  ghost function Taken(owned: seq<Entry>, scope: Scope, attempts: Path -> Attempt): set<Path> {
    set p | p in Claims(owned) && Removes(scope, attempts, p)
  }

  /**
    What an undisturbed pass does, exactly: it removes the ledger paths it covers and whose
    removal does not fail, and keeps every other path and all contents.
  */
  lemma {:induction false} SweepRemoves(w: World, owned: seq<Entry>, scope: Scope, attempts: Path -> Attempt)
    requires AllQuiet(attempts) && ClaimedIfRemoved(w, owned, scope, attempts)
    ensures Sweep(w, owned, scope, attempts).world
         == World(w.entries - Taken(owned, scope, attempts), w.bytes, w.dirs)
    decreases |owned|
  {
    if owned == [] {
      assert Taken(owned, scope, attempts) == {};
    } else {
      var e, rest := owned[|owned| - 1], owned[..|owned| - 1];
      SweepStep(w, owned, scope, attempts);
      hide Sweep, Removes, AllQuiet, ClaimedIfRemoved;
      SweepRemoves(Next(w, e, scope, attempts), rest, scope, attempts);
      assert Taken(owned, scope, attempts)
          == Taken(rest, scope, attempts) + if Removes(scope, attempts, e.path) then {e.path} else {};
    }
  }

  /** A ledger path that still exists after a pass is still in the ledger, with the same claim. */
  ghost predicate ClaimsOn(w: World, retained: seq<Entry>, owned: seq<Entry>) {
    forall p :: p in w.entries && p in Claims(owned) ==> p in Claims(retained) && Claims(retained)[p] == Claims(owned)[p]
  }

  lemma {:induction false} SweepClaims(w: World, owned: seq<Entry>, scope: Scope, attempts: Path -> Attempt)
    requires AllQuiet(attempts) && ClaimedIfRemoved(w, owned, scope, attempts)
    ensures var s := Sweep(w, owned, scope, attempts);
            Shrinks(s.world, w) && ClaimsOn(s.world, s.retained, owned)
    decreases |owned|
  {
    if owned != [] {
      var e, rest := owned[|owned| - 1], owned[..|owned| - 1];
      SweepStep(w, owned, scope, attempts);
      hide Sweep, Removes, AllQuiet, ClaimedIfRemoved, Covers;
      var next := Next(w, e, scope, attempts);
      SweepClaims(next, rest, scope, attempts);
      var r := Sweep(next, rest, scope, attempts).retained;
      assert (r + [e])[..|r|] == r;
    }
  }

  /** Worlds only lose paths on the way. */
  ghost predicate Shrinks(v: World, w: World) {
    v.bytes == w.bytes && forall p :: p in v.entries ==> p in w.entries && v.entries[p] == w.entries[p]
  }

  lemma {:induction false} SweepShrinks(w: World, owned: seq<Entry>, scope: Scope, attempts: Path -> Attempt)
    requires AllQuiet(attempts) && ClaimedIfRemoved(w, owned, scope, attempts)
    ensures var s := Sweep(w, owned, scope, attempts);
            && Shrinks(s.world, w)
            && (scope.Everything? && owned != [] ==> s.trace != [] && s.trace[|s.trace| - 1] == s.world)
            && forall i :: 0 <= i < |s.trace| ==> Shrinks(s.trace[i], w) && Shrinks(s.world, s.trace[i])
    decreases |owned|
  {
    if owned != [] {
      var e, rest := owned[|owned| - 1], owned[..|owned| - 1];
      SweepStep(w, owned, scope, attempts);
      hide Sweep, Removes, AllQuiet, ClaimedIfRemoved, Covers, Claims, TryRemove;
      SweepShrinks(Next(w, e, scope, attempts), rest, scope, attempts);
    }
  }

  /** With nothing failing, a pass over everything empties the ledger. */
  lemma {:induction false} SweepEmpties(w: World, owned: seq<Entry>, attempts: Path -> Attempt)
    requires AllQuiet(attempts) && ClaimedIfRemoved(w, owned, Everything, attempts)
    requires forall p: Path :: !Fails(attempts(p))
    ensures Sweep(w, owned, Everything, attempts).retained == [] && !Sweep(w, owned, Everything, attempts).refused
    decreases |owned|
  {
    if owned != [] {
      var e, rest := owned[|owned| - 1], owned[..|owned| - 1];
      SweepStep(w, owned, Everything, attempts);
      assert Removes(Everything, attempts, e.path);
      hide Sweep, AllQuiet, ClaimedIfRemoved;
      SweepEmpties(Next(w, e, Everything, attempts), rest, attempts);
    }
  }

  /** Only entries whose removal fails, or that are not covered, are kept. */
  lemma {:induction false} RetainedFailed(w: World, owned: seq<Entry>, scope: Scope, attempts: Path -> Attempt)
    requires AllQuiet(attempts) && ClaimedIfRemoved(w, owned, scope, attempts)
    ensures forall p :: p in Claims(Sweep(w, owned, scope, attempts).retained) ==>
              p in Claims(owned) && !Removes(scope, attempts, p)
    decreases |owned|
  {
    if owned != [] {
      var e, rest := owned[|owned| - 1], owned[..|owned| - 1];
      SweepStep(w, owned, scope, attempts);
      hide Sweep, Removes, AllQuiet, ClaimedIfRemoved, Covers;
      var next := Next(w, e, scope, attempts);
      RetainedFailed(next, rest, scope, attempts);
      var r := Sweep(next, rest, scope, attempts).retained;
      assert (r + [e])[..|r|] == r;
    }
  }

  /** A pass in which nothing it covers fails reports no issue. */
  lemma {:induction false} NothingRefused(w: World, owned: seq<Entry>, scope: Scope, attempts: Path -> Attempt)
    requires AllQuiet(attempts) && ClaimedIfRemoved(w, owned, scope, attempts)
    requires forall p: Path :: !Fails(attempts(p))
    ensures !Sweep(w, owned, scope, attempts).refused
    decreases |owned|
  {
    if owned != [] {
      var e, rest := owned[|owned| - 1], owned[..|owned| - 1];
      SweepStep(w, owned, scope, attempts);
      assert Covers(scope, e.path) ==> Removes(scope, attempts, e.path);
      hide Sweep, AllQuiet, ClaimedIfRemoved, Removes, Covers;
      NothingRefused(Next(w, e, scope, attempts), rest, scope, attempts);
    }
  }

  /** A pass that reports no issue took everything it covers. */
  lemma {:induction false} Unrefused(w: World, owned: seq<Entry>, scope: Scope, attempts: Path -> Attempt)
    requires AllQuiet(attempts) && ClaimedIfRemoved(w, owned, scope, attempts)
    requires !Sweep(w, owned, scope, attempts).refused
    ensures forall p :: p in Claims(owned) && p in w.entries && Covers(scope, p) ==> Removes(scope, attempts, p)
    decreases |owned|
  {
    if owned != [] {
      var e, rest := owned[|owned| - 1], owned[..|owned| - 1];
      var next := Next(w, e, scope, attempts);
      SweepStep(w, owned, scope, attempts);
      hide Sweep, Removes, AllQuiet, ClaimedIfRemoved, Covers;
      Unrefused(next, rest, scope, attempts);
    }
  }

  // ---------------------------------------------------------------- manifest and surfaces

  /** A published file and the bytes that were staged for it. */
  datatype Surface = Surface(path: Path, bytes: Bytes)

  ghost predicate Holds(w: World, s: Surface) {
    s.path in w.entries && w.entries[s.path] in w.bytes && w.bytes[w.entries[s.path]] == s.bytes
  }

  ghost predicate AllHold(w: World, surfaces: seq<Surface>) {
    forall i :: 0 <= i < |surfaces| ==> Holds(w, surfaces[i])
  }

  /** A reader who finds the manifest finds every surface it names, complete. */
  ghost predicate Safe(w: World, manifest: Path, surfaces: seq<Surface>) {
    manifest in w.entries ==> AllHold(w, surfaces)
  }

  ghost predicate SafeAlong(trace: seq<World>, manifest: Path, surfaces: seq<Surface>) {
    forall i :: 0 <= i < |trace| ==> Safe(trace[i], manifest, surfaces)
  }

  /** The removal of the manifest works, or no surface is removed either. */
  ghost predicate Harmless(attempts: Path -> Attempt, manifest: Path, surfaces: seq<Surface>) {
    Fails(attempts(manifest)) ==> forall i :: 0 <= i < |surfaces| ==> Fails(attempts(surfaces[i].path))
  }

  lemma ShrinksSafe(v: World, w: World, manifest: Path, surfaces: seq<Surface>)
    requires Shrinks(v, w)
    ensures AllHold(v, surfaces) ==> AllHold(w, surfaces)
    ensures manifest !in w.entries ==> manifest !in v.entries
  {}

  /**
    Manifest last in the ledger means manifest first out: every world of a whole pass is safe
    for readers if and only if the pass is harmless.
  */
  lemma {:induction false} SweepSafeIff(w: World, owned: seq<Entry>, attempts: Path -> Attempt, manifest: Path, surfaces: seq<Surface>)
    requires AllQuiet(attempts) && Claimed(w, owned)
    requires owned != [] && owned[|owned| - 1].path == manifest && manifest in w.entries
    requires AllHold(w, surfaces)
    requires forall i :: 0 <= i < |surfaces| ==> surfaces[i].path in Claims(owned) && surfaces[i].path != manifest
    ensures var s := Sweep(w, owned, Everything, attempts);
            && (SafeAlong(s.trace, manifest, surfaces) <==> Harmless(attempts, manifest, surfaces))
            && (manifest in s.world.entries <==> Fails(attempts(manifest)))
            && (manifest in s.world.entries ==> s.retained != [] && s.retained[|s.retained| - 1] == owned[|owned| - 1])
  {
    SweepTakesLast(w, owned, attempts);
    if !Fails(attempts(manifest)) {
      WithdrawnFirst(w, owned, attempts, surfaces);
    } else {
      var s := Sweep(w, owned, Everything, attempts);
      SweepShrinks(w, owned, Everything, attempts);
      SweepRemoves(w, owned, Everything, attempts);
      hide Sweep, Claims, AllQuiet, Claimed, Fails;
      if Harmless(attempts, manifest, surfaces) {
        assert AllHold(s.world, surfaces);
        SafeWith(s.world, s.trace, manifest, surfaces);
      } else {
        assert !Safe(s.trace[|s.trace| - 1], manifest, surfaces);
      }
    }
  }

  /** The last entry is removed, or stays last. */
  lemma {:induction false} SweepTakesLast(w: World, owned: seq<Entry>, attempts: Path -> Attempt)
    requires AllQuiet(attempts) && Claimed(w, owned) && owned != [] && owned[|owned| - 1].path in w.entries
    ensures var s := Sweep(w, owned, Everything, attempts);
            var e := owned[|owned| - 1];
            && (e.path in s.world.entries <==> Fails(attempts(e.path)))
            && (e.path in s.world.entries ==> s.retained != [] && s.retained[|s.retained| - 1] == e)
  {
    SweepStep(w, owned, Everything, attempts);
    SweepRemoves(w, owned, Everything, attempts);
    assert owned[|owned| - 1].path in Claims(owned);
    hide Sweep, Claims, AllQuiet, Claimed;
  }

  lemma {:induction false} WithdrawnFirst(w: World, owned: seq<Entry>, attempts: Path -> Attempt, surfaces: seq<Surface>)
    requires AllQuiet(attempts) && Claimed(w, owned) && owned != [] && !Fails(attempts(owned[|owned| - 1].path))
    ensures SafeAlong(Sweep(w, owned, Everything, attempts).trace, owned[|owned| - 1].path, surfaces)
  {
    var e, rest := owned[|owned| - 1], owned[..|owned| - 1];
    SweepStep(w, owned, Everything, attempts);
    var next := Unlink(w, e.path);
    SweepShrinks(next, rest, Everything, attempts);
    hide Sweep, Claims, AllQuiet, Claimed, ClaimedIfRemoved;
    SafeWithout(next, Sweep(next, rest, Everything, attempts).trace, e.path, surfaces);
  }

  lemma SafeWithout(w: World, trace: seq<World>, manifest: Path, surfaces: seq<Surface>)
    requires manifest !in w.entries && forall i :: 0 <= i < |trace| ==> Shrinks(trace[i], w)
    ensures SafeAlong(trace, manifest, surfaces)
  {}

  lemma SafeWith(w: World, trace: seq<World>, manifest: Path, surfaces: seq<Surface>)
    requires AllHold(w, surfaces) && forall i :: 0 <= i < |trace| ==> Shrinks(w, trace[i])
    ensures SafeAlong(trace, manifest, surfaces)
  {
    forall i | 0 <= i < |trace| ensures AllHold(trace[i], surfaces) {
      ShrinksSafe(w, trace[i], manifest, surfaces);
    }
  }
}
