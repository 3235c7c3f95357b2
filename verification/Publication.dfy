/**
  Publication and rollback as one transaction (scripts/capture-stopped-canary.py,
  Coordinator.publish and run, CoordinatorSignals.finish): stage, link every surface, link the
  manifest last, and on any issue remove the ledger backwards, up to three times.

  A script says which step fails; the theorems hold for every script.  A world is what the file
  system holds under the acquisition's own names: its staging directory, the manifest, the
  surfaces and the control files.
*/
module Publication {
  import opened Numbers
  import opened Options
  import opened Rollback
  import opened Acquisition

  // ---------------------------------------------------------------- what a run leaves

  /** Every pass up to this one failed to remove the manifest. */
  ghost predicate Standing(sweeps: seq<Path -> Attempt>, k: nat, manifest: Path) {
    k <= |sweeps| && forall q :: 0 <= q < k ==> Fails(sweeps[q](manifest))
  }

  /** As long as the manifest stands, passes remove no surface. */
  ghost predicate HarmlessRun(sweeps: seq<Path -> Attempt>, manifest: Path, surfaces: seq<Surface>) {
    forall k :: 0 <= k < |sweeps| && Standing(sweeps, k, manifest) ==> Harmless(sweeps[k], manifest, surfaces)
  }

  /** The manifest is the newest ledger entry, and all it names is there and in the ledger. */
  ghost predicate Withdrawable(w: World, owned: seq<Entry>, manifest: Path, surfaces: seq<Surface>) {
    && owned != [] && owned[|owned| - 1].path == manifest && manifest in w.entries
    && AllHold(w, surfaces)
    && forall i :: 0 <= i < |surfaces| ==> surfaces[i].path in Claims(owned) && surfaces[i].path != manifest
  }

  /** What is known of a run that may have linked the manifest and made these passes. */
  ghost predicate Told(w: World, trace: seq<World>, owned: seq<Entry>, linked: bool, sweeps: seq<Path -> Attempt>,
                       manifest: Path, surfaces: seq<Surface>) {
    && (manifest in w.entries <==> linked && Standing(sweeps, |sweeps|, manifest))
    && (SafeAlong(trace, manifest, surfaces) <==> (linked ==> HarmlessRun(sweeps, manifest, surfaces)))
    && (manifest in w.entries ==> manifest in Claims(owned))
    && (manifest in w.entries && SafeAlong(trace, manifest, surfaces) ==> Withdrawable(w, owned, manifest, surfaces))
  }

  lemma SafeAlongAppend(a: seq<World>, b: seq<World>, manifest: Path, surfaces: seq<Surface>)
    ensures SafeAlong(a + b, manifest, surfaces) <==> SafeAlong(a, manifest, surfaces) && SafeAlong(b, manifest, surfaces)
  {
    if SafeAlong(a + b, manifest, surfaces) {
      assert forall i :: 0 <= i < |a| ==> a[i] == (a + b)[i];
      assert forall i :: 0 <= i < |b| ==> b[i] == (a + b)[|a| + i];
    }
  }

  lemma HarmlessRunAppend(sweeps: seq<Path -> Attempt>, attempts: Path -> Attempt, manifest: Path, surfaces: seq<Surface>)
    ensures HarmlessRun(sweeps + [attempts], manifest, surfaces)
       <==> HarmlessRun(sweeps, manifest, surfaces)
            && (Standing(sweeps, |sweeps|, manifest) ==> Harmless(attempts, manifest, surfaces))
    ensures Standing(sweeps + [attempts], |sweeps| + 1, manifest)
       <==> Standing(sweeps, |sweeps|, manifest) && Fails(attempts(manifest))
  {
    var all := sweeps + [attempts];
    assert forall k :: 0 <= k < |sweeps| ==> all[k] == sweeps[k];
    assert forall k :: 0 <= k <= |sweeps| ==> (Standing(all, k, manifest) <==> Standing(sweeps, k, manifest));
    assert all[|sweeps|] == attempts;
    hide Harmless;
    if HarmlessRun(all, manifest, surfaces) {
      assert forall k :: 0 <= k < |sweeps| && Standing(sweeps, k, manifest) ==> Standing(all, k, manifest) && all[k] == sweeps[k];
    }
  }

  /** One more undisturbed pass, and what is known of the run is known again. */
  lemma {:induction false} SweepTold(w: World, trace: seq<World>, owned: seq<Entry>, linked: bool, sweeps: seq<Path -> Attempt>,
                  manifest: Path, surfaces: seq<Surface>, attempts: Path -> Attempt)
    requires Told(w, trace, owned, linked, sweeps, manifest, surfaces) && Bound(w, owned) && AllQuiet(attempts)
    ensures var s := Sweep(w, owned, Everything, attempts);
            Told(s.world, trace + s.trace, s.retained, linked, sweeps + [attempts], manifest, surfaces)
  {
    var s := Sweep(w, owned, Everything, attempts);
    SafeAlongAppend(trace, s.trace, manifest, surfaces);
    HarmlessRunAppend(sweeps, attempts, manifest, surfaces);
    SweepClaims(w, owned, Everything, attempts);
    SweepShrinks(w, owned, Everything, attempts);
    if manifest !in w.entries {
      SafeWithout(w, s.trace, manifest, surfaces);
    } else {
      SweepRemoves(w, owned, Everything, attempts);
      if SafeAlong(trace, manifest, surfaces) {
        SweepSafeIff(w, owned, attempts, manifest, surfaces);
      }
    }
    hide Sweep, Claims, AllQuiet, Bound, Harmless, HarmlessRun, Standing;
  }

  /**
    The condition is not idle: if unlinking the manifest fails once, the same pass goes on to
    remove a surface the manifest still names.
  */
  lemma ManifestStranded(manifest: Path, surface: Surface)
    returns (w: World, owned: seq<Entry>, attempts: Path -> Attempt)
    requires manifest != surface.path
    ensures Withdrawable(w, owned, manifest, [surface]) && Bound(w, owned) && AllQuiet(attempts)
    ensures var s := Sweep(w, owned, Everything, attempts);
            manifest in s.world.entries && surface.path !in s.world.entries && !SafeAlong(s.trace, manifest, [surface])
  {
    var same := (v: World) => v;
    attempts := (p: Path) => Attempt(false, p == manifest, same, same);
    w := World(map[manifest := 1, surface.path := 2], map[2 := surface.bytes], map[]);
    var first, last := Entry(surface.path, 2), Entry(manifest, 1);
    owned := [first, last];
    assert owned == [first] + [last] && [first] == [] + [first];
    ClaimsAdd([first], last);
    ClaimsAdd([], first);
    assert Claims([]) == map[];
    assert Claims(owned) == map[surface.path := 2, manifest := 1];
    SweepRemoves(w, owned, Everything, attempts);
    SweepSafeIff(w, owned, attempts, manifest, [surface]);
    assert !Fails(attempts([surface][0].path));
  }

  /** Files that only change places of directories tell nothing new. */
  lemma SameFilesTold(w: World, trace: seq<World>, owned: seq<Entry>, linked: bool, sweeps: seq<Path -> Attempt>,
                      manifest: Path, surfaces: seq<Surface>, v: World)
    requires Told(w, trace, owned, linked, sweeps, manifest, surfaces)
    requires v.entries == w.entries && v.bytes == w.bytes
    ensures Told(v, trace + [v], owned, linked, sweeps, manifest, surfaces)
  {
    SafeAlongAppend(trace, [v], manifest, surfaces);
    hide HarmlessRun, Standing, Claims;
    assert Safe(v, manifest, surfaces) <==> Safe(w, manifest, surfaces);
  }

  /** A whole removal, staging directory included. */
  lemma {:induction false} RemovalTold(w: World, trace: seq<World>, owned: seq<Entry>, linked: bool, sweeps: seq<Path -> Attempt>,
                    manifest: Path, surfaces: seq<Surface>, stage: Option<Dir>, books: Books,
                    identity: Option<Identity>, attempts: Path -> Attempt, a: Attempt)
    requires Told(w, trace, owned, linked, sweeps, manifest, surfaces) && InOrder(w, owned, stage, books)
    requires AllQuiet(attempts) && Quiet(a)
    ensures Told(Removed(w, owned, stage, identity, Everything, attempts, a).0,
                 trace + RemovalTrace(w, owned, stage, identity, Everything, attempts, a),
                 Sweep(w, owned, Everything, attempts).retained, linked, sweeps + [attempts], manifest, surfaces)
  {
    hide Told, Sweep, Claims, AllQuiet, RemoveStage, Rooted;
    var s := Sweep(w, owned, Everything, attempts);
    SweepTold(w, trace, owned, linked, sweeps, manifest, surfaces, attempts);
    SweepRemoves(w, owned, Everything, attempts);
    hide Bound, Taken, Quiet;
    var next := Removed(w, owned, stage, identity, Everything, attempts, a).0;
    if stage.Some? {
      StageGoes(s.world, stage.value, identity, a);
      SameFilesTold(s.world, trace + s.trace, s.retained, linked, sweeps + [attempts], manifest, surfaces, next);
      assert trace + s.trace + [next] == trace + (s.trace + [next]);
    } else {
      assert trace + s.trace == trace + (s.trace + []);
    }
  }

  /** The removal of staged files leaves what is public alone, on the way and at the end. */
  lemma {:induction false} StagedSweepKeeps(w: World, owned: seq<Entry>, dir: Dir, attempts: Path -> Attempt,
                         manifest: Path, surfaces: seq<Surface>)
    requires Withdrawable(w, owned, manifest, surfaces) && Bound(w, owned) && AllQuiet(attempts)
    requires manifest.parent != dir && forall i :: 0 <= i < |surfaces| ==> surfaces[i].path.parent != dir
    ensures var s := Sweep(w, owned, Only(Some(dir)), attempts);
            Withdrawable(s.world, s.retained, manifest, surfaces) && SafeAlong(s.trace, manifest, surfaces)
  {
    var scope := Only(Some(dir));
    var s := Sweep(w, owned, scope, attempts);
    SweepStep(w, owned, scope, attempts);
    SweepRemoves(w, owned, scope, attempts);
    SweepClaims(w, owned, scope, attempts);
    SweepShrinks(w, owned, scope, attempts);
    hide Sweep, Claims, AllQuiet, Bound;
    assert AllHold(s.world, surfaces);
    SafeWith(s.world, s.trace, manifest, surfaces);
  }

  /** The same for the whole removal after publication; without issues nothing staged is left. */
  lemma {:induction false} StagedRemovalTold(w: World, trace: seq<World>, owned: seq<Entry>, manifest: Path, surfaces: seq<Surface>,
                          dir: Dir, books: Books, identity: Option<Identity>, attempts: Path -> Attempt, a: Attempt)
    requires SafeAlong(trace, manifest, surfaces) && InOrder(w, owned, Some(dir), books)
    requires Withdrawable(w, owned, manifest, surfaces) && AllQuiet(attempts) && Quiet(a)
    requires manifest.parent != dir && forall i :: 0 <= i < |surfaces| ==> surfaces[i].path.parent != dir
    ensures var scope := Only(Some(dir));
            var s := Sweep(w, owned, scope, attempts);
            && Told(Removed(w, owned, Some(dir), identity, scope, attempts, a).0,
                    trace + RemovalTrace(w, owned, Some(dir), identity, scope, attempts, a),
                    s.retained, true, [], manifest, surfaces)
            && (!s.refused && Ours(owned, dir, manifest, surfaces) ==>
                  Claims(s.retained).Keys <= {manifest} + SurfacePaths(surfaces))
  {
    hide Sweep, Claims, AllQuiet, RemoveStage, Rooted, HarmlessRun, Standing, Withdrawable;
    var scope := Only(Some(dir));
    var s := Sweep(w, owned, scope, attempts);
    StagedSweepKeeps(w, owned, dir, attempts, manifest, surfaces);
    RetainedFailed(w, owned, scope, attempts);
    if !s.refused {
      Unrefused(w, owned, scope, attempts);
    }
    SweepRemoves(w, owned, scope, attempts);
    StageGoes(s.world, dir, identity, a);
    hide Bound, Taken, Quiet, ClaimedIfRemoved;
    WithdrawableTold(s.world, trace + s.trace, s.retained, manifest, surfaces) by {
      SafeAlongAppend(trace, s.trace, manifest, surfaces);
    }
    var next := Removed(w, owned, Some(dir), identity, scope, attempts, a).0;
    SameFilesTold(s.world, trace + s.trace, s.retained, true, [], manifest, surfaces, next);
    assert trace + s.trace + [next] == trace + (s.trace + [next]);
  }

  lemma WithdrawableTold(w: World, trace: seq<World>, owned: seq<Entry>, manifest: Path, surfaces: seq<Surface>)
    requires Withdrawable(w, owned, manifest, surfaces) && SafeAlong(trace, manifest, surfaces)
    ensures Told(w, trace, owned, true, [], manifest, surfaces)
  {}

  lemma ToldMeans(w: World, trace: seq<World>, owned: seq<Entry>, linked: bool, sweeps: seq<Path -> Attempt>,
                  manifest: Path, surfaces: seq<Surface>)
    requires Told(w, trace, owned, linked, sweeps, manifest, surfaces)
    ensures manifest in w.entries <==> linked && Standing(sweeps, |sweeps|, manifest)
    ensures SafeAlong(trace, manifest, surfaces) <==> (linked ==> HarmlessRun(sweeps, manifest, surfaces))
  {}

  /** What there is: what was there before, what the ledger claims, and what is not in it. */
  lemma {:induction false} WhatIsThere(w: World, owned: seq<Entry>, stage: Option<Dir>, books: Books)
    requires InOrder(w, owned, stage, books) && books.adopted == {}
    ensures forall p :: p in w.entries <==> p in books.base.entries || p in Claims(owned) || p in books.leaked
    ensures forall p :: p in books.base.entries ==> w.entries[p] == books.base.entries[p]
    ensures SameBytes(books.base.entries, books.base, w)
  {
    hide Claims;
    var rest := w.entries - (Claims(owned).Keys + books.leaked);
    assert books.base.entries - books.adopted == books.base.entries;
    assert rest == books.base.entries;
    forall p ensures p in w.entries <==> p in books.base.entries || p in Claims(owned) || p in books.leaked {
      assert p in rest <==> p in w.entries && p !in Claims(owned) && p !in books.leaked;
    }
  }

  /** After a publication without a pass the surfaces hold, and with the manifest they are the ledger. */
  lemma {:induction false} PublishedExactly(w: World, trace: seq<World>, owned: seq<Entry>, manifest: Path, surfaces: seq<Surface>)
    requires Told(w, trace, owned, true, [], manifest, surfaces)
    requires Claims(owned).Keys <= {manifest} + SurfacePaths(surfaces)
    ensures AllHold(w, surfaces) && Claims(owned).Keys == {manifest} + SurfacePaths(surfaces)
  {
    assert HarmlessRun([], manifest, surfaces) && Standing([], 0, manifest);
    hide Claims, HarmlessRun, Standing, SafeAlong;
    assert forall p :: p in {manifest} + SurfacePaths(surfaces) ==> p in Claims(owned).Keys;
  }

  // ---------------------------------------------------------------- the coordinator

  datatype ItemFaults = ItemFaults(beforeFails: bool, publish: PublishFaults, afterFails: bool)

  datatype Cleanup = Cleanup(attempts: Path -> Attempt, stage: Attempt)

  ghost predicate QuietCleanup(c: Cleanup) {
    AllQuiet(c.attempts) && Quiet(c.stage)
  }

  datatype PublishScript = PublishScript(
    items: nat -> ItemFaults, replayFails: bool, content: Bytes, write: WriteFaults,
    manifest: ItemFaults, staged: Cleanup, completeFails: bool)

  datatype Staging = Staging(name: string, raw: Bytes, checkFails: bool, faults: WriteFaults)

  /**
    All that may go wrong in a run.  The signal policy may fail before or after it is entered;
    the three control files may not be created; issues may come up before and after each of
    these, while processes are released, before publication and at the end.
  */
  datatype Script = Script(
    configFails: bool, expected: seq<string>, matrix: bool, entered: bool, enterFails: bool,
    logFails: bool, launchFails: bool, goFails: bool, readyFails: bool,
    stage: StageFaults, stagings: seq<Staging>, acquireFails: bool,
    releaseFails: bool, finishFileFails: bool, settleFails: bool, publish: PublishScript, rollback: Cleanup,
    finishFails: bool, finish: Cleanup, unmaskFails: bool, last: Cleanup)

  // The names a run of a lane gives to files other than its surfaces.

  function ManifestName(lane: string): string { "mapdump_manifest_" + lane + ".json" }
  function LogName(lane: string): string { lane + ".observer.log" }
  function GoName(lane: string): string { lane + ".go" }
  function FinishName(lane: string): string { lane + ".finish" }

  function ControlNames(lane: string): set<string> {
    {LogName(lane), GoName(lane), FinishName(lane)}
  }

  lemma NamesDiffer(lane: string)
    ensures |ControlNames(lane)| == 3 && ManifestName(lane) !in ControlNames(lane)
    ensures LogName(lane) != GoName(lane) && LogName(lane) != FinishName(lane) && GoName(lane) != FinishName(lane)
  {
    assert |LogName(lane)| == |lane| + 13 && |GoName(lane)| == |lane| + 3;
    assert |FinishName(lane)| == |lane| + 7 && |ManifestName(lane)| == |lane| + 22;
  }

  /** A name the configuration demands to be free. */
  predicate Occupied(f: Script, w: World, out: Dir, lane: string) {
    || Path(out, ManifestName(lane)) in w.entries
    || (exists name | name in ControlNames(lane) :: Path(out, name) in w.entries)
    || exists i | 0 <= i < |f.expected| :: Path(out, f.expected[i]) in w.entries
  }

  ghost function ControlPaths(out: Dir, names: set<string>): set<Path> {
    set name | name in names :: Path(out, name)
  }

  /** The control files a run creates, in whatever way it ends. */
  ghost function Controls(f: Script, w: World, out: Dir, lane: string): set<string> {
    var log := !f.configFails && !Occupied(f, w, out, lane) && f.entered && !f.enterFails && !f.logFails && out in w.dirs;
    var go := log && !f.launchFails && !f.goFails;
    (if log then {LogName(lane)} else {}) + (if go then {GoName(lane)} else {})
    + (if go && f.matrix && !f.finishFileFails then {FinishName(lane)} else {})
  }

  /** No file is created that neither look-up can identify. */
  ghost predicate NoneSlips(f: Script) {
    && (forall i :: 0 <= i < |f.stagings| ==> !(f.stagings[i].faults.fstatFails && f.stagings[i].faults.lstatFails))
    && !(f.publish.write.fstatFails && f.publish.write.lstatFails)
  }

  ghost predicate QuietScript(f: Script) {
    QuietCleanup(f.publish.staged) && QuietCleanup(f.rollback) && QuietCleanup(f.finish) && QuietCleanup(f.last)
  }

  ghost function SurfacePaths(surfaces: seq<Surface>): set<Path> {
    set s | s in surfaces :: s.path
  }

  const STAGED_MANIFEST := ".final-manifest.json"

  /** The public files these stagings become. */
  ghost function Public(stagings: seq<Staging>, out: Dir): seq<Surface> {
    if stagings == [] then []
    else
      var last := stagings[|stagings| - 1];
      Public(stagings[..|stagings| - 1], out) + [Surface(Path(out, last.name), last.raw)]
  }

  lemma {:induction false} PublicAt(stagings: seq<Staging>, out: Dir)
    ensures |Public(stagings, out)| == |stagings|
    ensures forall i :: 0 <= i < |stagings| ==>
              Public(stagings, out)[i] == Surface(Path(out, stagings[i].name), stagings[i].raw)
  {
    if stagings != [] {
      PublicAt(stagings[..|stagings| - 1], out);
    }
  }

  /** The ledger holds these staged files, complete, and nothing else. */
  ghost predicate Staged(w: World, owned: seq<Entry>, dir: Dir, stagings: seq<Staging>) {
    && |owned| == |stagings|
    && forall i :: 0 <= i < |owned| ==>
         && owned[i].path == Path(dir, stagings[i].name)
         && Holds(w, Surface(owned[i].path, stagings[i].raw))
  }

  // ---------------------------------------------------------------- what a run needs to succeed

  predicate CleanWrite(f: WriteFaults) {
    !f.openFails && !f.fstatFails && f.cut.None?
  }

  predicate CleanItem(f: ItemFaults) {
    !f.beforeFails && !f.publish.statFails && !f.publish.linkFails && !f.afterFails
  }

  ghost predicate CleanCleanup(c: Cleanup) {
    !Fails(c.stage) && NoneFails(c.attempts)
  }

  ghost predicate NoneFails(attempts: Path -> Attempt) {
    forall p: Path :: !Fails(attempts(p))
  }

  /** Every file can be staged, and no two have one name. */
  ghost predicate CleanStagings(stagings: seq<Staging>) {
    && (forall i :: 0 <= i < |stagings| ==> !stagings[i].checkFails && CleanWrite(stagings[i].faults))
    && (forall i, j :: 0 <= i < j < |stagings| ==> stagings[i].name != stagings[j].name)
  }

  ghost function Weight(stagings: seq<Staging>): nat {
    if stagings == [] then 0 else Weight(stagings[..|stagings| - 1]) + |stagings[|stagings| - 1].raw|
  }

  lemma {:induction false} WeightGrows(stagings: seq<Staging>, k: nat)
    requires k <= |stagings|
    ensures Weight(stagings[..k]) <= Weight(stagings)
    ensures k < |stagings| ==> Weight(stagings[..k + 1]) == Weight(stagings[..k]) + |stagings[k].raw|
    decreases |stagings|
  {
    if k < |stagings| {
      var rest := stagings[..|stagings| - 1];
      WeightGrows(rest, k);
      assert rest[..k] == stagings[..k] && stagings[..k + 1][..k] == stagings[..k];
    } else {
      assert stagings[..k] == stagings;
    }
  }

  /** No public name is taken. */
  ghost predicate Free(w: World, out: Dir, stagings: seq<Staging>) {
    forall i :: 0 <= i < |stagings| ==> Path(out, stagings[i].name) !in w.entries
  }

  ghost predicate CleanPublish(f: PublishScript, stagings: seq<Staging>, w: World, out: Dir, total: nat) {
    && (forall i: nat :: i < |stagings| ==> CleanItem(f.items(i))) && Free(w, out, stagings) && !f.replayFails
    && (forall i :: 0 <= i < |stagings| ==> stagings[i].name != STAGED_MANIFEST)
    && CleanWrite(f.write) && |f.content| <= MAX_BYTES - total && CleanItem(f.manifest) && !f.completeFails
  }

  /** The removal passes of a run: after an issue, when the signal policy is left, and after that. */
  ghost function Passes(f: Script, entered: bool, went: bool): (sweeps: seq<Path -> Attempt>)
    ensures |sweeps| <= 3
  {
    (if went then [] else [f.rollback.attempts])
    + (if entered && (!went || f.finishFails) then [f.finish.attempts] else [])
    + (if entered && f.unmaskFails then [f.last.attempts] else [])
  }

  /** Nothing in this script fails, and the disk and the bound have room for it. */
  ghost predicate Untroubled(f: Script, w: World, out: Dir, lane: string, total: nat) {
    && !f.configFails && !Occupied(f, w, out, lane) && f.entered && Goes(f, w, out, total)
    && !f.finishFails && !f.unmaskFails
  }

  ghost predicate Goes(f: Script, w: World, out: Dir, total: nat) {
    && !f.enterFails && !f.logFails && !f.launchFails && !f.goFails && !f.readyFails
    && Acquirable(f.stage, f.stagings, f.acquireFails, w, out, total)
    && !f.releaseFails && (f.matrix ==> !f.finishFileFails) && !f.settleFails
    && CleanPublish(f.publish, f.stagings, w, out, total + Weight(f.stagings))
  }

  ghost predicate Acquirable(stage: StageFaults, stagings: seq<Staging>, lateFails: bool, w: World, out: Dir, total: nat) {
    && !stage.makeFails && !stage.lstatFails && out in w.dirs
    && CleanStagings(stagings) && Weight(stagings) <= MAX_BYTES - total && !lateFails
  }

  /** A directory holds the same names in both worlds. */
  ghost predicate SameIn(dir: Dir, v: World, w: World) {
    forall p: Path :: p.parent == dir ==> (p in v.entries <==> p in w.entries)
  }

  /** A directory holds no names but these. */
  ghost predicate OnlyStaged(w: World, dir: Dir, stagings: seq<Staging>) {
    forall p :: p in w.entries && p.parent == dir ==> exists i :: 0 <= i < |stagings| && p.name == stagings[i].name
  }

  /** A change in another directory changes nothing here. */
  lemma OnlyAtSame(path: Path, u: World, v: World, w: World, dir: Dir)
    requires SameIn(dir, u, v) && OnlyAt(path, v, w) && path.parent != dir
    ensures SameIn(dir, u, w)
  {
    forall p: Path | p.parent == dir ensures p in v.entries <==> p in w.entries {
      assert p in v.entries - {path} <==> p in w.entries - {path};
    }
  }

  /** One more name in the staging directory. */
  lemma OnlyStagedMore(v: World, w: World, dir: Dir, stagings: seq<Staging>, k: nat)
    requires k < |stagings| && OnlyStaged(v, dir, stagings[..k]) && OnlyAt(Path(dir, stagings[k].name), v, w)
    ensures OnlyStaged(w, dir, stagings[..k + 1])
  {
    var path, more := Path(dir, stagings[k].name), stagings[..k + 1];
    forall p | p in w.entries && p.parent == dir ensures exists i :: 0 <= i < |more| && p.name == more[i].name {
      if p == path {
        assert p.name == more[k].name;
      } else {
        assert p in w.entries - {path};
        var i :| 0 <= i < k && p.name == stagings[..k][i].name;
        assert p.name == more[i].name;
      }
    }
  }

  /** The first files are staged, in order, with nothing else beside them. */
  ghost predicate Progress(w: World, owned: seq<Entry>, dir: Dir, stagings: seq<Staging>, k: nat) {
    k <= |stagings| && Staged(w, owned, dir, stagings[..k]) && OnlyStaged(w, dir, stagings[..k]) && CleanStagings(stagings[..k])
  }

  lemma NothingStaged(v: World, owned: seq<Entry>, stage: Option<Dir>, books: Books, w: World, dir: Dir, stagings: seq<Staging>, out: Dir)
    requires InOrder(v, owned, stage, books) && w.entries == v.entries && dir !in v.dirs
    ensures Progress(w, [], dir, stagings, 0) && Weight(stagings[..0]) == 0 && SameIn(out, v, w)
  {}

  /** The next file can be staged exactly if all files up to it are clean. */
  lemma NextIff(w: World, owned: seq<Entry>, dir: Dir, stagings: seq<Staging>, k: nat)
    requires k < |stagings| && Progress(w, owned, dir, stagings, k)
    ensures CleanStagings(stagings[..k + 1])
       <==> !stagings[k].checkFails && CleanWrite(stagings[k].faults) && Path(dir, stagings[k].name) !in w.entries
    ensures CleanStagings(stagings) ==> CleanStagings(stagings[..k + 1])
  {
    var less, more := stagings[..k], stagings[..k + 1];
    assert more == less + [stagings[k]];
    if i :| 0 <= i < k && stagings[i].name == stagings[k].name {
      assert owned[i].path == Path(dir, less[i].name) && more[i].name == more[k].name;
    }
  }

  /** The first surfaces were free and are there; otherwise nothing is new in the public directory. */
  ghost predicate Outward(v: World, w: World, out: Dir, stagings: seq<Staging>, k: nat) {
    && k <= |stagings|
    && (forall i :: 0 <= i < k ==> Path(out, stagings[i].name) !in v.entries)
    && (forall p :: p in v.entries && p.parent == out ==> p in w.entries)
    && forall p :: p in w.entries && p.parent == out ==>
         p in v.entries || exists i :: 0 <= i < k && p.name == stagings[i].name
  }

  lemma NothingLinked(w: World, owned: seq<Entry>, out: Dir, dir: Dir, stagings: seq<Staging>)
    ensures Outward(w, w, out, stagings, 0) && SameIn(dir, w, w)
    ensures Linked(w, owned, [])
  {}

  lemma OutwardIff(v: World, w: World, out: Dir, stagings: seq<Staging>, k: nat)
    requires k < |stagings| && Outward(v, w, out, stagings, k) && CleanStagings(stagings)
    ensures Path(out, stagings[k].name) in w.entries ==> !Free(v, out, stagings)
    ensures Path(out, stagings[k].name) in w.entries <==> Path(out, stagings[k].name) in v.entries
  {}

  lemma OutwardMore(v: World, w: World, staged: Path, out: Dir, stagings: seq<Staging>, k: nat)
    requires k < |stagings| && Outward(v, w, out, stagings, k) && staged in w.entries
    requires Path(out, stagings[k].name) !in v.entries
    ensures Outward(v, LinkTo(w, staged, Path(out, stagings[k].name)), out, stagings, k + 1)
  {}

  lemma OutwardAll(v: World, w: World, out: Dir, stagings: seq<Staging>)
    requires Outward(v, w, out, stagings, |stagings|)
    ensures Free(v, out, stagings)
  {}

  lemma FreeSame(v: World, w: World, out: Dir, stagings: seq<Staging>)
    ensures SameIn(out, v, w) ==> (Free(v, out, stagings) <==> Free(w, out, stagings))
  {}

  lemma SameEntries(v: World, w: World, out: Dir)
    requires w.entries == v.entries
    ensures SameIn(out, v, w)
  {}

  lemma CleanSame(f: PublishScript, stagings: seq<Staging>, v: World, w: World, out: Dir, total: nat)
    requires Free(v, out, stagings) <==> Free(w, out, stagings)
    ensures CleanPublish(f, stagings, v, out, total) <==> CleanPublish(f, stagings, w, out, total)
  {}

  lemma SameName(v: World, w: World, out: Dir, name: string)
    requires SameIn(out, v, w)
    ensures Path(out, name) in v.entries <==> Path(out, name) in w.entries
  {}

  lemma OtherName(v: World, w: World, out: Dir, name: string, other: string)
    requires OnlyAt(Path(out, name), v, w) && name != other
    ensures Path(out, other) in v.entries <==> Path(out, other) in w.entries
  {
    var p := Path(out, other);
    assert p in v.entries - {Path(out, name)} <==> p in w.entries - {Path(out, name)};
  }

  /** A control file takes no public name. */
  lemma FreeOther(v: World, w: World, out: Dir, control: string, stagings: seq<Staging>, lane: string)
    requires OnlyAt(Path(out, control), v, w) && control in ControlNames(lane) && Distinct(stagings, lane)
    ensures Free(v, out, stagings) <==> Free(w, out, stagings)
  {
    forall i | 0 <= i < |stagings| ensures Path(out, stagings[i].name) in v.entries <==> Path(out, stagings[i].name) in w.entries {
      var p := Path(out, stagings[i].name);
      assert p in v.entries - {Path(out, control)} <==> p in w.entries - {Path(out, control)};
    }
  }

  lemma ControlPathsMore(out: Dir, names: set<string>, name: string)
    ensures ControlPaths(out, names + {name}) == ControlPaths(out, names) + {Path(out, name)} && ControlPaths(out, {}) == {}
  {
    var more := ControlPaths(out, names + {name});
    assert name in names + {name} && Path(out, name) in more;
    forall p | p in ControlPaths(out, names) ensures p in more {
      assert p.name in names + {name} && p == Path(out, p.name);
    }
  }

  lemma NoControls(f: Script, w: World, out: Dir, lane: string)
    ensures f.configFails || Occupied(f, w, out, lane) ==> Controls(f, w, out, lane) == {}
    ensures ControlPaths(out, {}) == {}
  {}

  lemma FreeNames(f: Script, w: World, out: Dir, lane: string)
    requires !Occupied(f, w, out, lane)
    ensures Path(out, ManifestName(lane)) !in w.entries
    ensures forall name :: name in ControlNames(lane) ==> Path(out, name) !in w.entries
  {}

  /** What is staged stays so when a file appears elsewhere. */
  lemma ProgressStays(v: World, w: World, path: Path, owned: seq<Entry>, dir: Dir, stagings: seq<Staging>, k: nat)
    requires Progress(v, owned, dir, stagings, k) && OnlyAt(path, v, w) && path.parent != dir
    ensures Progress(w, owned, dir, stagings, k)
  {
    forall i | 0 <= i < |owned| ensures Holds(w, Surface(owned[i].path, stagings[..k][i].raw)) {
      OnlyAtHolds(path, v, w, Surface(owned[i].path, stagings[..k][i].raw));
    }
    forall p | p in w.entries && p.parent == dir ensures p in v.entries {
      assert p in w.entries - {path};
    }
  }

  /** The name the manifest is staged under is free unless a staged file has it. */
  lemma NameFree(v: World, owned: seq<Entry>, w: World, dir: Dir, stagings: seq<Staging>)
    requires Progress(v, owned, dir, stagings, |stagings|) && SameIn(dir, v, w)
    ensures Path(dir, STAGED_MANIFEST) !in w.entries <==> forall i :: 0 <= i < |stagings| ==> stagings[i].name != STAGED_MANIFEST
  {
    assert stagings[..|stagings|] == stagings;
    if i :| 0 <= i < |stagings| && stagings[i].name == STAGED_MANIFEST {
      assert owned[i].path == Path(dir, STAGED_MANIFEST);
    }
  }

  ghost predicate Never(trace: seq<World>, path: Path) {
    forall i :: 0 <= i < |trace| ==> path !in trace[i].entries
  }

  class Coordinator {
    const files: AcquisitionFiles
    const out: Dir
    const lane: string
    ghost var linked: bool
    ghost var sweeps: seq<Path -> Attempt>
    ghost var surfaces: seq<Surface>
    ghost var controls: set<string>

    constructor (files: AcquisitionFiles, out: Dir, lane: string)
      ensures this.files == files && this.out == out && this.lane == lane
      ensures !linked && sweeps == [] && surfaces == [] && controls == {}
    {
      this.files, this.out, this.lane := files, out, lane;
      linked, sweeps, surfaces, controls := false, [], [], {};
    }

    function Manifest(): Path {
      Path(out, ManifestName(lane))
    }

    ghost predicate Knows()
      reads this, files, files.disk
    {
      && files.Valid()
      && Told(files.disk.world, files.disk.trace, files.owned, linked, sweeps, Manifest(), surfaces)
    }

    /** One full removal after an issue. */
    method Rollback(c: Cleanup)
      requires files.Valid() && QuietCleanup(c)
      modifies this`sweeps, files, files.disk
      ensures files.Valid() && (old(Knows()) ==> Knows()) && sweeps == old(sweeps) + [c.attempts]
      ensures old(files.owned) == [] && old(files.stage) == None ==> files.disk.world == old(files.disk.world)
      ensures files.base == old(files.base) && files.adopted == old(files.adopted) && files.leaked == old(files.leaked)
      ensures NoneFails(c.attempts) ==> files.owned == []
    {
      assert files.owned == [] ==> Sweep(files.disk.world, files.owned, Everything, c.attempts).world == files.disk.world;
      hide Told, Sweep, AllQuiet, Quiet, RemoveStage, InOrder;
      if Knows() {
        RemovalTold(files.disk.world, files.disk.trace, files.owned, linked, sweeps, Manifest(), surfaces,
                    files.stage, Books(files.base, files.adopted, files.leaked, files.lost), files.stageIdentity,
                    c.attempts, c.stage);
      }
      var issues := files.Remove(false, c.attempts, c.stage);
      sweeps := sweeps + [c.attempts];
    }

    /** The history so far is complete and has not seen the manifest. */
    ghost predicate Fresh()
      reads files, files.disk
    {
      && files.Valid()
      && Never(files.disk.trace, Manifest())
    }

    lemma FreshKnows()
      requires Fresh() && !linked
      ensures Knows()
    {
      assert SafeAlong(files.disk.trace, Manifest(), surfaces);
    }

    /** A change at another path does not bring the manifest. */
    twostate lemma StillFresh(path: Path)
      requires old(Fresh()) && files.Valid() && path != Manifest()
      requires old(files.disk.trace) <= files.disk.trace
      requires forall i :: |old(files.disk.trace)| <= i < |files.disk.trace| ==>
                 OnlyAt(path, old(files.disk.world), files.disk.trace[i])
      ensures Fresh()
    {
      var m, trace := Manifest(), files.disk.trace;
      forall i | 0 <= i < |trace| ensures m !in trace[i].entries {
        if i < |old(files.disk.trace)| {
        } else {
          assert OnlyAt(path, old(files.disk.world), trace[i]);
          assert m !in old(files.disk.world).entries - {path};
        }
      }
    }

    /** Creates a control file, never replacing one, and leaves it out of the ledger. */
    method CreateControl(control: string, fails: bool) returns (ok: bool)
      requires Fresh() && control in ControlNames(lane)
      modifies this`controls, files`leaked, files.disk
      ensures Fresh() && files.disk.world.dirs == old(files.disk.world.dirs)
      ensures var path := Path(out, control);
              && (ok <==> !fails && path !in old(files.disk.world.entries) && out in files.disk.world.dirs)
              && OnlyAt(path, old(files.disk.world), files.disk.world)
              && (ok ==> path in files.disk.world.entries && files.leaked == old(files.leaked) + {path}
                         && controls == old(controls) + {control})
              && (!ok ==> files.disk.world == old(files.disk.world) && files.leaked == old(files.leaked)
                          && controls == old(controls))
    {
      hide ManifestName, LogName, GoName, FinishName, InOrder, OnlyAt;
      var path := Path(out, control);
      OnlyAtSelf(path, files.disk.world);
      if fails || path in files.disk.world.entries || out !in files.disk.world.dirs {
        return false;
      }
      ghost var unused := Unused(files.disk.world.entries.Values);
      assert unused !in files.disk.world.entries.Values;
      var identity: Identity :| identity !in files.disk.world.entries.Values;
      CreatedInOrder(files.disk.world, files.owned, files.stage,
                     Books(files.base, files.adopted, files.leaked, files.lost), path, identity);
      OnlyAtCreated(files.disk.world, path, identity);
      NamesDiffer(lane);
      files.disk.Become(Created(files.disk.world, path, identity));
      files.leaked, controls := files.leaked + {path}, controls + {control};
      StillFresh(path);
      return true;
    }

    /** Stages every file of the acquisition; the first failure ends it. */
    method Acquire(stage: StageFaults, stagings: seq<Staging>, lateFails: bool) returns (ok: bool)
      requires Fresh() && files.owned == [] && Distinct(stagings, lane)
      modifies files, files.disk
      ensures Fresh() && files.base == old(files.base) && files.adopted == old(files.adopted)
      ensures ok <==> Acquirable(stage, stagings, lateFails, old(files.disk.world), out, old(files.total))
      ensures old(files.leaked) <= files.leaked
      ensures (forall i :: 0 <= i < |stagings| ==> !(stagings[i].faults.fstatFails && stagings[i].faults.lstatFails)) ==>
                files.leaked == old(files.leaked)
      ensures ok ==> ReadyToPublish(stagings) && files.leaked == old(files.leaked)
      ensures ok ==> files.total == old(files.total) + Weight(stagings)
      ensures SameIn(out, old(files.disk.world), files.disk.world)
      ensures out in old(files.disk.world.dirs) ==> out in files.disk.world.dirs
    {
      hide ManifestName, LogName, GoName, FinishName, InOrder, OnlyAt, Staged, OnlyStaged, SameIn, CleanStagings, Weight;
      ghost var w0, was, books := files.disk.world, files.stage, Books(files.base, files.adopted, files.leaked, files.lost);
      ok := files.CreateStage(out, stage);
      SameEntries(w0, files.disk.world, out);
      if !ok {
        return false;
      }
      var dir, k := files.stage.value, 0;
      NothingStaged(w0, [], was, books, files.disk.world, dir, stagings, out);
      while k < |stagings|
        invariant 0 <= k <= |stagings| && Fresh()
        invariant files.stage == Some(dir) && dir != out && out in files.disk.world.dirs && files.StageKnown()
        invariant Progress(files.disk.world, files.owned, dir, stagings, k)
        invariant files.total == old(files.total) + Weight(stagings[..k]) && SameIn(out, old(files.disk.world), files.disk.world)
        invariant files.base == old(files.base) && files.adopted == old(files.adopted) && files.leaked == old(files.leaked)
      {
        ghost var w, owned := files.disk.world, files.owned;
        NextIff(w, owned, dir, stagings, k);
        WeightGrows(stagings, k);
        WeightGrows(stagings, k + 1);
        if stagings[k].checkFails {
          return false;
        }
        label before:
        ok := files.Write(Path(dir, stagings[k].name), stagings[k].raw, stagings[k].faults);
        StillFresh@before(Path(dir, stagings[k].name));
        OnlyAtSame(Path(dir, stagings[k].name), w0, w, files.disk.world, out);
        if !ok {
          return false;
        }
        StagedMore(w, owned, files.disk.world, files.owned, dir, stagings, k);
        OnlyStagedMore(w, files.disk.world, dir, stagings, k);
        k := k + 1;
      }
      assert stagings[..k] == stagings;
      return !lateFails;
    }

    /** Opens the log and lets the processes go. */
    method Signal(f: Script) returns (go: bool)
      requires Fresh() && files.leaked == {} && controls == {} && Distinct(f.stagings, lane)
      requires forall name :: name in ControlNames(lane) ==> Path(out, name) !in files.disk.world.entries
      modifies this`controls, files`leaked, files.disk
      ensures Fresh() && files.disk.world.dirs == old(files.disk.world.dirs)
      ensures var log := !f.logFails && out in files.disk.world.dirs;
              && (go <==> log && !f.launchFails && !f.goFails)
              && controls == (if log then {LogName(lane)} else {}) + (if go then {GoName(lane)} else {})
      ensures files.leaked == ControlPaths(out, controls) && Path(out, FinishName(lane)) !in files.disk.world.entries
      ensures Free(old(files.disk.world), out, f.stagings) <==> Free(files.disk.world, out, f.stagings)
    {
      hide ManifestName, LogName, GoName, FinishName, InOrder, OnlyAt, Free, Never, ControlPaths, Distinct;
      NamesDiffer(lane);
      ControlPathsMore(out, {}, LogName(lane));
      ControlPathsMore(out, {LogName(lane)}, GoName(lane));
      ghost var w := files.disk.world;
      var log := CreateControl(LogName(lane), f.logFails);
      OtherName(w, files.disk.world, out, LogName(lane), GoName(lane));
      OtherName(w, files.disk.world, out, LogName(lane), FinishName(lane));
      FreeOther(w, files.disk.world, out, LogName(lane), f.stagings, lane);
      if !log || f.launchFails {
        return false;
      }
      ghost var v := files.disk.world;
      go := CreateControl(GoName(lane), f.goFails);
      OtherName(v, files.disk.world, out, GoName(lane), FinishName(lane));
      FreeOther(v, files.disk.world, out, GoName(lane), f.stagings, lane);
    }

    /** Opens the log, lets the processes go, and acquires. */
    method Start(f: Script) returns (ok: bool, go: bool)
      requires Fresh() && files.owned == [] && files.leaked == {} && controls == {} && Distinct(f.stagings, lane)
      requires forall name :: name in ControlNames(lane) ==> Path(out, name) !in files.disk.world.entries
      modifies this`controls, files, files.disk
      ensures Fresh() && files.base == old(files.base) && files.adopted == old(files.adopted)
      ensures var log := !f.logFails && out in old(files.disk.world.dirs);
              && (go <==> log && !f.launchFails && !f.goFails)
              && controls == (if log then {LogName(lane)} else {}) + (if go then {GoName(lane)} else {})
      ensures Path(out, FinishName(lane)) !in files.disk.world.entries && (go ==> out in files.disk.world.dirs)
      ensures ControlPaths(out, controls) <= files.leaked && (NoneSlips(f) ==> files.leaked == ControlPaths(out, controls))
      ensures ok <==> go && !f.readyFails
                      && Acquirable(f.stage, f.stagings, f.acquireFails, old(files.disk.world), out, old(files.total))
      ensures ok ==> ReadyToPublish(f.stagings) && files.total == old(files.total) + Weight(f.stagings)
                     && files.leaked == ControlPaths(out, controls)
                     && (Free(old(files.disk.world), out, f.stagings) <==> Free(files.disk.world, out, f.stagings))
    {
      hide ManifestName, LogName, GoName, FinishName, InOrder, SameIn, Progress, CleanStagings, Weight, Free, Never, ControlPaths, Distinct, ControlNames;
      go := Signal(f);
      if !go || f.readyFails {
        return false, go;
      }
      ghost var u := files.disk.world;
      ok := Acquire(f.stage, f.stagings, f.acquireFails);
      FreeSame(u, files.disk.world, out, f.stagings);
      SameName(u, files.disk.world, out, FinishName(lane));
    }

    /** Links one staged file, with a check before and after. */
    method LinkOne(staged: Path, f: ItemFaults, ghost w0: World, ghost all: seq<Entry>, ghost stagings: seq<Staging>, ghost k: nat)
      returns (ok: bool)
      requires Fresh() && files.stage.Some? && out in files.disk.world.dirs && Distinct(stagings, lane)
      requires k < |stagings| == |all| && staged == all[k].path
      requires Linking(w0, files.disk.world, all, files.owned, files.stage.value, out, Manifest(), stagings, k)
      modifies files, files.disk
      ensures Fresh() && files.base == old(files.base) && files.adopted == old(files.adopted) && files.leaked == old(files.leaked)
      ensures files.stage == old(files.stage) && files.stageIdentity == old(files.stageIdentity)
      ensures files.disk.world.dirs == old(files.disk.world.dirs) && files.total == old(files.total)
      ensures SameIn(files.stage.value, w0, files.disk.world)
      ensures ok ==> CleanItem(f)
                     && Linking(w0, files.disk.world, all, files.owned, files.stage.value, out, Manifest(), stagings, k + 1)
      ensures !ok ==> !CleanItem(f) || !Free(w0, out, stagings)
    {
      hide ManifestName, ControlNames, InOrder, OnlyAt, Linking, SameIn, Free, Never;
      LinkingNext(w0, files.disk.world, all, files.owned, files.stage.value, out, Manifest(), stagings, k);
      var destination := Path(out, staged.name);
      if f.beforeFails {
        return false;
      }
      OnlyAtLinked(files.disk.world, staged, destination);
      ok := files.Publish(staged, destination, f.publish);
      if !ok {
        return false;
      }
      StillFresh(destination);
      LinkingMeans(w0, files.disk.world, all, files.owned, files.stage.value, out, Manifest(), stagings, k + 1);
      return !f.afterFails;
    }

    /** Links every staged file, in ledger order, under its public name. */
    method LinkSurfaces(items: nat -> ItemFaults, ghost stagings: seq<Staging>) returns (ok: bool)
      requires Fresh() && ReadyToPublish(stagings) && Distinct(stagings, lane)
      modifies files, files.disk
      ensures Fresh() && files.base == old(files.base) && files.adopted == old(files.adopted) && files.leaked == old(files.leaked)
      ensures files.stage == old(files.stage) && files.stageIdentity == old(files.stageIdentity)
      ensures files.disk.world.dirs == old(files.disk.world.dirs) && files.total == old(files.total)
      ensures SameIn(files.stage.value, old(files.disk.world), files.disk.world)
      ensures ok <==> (forall i: nat :: i < |stagings| ==> CleanItem(items(i))) && Free(old(files.disk.world), out, stagings)
      ensures ok ==> Linked(files.disk.world, files.owned, Public(stagings, out))
      ensures ok ==> Ours(files.owned, files.stage.value, Manifest(), Public(stagings, out))
    {
      hide ManifestName, ControlNames, InOrder, OnlyAt, Progress, Linking, SameIn, Free, Ours, Linked, Claims, Never;
      var all, dir, k := files.owned, files.stage.value, 0;
      ghost var w0 := files.disk.world;
      StartLinking(w0, all, dir, out, Manifest(), stagings);
      while k < |all|
        invariant 0 <= k <= |all| == |stagings| && Fresh()
        invariant Linking(w0, files.disk.world, all, files.owned, dir, out, Manifest(), stagings, k)
        invariant forall i: nat :: i < k ==> CleanItem(items(i))
        invariant files.base == old(files.base) && files.adopted == old(files.adopted) && files.leaked == old(files.leaked)
        invariant files.stage == old(files.stage) && files.stageIdentity == old(files.stageIdentity)
        invariant files.disk.world.dirs == old(files.disk.world.dirs) && files.total == old(files.total)
      {
        var staged := all[k].path;
        LinkingNext(w0, files.disk.world, all, files.owned, dir, out, Manifest(), stagings, k);
        if files.stage == Some(staged.parent) {
          ok := LinkOne(staged, items(k), w0, all, stagings, k);
          if !ok {
            return false;
          }
        }
        k := k + 1;
      }
      LinkingEnds(w0, files.disk.world, all, files.owned, dir, out, Manifest(), stagings);
      return true;
    }

    /**
      Publication proper: surfaces, then the manifest, then the staged files go.  If it fails
      the run still knows where it stands; if it succeeds, exactly the public files are left.
    */
    method Publish(f: PublishScript, ghost stagings: seq<Staging>) returns (ok: bool)
      requires Fresh() && !linked && sweeps == [] && ReadyToPublish(stagings) && Distinct(stagings, lane)
      requires QuietCleanup(f.staged)
      modifies this`linked, this`surfaces, files, files.disk
      ensures Knows() && files.base == old(files.base) && files.adopted == old(files.adopted)
      ensures linked ==> surfaces == Public(stagings, out) && files.leaked == old(files.leaked)
      ensures old(files.leaked) <= files.leaked
      ensures !(f.write.fstatFails && f.write.lstatFails) ==> files.leaked == old(files.leaked)
      ensures !linked ==> Fresh()
      ensures ok ==> linked && files.stage == None && Claims(files.owned).Keys <= {Manifest()} + SurfacePaths(surfaces)
      ensures ok ==> CleanPublish(f, stagings, old(files.disk.world), out, old(files.total))
      ensures CleanPublish(f, stagings, old(files.disk.world), out, old(files.total))
              ==> CleanCleanup(f.staged) && Apart(old(files.leaked), old(files.stage)) ==> ok
    {
      hide ManifestName, LogName, GoName, FinishName, Told, InOrder, Claims, SafeAlong, Ours, Linked, Withdrawable, SameIn, Staged, OnlyStaged, CleanStagings, Free, CleanCleanup, Never;
      ghost var w := files.disk.world;
      ok := LinkSurfaces(f.items, stagings);
      NameFree(w, old(files.owned), files.disk.world, files.stage.value, stagings);
      if !ok || f.replayFails {
        FreshKnows();
        return false;
      }
      ok := LinkManifest(f, stagings);
      if !ok {
        return false;
      }
      PublicAt(stagings, out);
      ok := RemoveStaged(f.staged);
      ok := ok && !f.completeFails;
    }

    /** Stages the manifest and links it. */
    method LinkManifest(f: PublishScript, ghost stagings: seq<Staging>) returns (ok: bool)
      requires Fresh() && !linked && sweeps == [] && Linked(files.disk.world, files.owned, Public(stagings, out))
      requires files.stage.Some? && files.stage.value != out && Distinct(stagings, lane)
      requires out in files.disk.world.dirs && files.StageKnown()
      requires Ours(files.owned, files.stage.value, Manifest(), Public(stagings, out))
      modifies this`linked, this`surfaces, files, files.disk
      ensures Knows() && files.base == old(files.base) && files.adopted == old(files.adopted)
      ensures files.stage == old(files.stage) && files.StageKnown()
      ensures ok <==> CleanWrite(f.write) && |f.content| <= MAX_BYTES - old(files.total) && CleanItem(f.manifest)
                      && Path(files.stage.value, STAGED_MANIFEST) !in old(files.disk.world.entries)
      ensures linked ==> surfaces == Public(stagings, out) && files.leaked == old(files.leaked)
      ensures old(files.leaked) <= files.leaked
      ensures !(f.write.fstatFails && f.write.lstatFails) ==> files.leaked == old(files.leaked)
      ensures linked ==> Ours(files.owned, files.stage.value, Manifest(), surfaces)
      ensures linked ==> Withdrawable(files.disk.world, files.owned, Manifest(), surfaces)
                         && SafeAlong(files.disk.trace, Manifest(), surfaces)
      ensures !linked ==> Fresh()
      ensures ok ==> linked
    {
      hide ManifestName, LogName, GoName, FinishName, InOrder, OnlyAt, Claims, Ours;
      var staged := Path(files.stage.value, STAGED_MANIFEST);
      ghost var w, owned, public := files.disk.world, files.owned, Public(stagings, out);
      PublicAt(stagings, out);
      label before:
      ok := files.Write(staged, f.content, f.write);
      StillFresh@before(staged);
      if !ok || f.manifest.beforeFails {
        FreshKnows();
        return false;
      }
      LinkedStill(w, owned, files.disk.world, staged, public);
      OursMore(owned, Entry(staged, files.disk.world.entries[staged]), files.stage.value, Manifest(), public);
      ghost var v, trace, all := files.disk.world, files.disk.trace, files.owned;
      ok := files.Publish(staged, Manifest(), f.manifest.publish);
      if !ok {
        FreshKnows();
        return false;
      }
      linked, surfaces := true, public;
      OursMore(all, Entry(Manifest(), v.entries[staged]), files.stage.value, Manifest(), public);
      ManifestLinked(v, all, trace, staged, Manifest(), public);
      return !f.manifest.afterFails;
    }

    /** Removes what is staged; what is public stays. */
    method RemoveStaged(c: Cleanup) returns (ok: bool)
      requires Knows() && linked && sweeps == [] && QuietCleanup(c)
      requires Withdrawable(files.disk.world, files.owned, Manifest(), surfaces)
               && SafeAlong(files.disk.trace, Manifest(), surfaces)
      requires files.stage.Some? && files.stage.value != out && Ours(files.owned, files.stage.value, Manifest(), surfaces)
      requires forall i :: 0 <= i < |surfaces| ==> surfaces[i].path.parent == out
      modifies files, files.disk
      ensures Knows() && files.base == old(files.base) && files.adopted == old(files.adopted) && files.leaked == old(files.leaked)
      ensures ok ==> files.stage == None && Claims(files.owned).Keys <= {Manifest()} + SurfacePaths(surfaces)
      ensures CleanCleanup(c) && old(files.StageKnown()) && Apart(files.leaked, old(files.stage)) ==> ok
    {
      hide ManifestName, LogName, GoName, FinishName, Told, Sweep, AllQuiet, Quiet, RemoveStage, Withdrawable, Claims, Fails;
      ghost var dir := files.stage.value;
      if CleanCleanup(c) && files.StageKnown() && Apart(files.leaked, files.stage) {
        StagedGoes(files.disk.world, files.owned, dir, Books(files.base, files.adopted, files.leaked, files.lost),
                   files.stageIdentity, c.attempts, c.stage);
      }
      StagedRemovalTold(files.disk.world, files.disk.trace, files.owned, Manifest(), surfaces,
                        dir, Books(files.base, files.adopted, files.leaked, files.lost), files.stageIdentity,
                        c.attempts, c.stage);
      var issues := files.Remove(true, c.attempts, c.stage);
      ok := !issues;
    }

    /**
      A whole run.  Readers never see a manifest without its surfaces, at any moment, if and
      only if no pass removes a surface while it failed to remove the manifest; the manifest is
      left behind exactly if it was linked and every pass failed to remove it.  What there is
      in the end: what was there before, unchanged, the control files that were created, and
      what is still in the ledger, which after a normal return is the manifest and its
      surfaces, and after a pass without failures is nothing.
    */
    method Run(f: Script) returns (ok: bool, ghost went: bool)
      requires files.Valid() && files.disk.trace == [files.disk.world] && files.owned == [] && files.stage == None
      requires files.base == files.disk.world && files.adopted == {} && files.leaked == {} && files.lost == {}
      requires !linked && sweeps == [] && controls == {} && Distinct(f.stagings, lane) && QuietScript(f)
      modifies this, files, files.disk
      ensures files.Valid() && (linked ==> surfaces == Public(f.stagings, out))
      ensures sweeps == Passes(f, f.entered && !f.configFails && !Occupied(f, old(files.disk.world), out, lane), went)
      ensures ok <==> went && !f.finishFails && !f.unmaskFails
      ensures f.configFails || Occupied(f, old(files.disk.world), out, lane) ==>
        !ok && !linked && files.disk.world == old(files.disk.world)
      ensures Manifest() !in old(files.disk.world.entries) ==>
        && (SafeAlong(files.disk.trace, Manifest(), surfaces) <==> (linked ==> HarmlessRun(sweeps, Manifest(), surfaces)))
        && (Manifest() in files.disk.world.entries <==> linked && Standing(sweeps, |sweeps|, Manifest()))
      ensures controls == Controls(f, old(files.disk.world), out, lane)
      ensures ControlPaths(out, controls) <= files.leaked && (NoneSlips(f) ==> files.leaked == ControlPaths(out, controls))
      ensures forall p :: p in files.disk.world.entries <==>
                p in old(files.disk.world.entries) || p in files.leaked || p in Claims(files.owned)
      ensures forall p :: p in old(files.disk.world.entries) ==> files.disk.world.entries[p] == old(files.disk.world.entries[p])
      ensures SameBytes(old(files.disk.world.entries), old(files.disk.world), files.disk.world)
      ensures ok ==>
        && linked && sweeps == [] && AllHold(files.disk.world, surfaces) && files.stage == None
        && Claims(files.owned).Keys == {Manifest()} + SurfacePaths(surfaces)
        && files.leaked == ControlPaths(out, controls)
      ensures sweeps != [] && NoneFails(sweeps[|sweeps| - 1]) ==> files.owned == []
      ensures !ok ==> sweeps != []
      ensures ok ==> Untroubled(f, old(files.disk.world), out, lane, old(files.total))
      ensures Untroubled(f, old(files.disk.world), out, lane, old(files.total)) && CleanCleanup(f.publish.staged) ==> ok
    {
      hide ManifestName, LogName, GoName, FinishName, Told, InOrder, Claims, HarmlessRun, Standing, SafeAlong, Ours, Goes, CleanCleanup, Controls, Occupied, NoneSlips;
      var issues, entered := true, false;
      went := false;
      if Manifest() !in files.disk.world.entries {
        FreshKnows();
      }
      NoControls(f, files.disk.world, out, lane);
      if !f.configFails && !Occupied(f, files.disk.world, out, lane) {
        FreeNames(f, files.disk.world, out, lane);
        entered := f.entered;
        ok := Attempted(f);
        issues, went := !ok, ok;
      }
      if issues {
        Rollback(f.rollback);
      }
      if entered {
        issues := issues || f.finishFails;
        if issues {
          Rollback(f.finish);
        }
        if f.unmaskFails {
          issues := true;
          Rollback(f.last);
        }
      }
      ok := !issues;
      WhatIsThere(files.disk.world, files.owned, files.stage, Books(files.base, {}, files.leaked, files.lost));
      if Knows() {
        ToldMeans(files.disk.world, files.disk.trace, files.owned, linked, sweeps, Manifest(), surfaces);
        if ok {
          PublishedExactly(files.disk.world, files.disk.trace, files.owned, Manifest(), surfaces);
        }
      }
    }

    /** The part of a run before any rollback: control files, acquisition, release, publication. */
    method Attempted(f: Script) returns (ok: bool)
      requires Fresh() && files.owned == [] && files.leaked == {} && files.stage == None && files.adopted == {}
      requires !linked && sweeps == [] && controls == {} && Distinct(f.stagings, lane) && QuietScript(f)
      requires !f.configFails && !Occupied(f, files.disk.world, out, lane)
      requires forall name :: name in ControlNames(lane) ==> Path(out, name) !in files.disk.world.entries
      modifies this`linked, this`surfaces, this`controls, files, files.disk
      ensures Knows() && files.base == old(files.base) && files.adopted == old(files.adopted)
      ensures linked ==> surfaces == Public(f.stagings, out)
      ensures controls == Controls(f, old(files.disk.world), out, lane)
      ensures ControlPaths(out, controls) <= files.leaked && (NoneSlips(f) ==> files.leaked == ControlPaths(out, controls))
      ensures ok ==> linked && files.stage == None && files.leaked == ControlPaths(out, controls)
                     && Claims(files.owned).Keys <= {Manifest()} + SurfacePaths(surfaces)
      ensures ok ==> f.entered && Goes(f, old(files.disk.world), out, old(files.total))
      ensures f.entered && Goes(f, old(files.disk.world), out, old(files.total)) && CleanCleanup(f.publish.staged) ==> ok
    {
      hide ManifestName, LogName, GoName, FinishName, Told, InOrder, Claims, SafeAlong, Ours, Progress, CleanStagings, CleanCleanup, Never, CleanPublish, Free, Occupied;
      if !f.entered || f.enterFails {
        FreshKnows();
        return false;
      }
      ghost var w := files.disk.world;
      var go;
      ok, go := Start(f);
      ControlPathsMore(out, controls, FinishName(lane));
      if go && f.matrix {
        ok := Finish(f, ok);
      }
      if !ok || f.releaseFails || f.settleFails {
        FreshKnows();
        return false;
      }
      CleanSame(f.publish, f.stagings, w, files.disk.world, out, files.total);
      ok := Publish(f.publish, f.stagings);
    }

    /** Lets the workload end; what is staged stays. */
    method Finish(f: Script, ready: bool) returns (ok: bool)
      requires Fresh() && Path(out, FinishName(lane)) !in files.disk.world.entries && out in files.disk.world.dirs
      requires ready ==> ReadyToPublish(f.stagings)
      requires Distinct(f.stagings, lane)
      modifies this`controls, files`leaked, files.disk
      ensures Fresh() && (ok <==> ready && !f.finishFileFails)
      ensures controls == old(controls) + if f.finishFileFails then {} else {FinishName(lane)}
      ensures files.leaked == old(files.leaked) + if f.finishFileFails then {} else {Path(out, FinishName(lane))}
      ensures ready ==> ReadyToPublish(f.stagings)
      ensures Free(old(files.disk.world), out, f.stagings) <==> Free(files.disk.world, out, f.stagings)
    {
      hide ManifestName, LogName, GoName, FinishName, InOrder, OnlyAt, Progress, Free, Never;
      ghost var w := files.disk.world;
      var done := CreateControl(FinishName(lane), f.finishFileFails);
      FreeOther(w, files.disk.world, out, FinishName(lane), f.stagings, lane);
      if ready {
        ProgressStays(w, files.disk.world, Path(out, FinishName(lane)), files.owned, files.stage.value, f.stagings, |f.stagings|);
      }
      ok := ready && done;
    }

    ghost predicate ReadyToPublish(stagings: seq<Staging>)
      reads files, files.disk
    {
      && files.stage.Some? && files.stage.value != out && out in files.disk.world.dirs && files.StageKnown()
      && Progress(files.disk.world, files.owned, files.stage.value, stagings, |stagings|)
    }
  }

  /** The ledger names only staged files, these public ones, and perhaps the manifest. */
  ghost predicate Ours(owned: seq<Entry>, dir: Dir, manifest: Path, public: seq<Surface>) {
    forall p :: p in Claims(owned) ==> p.parent == dir || p == manifest || p in SurfacePaths(public)
  }

  lemma OursMore(owned: seq<Entry>, e: Entry, dir: Dir, manifest: Path, public: seq<Surface>)
    requires Ours(owned, dir, manifest, public)
    requires e.path.parent == dir || e.path == manifest || e.path in SurfacePaths(public)
    ensures Ours(owned + [e], dir, manifest, public)
  {
    ClaimsAdd(owned, e);
    hide Claims;
  }

  lemma StagedOurs(w: World, owned: seq<Entry>, dir: Dir, stagings: seq<Staging>, manifest: Path, public: seq<Surface>)
    requires Staged(w, owned, dir, stagings)
    ensures Ours(owned, dir, manifest, public)
  {
    ClaimsPaths(owned);
    hide Claims;
  }

  /** No surface has the name of the manifest or of a control file. */
  ghost predicate Distinct(stagings: seq<Staging>, lane: string) {
    forall i :: 0 <= i < |stagings| ==> stagings[i].name != ManifestName(lane) && stagings[i].name !in ControlNames(lane)
  }

  /** These files are there, complete, and in the ledger. */
  ghost predicate Linked(w: World, owned: seq<Entry>, public: seq<Surface>) {
    AllHold(w, public) && forall i :: 0 <= i < |public| ==> public[i].path in Claims(owned)
  }

  /** The first staged files are linked, and nothing else is new in either directory. */
  ghost predicate Linking(w0: World, w: World, all: seq<Entry>, owned: seq<Entry>, dir: Dir, out: Dir, manifest: Path,
                          stagings: seq<Staging>, k: nat) {
    var public := Public(stagings, out);
    && k <= |stagings| == |public| && dir != out && CleanStagings(stagings)
    && Staged(w, all, dir, stagings) && SameIn(dir, w0, w)
    && Linked(w, owned, public[..k]) && Ours(owned, dir, manifest, public) && Outward(w0, w, out, stagings, k)
  }

  lemma StartLinking(w: World, owned: seq<Entry>, dir: Dir, out: Dir, manifest: Path, stagings: seq<Staging>)
    requires Progress(w, owned, dir, stagings, |stagings|) && dir != out
    ensures Linking(w, w, owned, owned, dir, out, manifest, stagings, 0) && |owned| == |stagings|
    ensures SameIn(dir, w, w)
  {
    assert stagings[..|stagings|] == stagings;
    PublicAt(stagings, out);
    NothingLinked(w, owned, out, dir, stagings);
    StagedOurs(w, owned, dir, stagings, manifest, Public(stagings, out));
    hide Outward, SameIn, CleanStagings, Ours, Public, Claims;
    assert Public(stagings, out)[..0] == [];
  }

  /** The next link can be made exactly if its name was free at the start. */
  lemma LinkingNext(w0: World, w: World, all: seq<Entry>, owned: seq<Entry>, dir: Dir, out: Dir, manifest: Path,
                    stagings: seq<Staging>, k: nat)
    requires Linking(w0, w, all, owned, dir, out, manifest, stagings, k) && k < |stagings|
    ensures SameIn(dir, w0, w) && |all| == |stagings| && all[k].path == Path(dir, stagings[k].name) && all[k].path in w.entries
    ensures var destination := Path(out, stagings[k].name);
            && (destination in w.entries ==> !Free(w0, out, stagings))
            && (destination !in w.entries ==>
                  Linking(w0, LinkTo(w, all[k].path, destination), all, owned + [Entry(destination, w.entries[all[k].path])],
                          dir, out, manifest, stagings, k + 1))
  {
    var staged, destination, public := all[k].path, Path(out, stagings[k].name), Public(stagings, out);
    PublicAt(stagings, out);
    OutwardIff(w0, w, out, stagings, k);
    if destination !in w.entries {
      var next := LinkTo(w, staged, destination);
      OutwardMore(w0, w, staged, out, stagings, k);
      OnlyAtLinked(w, staged, destination);
      OnlyAtSame(destination, w0, w, next, dir);
      hide Outward, SameIn, CleanStagings, Ours, Public, OnlyAt, Claims;
      OursMore(owned, Entry(destination, w.entries[staged]), dir, manifest, public) by {
        assert public[k] in public;
      }
      StagedStill(w, next, destination, all, dir, stagings);
      LinkedMore(w, owned, staged, destination, public, k);
    }
  }

  lemma LinkingMeans(w0: World, w: World, all: seq<Entry>, owned: seq<Entry>, dir: Dir, out: Dir, manifest: Path,
                     stagings: seq<Staging>, k: nat)
    requires Linking(w0, w, all, owned, dir, out, manifest, stagings, k)
    ensures SameIn(dir, w0, w)
  {}

  lemma {:induction false} LinkingEnds(w0: World, w: World, all: seq<Entry>, owned: seq<Entry>, dir: Dir, out: Dir, manifest: Path,
                    stagings: seq<Staging>)
    requires Linking(w0, w, all, owned, dir, out, manifest, stagings, |stagings|)
    ensures SameIn(dir, w0, w) && Free(w0, out, stagings)
    ensures Linked(w, owned, Public(stagings, out)) && Ours(owned, dir, manifest, Public(stagings, out))
  {
    assert Public(stagings, out)[..|stagings|] == Public(stagings, out);
    OutwardAll(w0, w, out, stagings);
    hide Outward, SameIn, CleanStagings, Ours, Public, Claims, Linked, Free;
  }

  /** One more link to a staged file. */
  function LinkTo(w: World, staged: Path, destination: Path): World
    requires staged in w.entries
  {
    w.(entries := w.entries[destination := w.entries[staged]])
  }

  lemma OnlyAtLinked(w: World, staged: Path, destination: Path)
    requires staged in w.entries
    ensures OnlyAt(destination, w, LinkTo(w, staged, destination))
  {}

  lemma LinkedMore(w: World, owned: seq<Entry>, staged: Path, destination: Path, public: seq<Surface>, k: nat)
    requires k < |public| && Linked(w, owned, public[..k])
    requires Holds(w, Surface(staged, public[k].bytes)) && public[k].path == destination && destination !in w.entries
    ensures Linked(LinkTo(w, staged, destination), owned + [Entry(destination, w.entries[staged])], public[..k + 1])
  {
    ClaimsAdd(owned, Entry(destination, w.entries[staged]));
    hide Claims;
    assert forall i :: 0 <= i < k ==> public[..k][i] == public[..k + 1][i] && Holds(w, public[..k][i]);
  }

  lemma StagedStill(w: World, v: World, destination: Path, all: seq<Entry>, dir: Dir, stagings: seq<Staging>)
    requires Staged(w, all, dir, stagings) && destination.parent != dir && v.bytes == w.bytes
    requires destination in v.entries && v.entries == w.entries[destination := v.entries[destination]]
    ensures Staged(v, all, dir, stagings)
  {}

  /** Another file at another place changes nothing for these. */
  lemma LinkedStill(w: World, owned: seq<Entry>, v: World, staged: Path, public: seq<Surface>)
    requires Linked(w, owned, public) && OnlyAt(staged, w, v) && staged in v.entries
    requires forall i :: 0 <= i < |public| ==> public[i].path != staged
    ensures Linked(v, owned + [Entry(staged, v.entries[staged])], public)
  {
    ClaimsAdd(owned, Entry(staged, v.entries[staged]));
    hide Claims;
    forall i | 0 <= i < |public| ensures Holds(v, public[i]) {
      OnlyAtHolds(staged, w, v, public[i]);
    }
  }

  /** The world in which the manifest appears already has all it names. */
  lemma ManifestLinked(w: World, owned: seq<Entry>, trace: seq<World>, staged: Path, manifest: Path, public: seq<Surface>)
    requires Linked(w, owned, public) && Never(trace, manifest) && manifest !in w.entries && staged in w.entries
    requires forall i :: 0 <= i < |public| ==> public[i].path != manifest
    ensures var next, all := LinkTo(w, staged, manifest), owned + [Entry(manifest, w.entries[staged])];
            && Withdrawable(next, all, manifest, public) && SafeAlong(trace + [next], manifest, public)
            && Told(next, trace + [next], all, true, [], manifest, public)
  {
    var next, all := LinkTo(w, staged, manifest), owned + [Entry(manifest, w.entries[staged])];
    ClaimsAdd(owned, Entry(manifest, w.entries[staged]));
    hide Claims;
    assert forall i :: 0 <= i < |public| ==> Holds(w, public[i]);
    assert AllHold(next, public);
    SafeAlongAppend(trace, [next], manifest, public);
    WithdrawableTold(next, trace + [next], all, manifest, public);
  }

  /** One more file was staged. */
  lemma StagedMore(v: World, before: seq<Entry>, w: World, after: seq<Entry>, dir: Dir, stagings: seq<Staging>, k: nat)
    requires k < |stagings| && Staged(v, before, dir, stagings[..k])
    requires var path := Path(dir, stagings[k].name);
             && path !in v.entries && OnlyAt(path, v, w) && Holds(w, Surface(path, stagings[k].raw))
             && after == before + [Entry(path, w.entries[path])]
    ensures Staged(w, after, dir, stagings[..k + 1])
  {
    var path := Path(dir, stagings[k].name);
    forall i | 0 <= i < k ensures Holds(w, Surface(after[i].path, stagings[i].raw)) {
      assert Holds(v, Surface(before[i].path, stagings[..k][i].raw));
      OnlyAtHolds(path, v, w, Surface(before[i].path, stagings[i].raw));
    }
  }

  lemma OnlyAtHolds(path: Path, v: World, w: World, s: Surface)
    requires OnlyAt(path, v, w) && Holds(v, s) && s.path != path
    ensures Holds(w, s)
  {
    assert s.path in v.entries - {path};
  }
}
