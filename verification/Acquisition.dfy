/**
  The private files of one acquisition
  (scripts/capture-stopped-canary.py, AcquisitionFiles): a ledger of created paths, the bytes
  written so far, and a staging directory.  Every operation may fail at every system call;
  the faults are parameters.
*/
module Acquisition {
  import opened Numbers
  import opened Options
  import opened Rollback

  const MAX_BYTES: nat := 64 * 1024 * 1024

  /** Every path lies in a directory that exists. */
  ghost predicate Rooted(w: World) {
    forall p :: p in w.entries ==> p.parent in w.dirs
  }

  /** The disk, and every world it went through. */
  class Disk {
    var world: World
    ghost var trace: seq<World>

    constructor (w: World)
      ensures world == w && trace == [w] && Current()
    {
      world, trace := w, [w];
    }

    /** The history ends with the present. */
    ghost predicate Current()
      reads this
    {
      trace != [] && trace[|trace| - 1] == world
    }

    method Become(w: World)
      modifies this
      ensures world == w && trace == old(trace) + [w] && Current()
    {
      world, trace := w, trace + [w];
    }
  }

  datatype WriteFaults = WriteFaults(openFails: bool, fstatFails: bool, lstatFails: bool, cut: Option<Bytes>)
  datatype PublishFaults = PublishFaults(statFails: bool, linkFails: bool)
  datatype StageFaults = StageFaults(makeFails: bool, lstatFails: bool)

  /** What the removal of the staging directory leaves. */
  function RemoveStage(w: World, dir: Dir, identity: Option<Identity>, a: Attempt): (World, bool) {
    var seen := a.before(w);
    if a.lookFails || dir !in seen.dirs || Some(seen.dirs[dir]) != identity then (seen, false)
    else
      var now := a.between(seen);
      if a.unlinkFails || dir !in now.dirs || exists p :: p in now.entries && p.parent == dir then (now, false)
      else (now.(dirs := now.dirs - {dir}), true)
  }

  /** Every path of the ledger exists and is the file the ledger claims. */
  ghost predicate Bound(w: World, owned: seq<Entry>) {
    forall p :: p in Claims(owned) ==> p in w.entries && w.entries[p] == Claims(owned)[p]
  }

  /** With the leaked paths, which exist and are not in it, the ledger covers all but the rest. */
  ghost predicate Accounted(w: World, owned: seq<Entry>, leaked: set<Path>, rest: map<Path, Identity>) {
    Bound(w, owned) && Loose(w, owned, leaked) && w.entries - (Claims(owned).Keys + leaked) == rest
  }

  ghost predicate Loose(w: World, owned: seq<Entry>, leaked: set<Path>) {
    forall p :: p in leaked ==> p in w.entries && p !in Claims(owned)
  }

  /** Two worlds hold the same bytes for these files. */
  ghost predicate SameBytes(files: map<Path, Identity>, v: World, w: World) {
    forall p :: p in files && files[p] in v.bytes ==> files[p] in w.bytes && w.bytes[files[p]] == v.bytes[files[p]]
  }

  lemma {:induction false} ClaimsAdd(owned: seq<Entry>, e: Entry)
    ensures Claims(owned + [e]) == Claims(owned)[e.path := e.identity]
  {
    assert (owned + [e])[..|owned|] == owned;
  }

  /** A new path goes into the ledger. */
  lemma AccountedNew(v: World, w: World, owned: seq<Entry>, leaked: set<Path>, rest: map<Path, Identity>, e: Entry)
    requires Accounted(v, owned, leaked, rest) && e.path !in v.entries && w.entries == v.entries[e.path := e.identity]
    ensures Accounted(w, owned + [e], leaked, rest)
  {
    ClaimsAdd(owned, e);
    hide Claims;
  }

  /** A new path stays out of the ledger. */
  lemma AccountedLeak(v: World, w: World, owned: seq<Entry>, leaked: set<Path>, rest: map<Path, Identity>, e: Entry)
    requires Accounted(v, owned, leaked, rest) && e.path !in v.entries && w.entries == v.entries[e.path := e.identity]
    ensures Accounted(w, owned, leaked + {e.path}, rest)
  {
    hide Claims;
  }

  /** A path that exists goes into the ledger. */
  lemma AccountedOld(w: World, owned: seq<Entry>, leaked: set<Path>, rest: map<Path, Identity>, path: Path)
    requires Accounted(w, owned, leaked, rest) && path in w.entries
    ensures Accounted(w, owned + [Entry(path, w.entries[path])], leaked - {path}, rest - {path})
  {
    ClaimsAdd(owned, Entry(path, w.entries[path]));
    hide Claims;
  }

  lemma AccountedSame(v: World, w: World, owned: seq<Entry>, leaked: set<Path>, rest: map<Path, Identity>)
    requires Accounted(v, owned, leaked, rest) && w.entries == v.entries
    ensures Accounted(w, owned, leaked, rest)
  {}

  function Created(w: World, path: Path, identity: Identity): World {
    World(w.entries[path := identity], w.bytes[identity := []], w.dirs)
  }

  function Filled(w: World, identity: Identity, raw: Bytes): World {
    World(w.entries, w.bytes[identity := raw], w.dirs)
  }

  /** Two worlds have the same files, except perhaps at one path. */
  ghost predicate OnlyAt(path: Path, v: World, w: World) {
    && w.entries - {path} == v.entries - {path}
    && forall p :: p in v.entries && p != path && v.entries[p] in v.bytes ==>
         v.entries[p] in w.bytes && w.bytes[v.entries[p]] == v.bytes[v.entries[p]]
  }

  lemma OnlyAtSelf(path: Path, w: World)
    ensures OnlyAt(path, w, w)
  {}

  lemma OnlyAtCreated(w: World, path: Path, identity: Identity)
    requires identity !in w.entries.Values
    ensures OnlyAt(path, w, Created(w, path, identity))
  {}

  lemma OnlyAtFilled(w: World, path: Path, identity: Identity, raw: Bytes)
    requires identity !in w.entries.Values
    ensures OnlyAt(path, w, Filled(Created(w, path, identity), identity, raw))
  {}

  ghost function Stages(stage: Option<Dir>): set<Dir> {
    if stage.Some? then {stage.value} else {}
  }

  /** What the ledger is measured against: the world at the start, and what it does not cover. */
  datatype Books = Books(base: World, adopted: set<Path>, leaked: set<Path>, lost: set<Dir>)

  /** Every path and directory that is not from the start is accounted for. */
  ghost predicate InOrder(w: World, owned: seq<Entry>, stage: Option<Dir>, books: Books) {
    && Rooted(w) && Rooted(books.base)
    && Accounted(w, owned, books.leaked, books.base.entries - books.adopted)
    && SameBytes(books.base.entries - books.adopted, books.base, w)
    && w.dirs - (Stages(stage) + books.lost) == books.base.dirs
    && (stage.Some? ==> stage.value in w.dirs)
  }

  /** A file that has just been created: in the ledger, or not. */
  lemma CreatedInOrder(w: World, owned: seq<Entry>, stage: Option<Dir>, books: Books, path: Path, identity: Identity)
    requires InOrder(w, owned, stage, books)
    requires path !in w.entries && path.parent in w.dirs && identity !in w.entries.Values
    ensures InOrder(Created(w, path, identity), owned + [Entry(path, identity)], stage, books)
    ensures InOrder(Created(w, path, identity), owned, stage, books.(leaked := books.leaked + {path}))
  {
    var rest := books.base.entries - books.adopted;
    AccountedNew(w, Created(w, path, identity), owned, books.leaked, rest, Entry(path, identity));
    AccountedLeak(w, Created(w, path, identity), owned, books.leaked, rest, Entry(path, identity));
    RestIsOther(w, owned, books.leaked, rest, identity);
    hide Accounted, Claims;
  }

  /** Another name for a file, in the ledger. */
  lemma LinkedInOrder(w: World, owned: seq<Entry>, stage: Option<Dir>, books: Books, destination: Path, identity: Identity)
    requires InOrder(w, owned, stage, books) && destination !in w.entries && destination.parent in w.dirs
    ensures InOrder(w.(entries := w.entries[destination := identity]), owned + [Entry(destination, identity)], stage, books)
  {
    AccountedNew(w, w.(entries := w.entries[destination := identity]), owned, books.leaked,
                 books.base.entries - books.adopted, Entry(destination, identity));
    hide Accounted, Claims;
  }

  /** The bytes of a new file are not those of any file of the base. */
  lemma FilledInOrder(w: World, owned: seq<Entry>, stage: Option<Dir>, books: Books, identity: Identity, raw: Bytes)
    requires InOrder(w, owned, stage, books)
    requires forall p :: p in books.base.entries && p !in books.adopted ==> books.base.entries[p] != identity
    ensures InOrder(Filled(w, identity, raw), owned, stage, books)
  {
    AccountedSame(w, Filled(w, identity, raw), owned, books.leaked, books.base.entries - books.adopted);
    hide Accounted, Claims;
  }

  lemma RestIsOther(w: World, owned: seq<Entry>, leaked: set<Path>, rest: map<Path, Identity>, identity: Identity)
    requires Accounted(w, owned, leaked, rest) && identity !in w.entries.Values
    ensures forall p :: p in rest ==> rest[p] != identity
  {
    hide Claims;
    forall p | p in rest ensures rest[p] != identity {
      assert p in w.entries - (Claims(owned).Keys + leaked);
      assert w.entries[p] in w.entries.Values;
    }
  }

  lemma NotOfTheBase(w: World, owned: seq<Entry>, stage: Option<Dir>, books: Books, identity: Identity)
    requires InOrder(w, owned, stage, books) && identity !in w.entries.Values
    ensures forall p :: p in books.base.entries && p !in books.adopted ==> books.base.entries[p] != identity
  {
    var rest := books.base.entries - books.adopted;
    RestIsOther(w, owned, books.leaked, rest, identity);
    assert forall p :: p in books.base.entries && p !in books.adopted ==> p in rest;
  }

  class AcquisitionFiles {
    const disk: Disk
    var owned: seq<Entry>
    var total: nat
    var stage: Option<Dir>
    var stageIdentity: Option<Identity>
    // The books the ledger is measured against.
    ghost var base: World
    ghost var adopted: set<Path>
    ghost var leaked: set<Path>
    ghost var lost: set<Dir>

    constructor (disk: Disk)
      requires disk.Current() && Rooted(disk.world)
      ensures this.disk == disk && Valid() && owned == [] && stage == None && total == 0
      ensures base == disk.world && adopted == {} && leaked == {} && lost == {}
    {
      this.disk := disk;
      owned, total, stage, stageIdentity := [], 0, None, None;
      base, adopted, leaked, lost := disk.world, {}, {}, {};
      new;
      assert Claims(owned) == map[];
      assert disk.world.entries - {} == disk.world.entries && disk.world.dirs - {} == disk.world.dirs;
    }

    ghost predicate Valid()
      reads this, disk
    {
      && disk.Current() && total <= MAX_BYTES
      && InOrder(disk.world, owned, stage, Books(base, adopted, leaked, lost))
    }

    /** Makes a new directory for staging; if its identity cannot be read it stays unknown. */
    method CreateStage(out: Dir, f: StageFaults) returns (ok: bool)
      requires Valid()
      modifies this, disk
      ensures Valid() && owned == old(owned) && total == old(total)
      ensures disk.world.entries == old(disk.world.entries) && disk.world.bytes == old(disk.world.bytes)
      ensures base == old(base) && adopted == old(adopted) && leaked == old(leaked)
      ensures var makes := !f.makeFails && out in old(disk.world.dirs);
              && (ok <==> makes && !f.lstatFails)
              && (makes ==> stage.Some? && stage.value !in old(disk.world.dirs) && disk.world.dirs.Keys == old(disk.world.dirs.Keys) + {stage.value}
                            && lost == old(lost) + Stages(old(stage)) && disk.trace == old(disk.trace) + [disk.world])
              && (!makes ==> disk.world == old(disk.world) && stage == old(stage) && lost == old(lost) && disk.trace == old(disk.trace))
      ensures ok ==> StageKnown()
      ensures !ok ==> stageIdentity == old(stageIdentity)
    {
      if f.makeFails || out !in disk.world.dirs {
        return false;
      }
      ghost var unused := Unused(disk.world.dirs.Keys);
      assert unused !in disk.world.dirs;
      var dir: Dir :| dir !in disk.world.dirs;
      var identity: Identity :| true;
      lost := lost + Stages(stage);
      disk.Become(disk.world.(dirs := disk.world.dirs[dir := identity]));
      stage := Some(dir);
      assert disk.world.dirs - (Stages(stage) + lost) == base.dirs;
      if f.lstatFails {
        return false;
      }
      stageIdentity := Some(identity);
      return true;
    }

    /** The bound, the exclusive open and its directory allow a new file. */
    predicate Creates(path: Path, raw: Bytes, f: WriteFaults)
      reads this, disk
    {
      |raw| <= MAX_BYTES - total && !f.openFails && path !in disk.world.entries && path.parent in disk.world.dirs
    }

    /** Creates the file exclusively, enters it in the ledger, then fills it. */
    method Write(path: Path, raw: Bytes, f: WriteFaults) returns (ok: bool)
      requires Valid()
      modifies this, disk
      ensures Valid() && stage == old(stage) && stageIdentity == old(stageIdentity) && lost == old(lost)
      ensures base == old(base) && adopted == old(adopted)
      ensures total == old(total) + if ok then |raw| else 0
      ensures OnlyAt(path, old(disk.world), disk.world) && disk.world.dirs == old(disk.world.dirs)
      ensures old(disk.trace) <= disk.trace
           && forall i :: |old(disk.trace)| <= i < |disk.trace| ==> OnlyAt(path, old(disk.world), disk.trace[i])
      ensures var creates := old(Creates(path, raw, f));
              && (ok <==> creates && !f.fstatFails && f.cut.None?)
              && (!creates ==> disk.world == old(disk.world) && owned == old(owned) && leaked == old(leaked))
              && (creates ==> path in disk.world.entries)
              && (creates && f.fstatFails && f.lstatFails ==> owned == old(owned) && leaked == old(leaked) + {path})
              && (creates && !(f.fstatFails && f.lstatFails) ==>
                    owned == old(owned) + [Entry(path, disk.world.entries[path])] && leaked == old(leaked))
      ensures ok ==> Holds(disk.world, Surface(path, raw))
    {
      hide InOrder, OnlyAt;
      OnlyAtSelf(path, disk.world);
      if |raw| > MAX_BYTES - total {
        return false;
      }
      if f.openFails || path in disk.world.entries || path.parent !in disk.world.dirs {
        return false;
      }
      ghost var unused := Unused(disk.world.entries.Values);
      assert unused !in disk.world.entries.Values;
      var identity: Identity :| identity !in disk.world.entries.Values;
      var created := Created(disk.world, path, identity);
      OnlyAtCreated(disk.world, path, identity);
      ghost var books := Books(base, adopted, leaked, lost);
      CreatedInOrder(disk.world, owned, stage, books, path, identity);
      NotOfTheBase(disk.world, owned, stage, books, identity);
      disk.Become(created);
      if f.fstatFails && f.lstatFails {
        leaked := leaked + {path};
        return false;
      }
      owned := owned + [Entry(path, identity)];
      if f.fstatFails {
        return false;
      }
      var filled := Filled(created, identity, if f.cut.Some? then f.cut.value else raw);
      OnlyAtFilled(old(disk.world), path, identity, if f.cut.Some? then f.cut.value else raw);
      FilledInOrder(created, owned, stage, books, identity, if f.cut.Some? then f.cut.value else raw);
      disk.Become(filled);
      if f.cut.Some? {
        return false;
      }
      total := total + |raw|;
      return true;
    }

    /** Enters a regular file in the ledger that was created elsewhere. */
    method Adopt(path: Path, lookFails: bool, regular: bool) returns (ok: bool)
      requires Valid()
      modifies this
      ensures Valid() && stage == old(stage) && stageIdentity == old(stageIdentity) && total == old(total)
      ensures base == old(base) && lost == old(lost)
      ensures ok <==> !lookFails && path in disk.world.entries && regular
      ensures ok ==> owned == old(owned) + [Entry(path, disk.world.entries[path])]
                     && adopted == old(adopted) + {path} && leaked == old(leaked) - {path}
      ensures !ok ==> owned == old(owned) && adopted == old(adopted) && leaked == old(leaked)
    {
      if lookFails || path !in disk.world.entries || !regular {
        return false;
      }
      AccountedOld(disk.world, owned, leaked, base.entries - adopted, path);
      assert base.entries - adopted - {path} == base.entries - (adopted + {path});
      owned := owned + [Entry(path, disk.world.entries[path])];
      adopted, leaked := adopted + {path}, leaked - {path};
      return true;
    }

    /** Gives a staged file its public name, never replacing one. */
    method Publish(staged: Path, destination: Path, f: PublishFaults) returns (ok: bool)
      requires Valid()
      modifies this, disk
      ensures Valid() && stage == old(stage) && stageIdentity == old(stageIdentity) && total == old(total)
      ensures base == old(base) && adopted == old(adopted) && leaked == old(leaked) && lost == old(lost)
      ensures ok <==> !f.statFails && !f.linkFails && staged in old(disk.world.entries)
                      && destination !in old(disk.world.entries) && destination.parent in old(disk.world.dirs)
      ensures ok ==>
        && disk.world == old(disk.world).(entries := old(disk.world.entries)[destination := old(disk.world.entries)[staged]])
        && owned == old(owned) + [Entry(destination, old(disk.world.entries)[staged])]
        && disk.trace == old(disk.trace) + [disk.world]
      ensures !ok ==> disk.world == old(disk.world) && disk.trace == old(disk.trace) && owned == old(owned)
    {
      hide InOrder;
      if f.statFails || staged !in disk.world.entries {
        return false;
      }
      var identity := disk.world.entries[staged];
      if f.linkFails || destination in disk.world.entries || destination.parent !in disk.world.dirs {
        return false;
      }
      LinkedInOrder(disk.world, owned, stage, Books(base, adopted, leaked, lost), destination, identity);
      disk.Become(disk.world.(entries := disk.world.entries[destination := identity]));
      owned := owned + [Entry(destination, identity)];
      return true;
    }

    /**
      Removes the ledger, or its staged part, and then the staging directory.  Whatever happens
      around it, this is one sweep of the ledger.  Undisturbed, it keeps the books; if moreover
      nothing fails, only adopted and leaked files tell the world apart from the one at the start.
    */
    method Remove(stagedOnly: bool, attempts: Path -> Attempt, stageAttempt: Attempt) returns (issues: bool)
      modifies this, disk
      ensures total == old(total) && stageIdentity == old(stageIdentity)
      ensures base == old(base) && adopted == old(adopted) && leaked == old(leaked) && lost == old(lost)
      ensures var s := Sweep(old(disk.world), old(owned), if stagedOnly then Only(old(stage)) else Everything, attempts);
              owned == s.retained && (issues <==> s.refused || stage.Some?)
      ensures var scope := if stagedOnly then Only(old(stage)) else Everything;
              && (disk.world, stage) == Removed(old(disk.world), old(owned), old(stage), stageIdentity, scope, attempts, stageAttempt)
              && disk.trace == old(disk.trace)
                   + RemovalTrace(old(disk.world), old(owned), old(stage), stageIdentity, scope, attempts, stageAttempt)
      ensures old(Valid()) && AllQuiet(attempts) && Quiet(stageAttempt) ==> Valid()
      ensures old(Valid()) && AllQuiet(attempts) && Quiet(stageAttempt) && !stagedOnly
              && (forall p: Path :: !Fails(attempts(p))) ==>
        && owned == [] && disk.world.entries - leaked == base.entries - adopted
        && SameBytes(base.entries - adopted, base, disk.world)
        && (!Fails(stageAttempt) && old(StageKnown()) && Apart(leaked, old(stage)) ==>
              !issues && stage == None && disk.world.dirs - lost == base.dirs)
    {
      hide Sweep, RemoveStage, InOrder, Fails;
      var scope := if stagedOnly then Only(stage) else Everything;
      ghost var w, all, was, books := disk.world, owned, stage, Books(base, adopted, leaked, lost);
      issues := SweepLedger(scope, attempts);
      if stage.Some? {
        var (next, done) := RemoveStage(disk.world, stage.value, stageIdentity, stageAttempt);
        disk.Become(next);
        if done { stage := None; } else { issues := true; }
      }
      if old(Valid()) && AllQuiet(attempts) && Quiet(stageAttempt) {
        RemoveKeeps(w, all, was, books, stageIdentity, scope, attempts, stageAttempt);
        if !stagedOnly && forall p: Path :: !Fails(attempts(p)) {
          RemoveRestores(w, all, was, books, stageIdentity, attempts, stageAttempt);
        }
      }
    }

    method SweepLedger(scope: Scope, attempts: Path -> Attempt) returns (issues: bool)
      modifies this`owned, disk
      ensures var s := Sweep(old(disk.world), old(owned), scope, attempts);
              && owned == s.retained && disk.world == s.world && issues == s.refused
              && disk.trace == old(disk.trace) + s.trace
      ensures old(disk.Current()) ==> disk.Current()
    {
      var retained, i := [], |owned|;
      issues := false;
      ghost var w, all, trace, removed := disk.world, owned, [], [];
      assert owned[..i] == owned;
      JoinNothing(Sweep(w, all, scope, attempts));
      hide Sweep, TryRemove, Covers, Join;
      while i > 0
        invariant 0 <= i <= |owned| && owned == all
        invariant disk.trace == old(disk.trace) + trace && (old(disk.Current()) ==> disk.Current())
        invariant Sweep(w, all, scope, attempts)
               == Join(Sweep(disk.world, all[..i], scope, attempts), retained, trace, removed, issues)
      {
        i := i - 1;
        var e := owned[i];
        JoinStep(disk.world, all, i, scope, attempts, retained, trace, removed, issues);
        if !Covers(scope, e.path) {
          retained := [e] + retained;
        } else {
          var (next, fate) := TryRemove(disk.world, e, attempts(e.path));
          disk.Become(next);
          trace := trace + [next];
          if fate.Kept? {
            issues, retained := true, [e] + retained;
          } else if fate.Unlinked? {
            removed := removed + [(e, fate.identity)];
          }
        }
      }
      JoinEnd(disk.world, scope, attempts, retained, trace, removed, issues);
      owned := retained;
    }

    ghost predicate StageKnown()
      reads this, disk
    {
      stage.Some? ==> stage.value in disk.world.dirs && stageIdentity == Some(disk.world.dirs[stage.value])
    }
  }

  ghost predicate Apart(paths: set<Path>, stage: Option<Dir>) {
    forall p :: p in paths ==> stage != Some(p.parent)
  }

  /** The world and the stage after a removal. */
  ghost function Removed(w: World, owned: seq<Entry>, stage: Option<Dir>, identity: Option<Identity>,
                         scope: Scope, attempts: Path -> Attempt, a: Attempt): (World, Option<Dir>) {
    var s := Sweep(w, owned, scope, attempts);
    if stage.None? then (s.world, None)
    else
      var (next, done) := RemoveStage(s.world, stage.value, identity, a);
      (next, if done then None else stage)
  }

  /** The worlds a removal adds to the history. */
  ghost function RemovalTrace(w: World, owned: seq<Entry>, stage: Option<Dir>, identity: Option<Identity>,
                              scope: Scope, attempts: Path -> Attempt, a: Attempt): seq<World> {
    Sweep(w, owned, scope, attempts).trace
    + if stage.Some? then [Removed(w, owned, stage, identity, scope, attempts, a).0] else []
  }

  /** An undisturbed removal keeps the books. */
  lemma {:induction false} RemoveKeeps(w: World, owned: seq<Entry>, stage: Option<Dir>, books: Books, identity: Option<Identity>,
                    scope: Scope, attempts: Path -> Attempt, a: Attempt)
    requires InOrder(w, owned, stage, books) && AllQuiet(attempts) && Quiet(a)
    ensures var (next, left) := Removed(w, owned, stage, identity, scope, attempts, a);
            InOrder(next, Sweep(w, owned, scope, attempts).retained, left, books)
  {
    SweepAccounted(w, owned, books.leaked, books.base.entries - books.adopted, scope, attempts);
    var s := Sweep(w, owned, scope, attempts);
    if stage.Some? {
      StageGoes(s.world, stage.value, identity, a);
      var (next, done) := RemoveStage(s.world, stage.value, identity, a);
      AccountedSame(s.world, next, s.retained, books.leaked, books.base.entries - books.adopted);
    }
    hide Sweep, RemoveStage, Accounted, AllQuiet, Quiet, Fails;
  }

  /** If nothing fails either, it restores the world but for adopted and leaked files. */
  lemma {:induction false} RemoveRestores(w: World, owned: seq<Entry>, stage: Option<Dir>, books: Books, identity: Option<Identity>,
                       attempts: Path -> Attempt, a: Attempt)
    requires InOrder(w, owned, stage, books) && AllQuiet(attempts) && Quiet(a) && forall p: Path :: !Fails(attempts(p))
    ensures var s := Sweep(w, owned, Everything, attempts);
            var (next, left) := Removed(w, owned, stage, identity, Everything, attempts, a);
            && s.retained == [] && !s.refused
            && next.entries - books.leaked == books.base.entries - books.adopted
            && SameBytes(books.base.entries - books.adopted, books.base, next)
            && (!Fails(a) && (stage.Some? ==> identity == Some(w.dirs[stage.value])) && Apart(books.leaked, stage) ==>
                  left == None && next.dirs - books.lost == books.base.dirs)
  {
    var s := Sweep(w, owned, Everything, attempts);
    SweepAccounted(w, owned, books.leaked, books.base.entries - books.adopted, Everything, attempts);
    if stage.Some? {
      StageGoes(s.world, stage.value, identity, a);
      hide Sweep, RemoveStage, Accounted, AllQuiet, Quiet;
      if Apart(books.leaked, stage) {
        forall p | p in s.world.entries ensures p.parent != stage.value {
          assert p !in books.leaked ==> p in books.base.entries - books.adopted;
        }
      }
      assert w.dirs - {stage.value} - books.lost == w.dirs - (Stages(stage) + books.lost);
    } else {
      assert w.dirs - books.lost == w.dirs - (Stages(stage) + books.lost);
    }
  }

  ghost function Join(s: Swept, retained: seq<Entry>, trace: seq<World>, removed: seq<(Entry, Identity)>, refused: bool): Swept {
    Swept(s.world, s.retained + retained, trace + s.trace, removed + s.removed, refused || s.refused)
  }

  lemma JoinNothing(s: Swept)
    ensures Join(s, [], [], [], false) == s
  {}

  lemma {:induction false} JoinEnd(w: World, scope: Scope, attempts: Path -> Attempt,
                retained: seq<Entry>, trace: seq<World>, removed: seq<(Entry, Identity)>, refused: bool)
    ensures Join(Sweep(w, [], scope, attempts), retained, trace, removed, refused)
         == Swept(w, retained, trace, removed, refused)
  {}

  lemma {:induction false} JoinStep(w: World, all: seq<Entry>, i: nat, scope: Scope, attempts: Path -> Attempt,
                 retained: seq<Entry>, trace: seq<World>, removed: seq<(Entry, Identity)>, refused: bool)
    requires i < |all|
    ensures var e := all[i];
            var was := Join(Sweep(w, all[..i + 1], scope, attempts), retained, trace, removed, refused);
            if !Covers(scope, e.path) then
              was == Join(Sweep(w, all[..i], scope, attempts), [e] + retained, trace, removed, refused)
            else
              var (next, fate) := TryRemove(w, e, attempts(e.path));
              was == Join(Sweep(next, all[..i], scope, attempts),
                          if fate.Kept? then [e] + retained else retained,
                          trace + [next],
                          if fate.Unlinked? then removed + [(e, fate.identity)] else removed,
                          fate.Kept? || refused)
  {
    hide TryRemove, Covers;
    assert all[..i + 1][..i] == all[..i];
  }

  lemma {:induction false} TakenAccounted(w: World, owned: seq<Entry>, v: World, retained: seq<Entry>, taken: set<Path>, leaked: set<Path>)
    requires Bound(w, owned) && v.entries == w.entries - taken && taken <= Claims(owned).Keys
    requires ClaimsOn(v, retained, owned) && forall p :: p in Claims(retained) ==> p in Claims(owned) && p !in taken
    ensures Bound(v, retained)
    ensures v.entries - (Claims(retained).Keys + leaked) == w.entries - (Claims(owned).Keys + leaked)
  {
    hide Claims;
  }

  /** An undisturbed sweep keeps the books; without failures it leaves nothing in them. */
  lemma {:induction false} SweepAccounted(w: World, owned: seq<Entry>, leaked: set<Path>, rest: map<Path, Identity>,
                       scope: Scope, attempts: Path -> Attempt)
    requires Accounted(w, owned, leaked, rest) && AllQuiet(attempts)
    ensures var s := Sweep(w, owned, scope, attempts);
            && Accounted(s.world, s.retained, leaked, rest) && Shrinks(s.world, w) && s.world.dirs == w.dirs
            && (scope.Everything? && (forall p: Path :: !Fails(attempts(p))) ==>
                  s.retained == [] && !s.refused && s.world.entries - leaked == rest)
  {
    assert Claims([]).Keys == {};
    hide Sweep, Claims, AllQuiet, Removes, ClaimsOn, Shrinks;
    var s := Sweep(w, owned, scope, attempts);
    SweepRemoves(w, owned, scope, attempts);
    SweepClaims(w, owned, scope, attempts);
    RetainedFailed(w, owned, scope, attempts);
    if scope.Everything? && forall p: Path :: !Fails(attempts(p)) {
      SweepEmpties(w, owned, attempts);
    }
    hide Bound, ClaimedIfRemoved;
    TakenAccounted(w, owned, s.world, s.retained, Taken(owned, scope, attempts), leaked);
    if s.retained == [] {
      assert s.world.entries - leaked == s.world.entries - (Claims(s.retained).Keys + leaked);
    }
  }

  /** If nothing fails, the removal of the staged part leaves no stage. */
  lemma {:induction false} StagedGoes(w: World, owned: seq<Entry>, dir: Dir, books: Books, identity: Option<Identity>,
                                      attempts: Path -> Attempt, a: Attempt)
    requires InOrder(w, owned, Some(dir), books) && AllQuiet(attempts) && Quiet(a)
    requires !Fails(a) && (forall p: Path :: !Fails(attempts(p)))
    requires identity == Some(w.dirs[dir]) && Apart(books.leaked, Some(dir))
    ensures var scope := Only(Some(dir));
            && !Sweep(w, owned, scope, attempts).refused
            && Removed(w, owned, Some(dir), identity, scope, attempts, a).1 == None
  {
    var scope := Only(Some(dir));
    SweepRemoves(w, owned, scope, attempts);
    NothingRefused(w, owned, scope, attempts);
    var s := Sweep(w, owned, scope, attempts);
    StageGoes(s.world, dir, identity, a);
    hide Sweep, RemoveStage, AllQuiet, Quiet, Claims;
    assert dir !in w.dirs - (Stages(Some(dir)) + books.lost);
    forall p | p in s.world.entries ensures p.parent != dir {
      assert p !in Claims(owned) && p !in books.leaked ==> p in w.entries - (Claims(owned).Keys + books.leaked);
      assert p in Claims(owned) && p.parent == dir ==> Removes(scope, attempts, p);
    }
  }

  /** Undisturbed, the directory goes if its identity is known, nothing fails and it is empty. */
  lemma StageGoes(w: World, dir: Dir, identity: Option<Identity>, a: Attempt)
    requires Quiet(a) && dir in w.dirs
    ensures var (next, done) := RemoveStage(w, dir, identity, a);
            && next.entries == w.entries && next.bytes == w.bytes
            && next.dirs == (if done then w.dirs - {dir} else w.dirs)
            && (done <==> identity == Some(w.dirs[dir]) && !Fails(a) && forall p :: p in w.entries ==> p.parent != dir)
  {
    assert a.before(w) == w && a.between(w) == w;
  }
}
