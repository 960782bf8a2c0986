/** `migrateData` as a transition system over the legacy profile, the current profile root and the
    staging directories beside it, with a crash possible after every write. */
module Migration {
  import opened Wrappers
  import opened Octets
  import opened FileTree
  import opened ProfileTree
  import opened ProfileCopy
  import opened Text

  const VERSION := 1
  const MARKER: Path := ["state", "brand-migration.json"]
  const STATE: Path := ["state"]
  const EMPTY := Volume(map[], {[]})

  datatype Report = Report(files: nat, bytes: nat, skipped: seq<Path>)

  /** How the two JSON markers are written and read back; `stamp` is the time of writing. */
  datatype Codec = Codec(version: Bytes -> int, marker: (Report, nat) -> Bytes, guard: (FileHash, nat) -> Bytes)

  /** What is written is read as completed and current. */
  ghost predicate Sound(c: Codec) {
    && (forall r, stamp :: c.version(c.marker(r, stamp)) == VERSION)
    && (forall h, stamp :: c.version(c.guard(h, stamp)) == VERSION)
  }

  /** The current profile root. */
  datatype Site = Absent | NotDirectory | Directory(volume: Volume)

  datatype Run = Idle | Cleared | Staging(id: nat) | Copied(id: nat, report: Report) | Marked(id: nat) | Activated

  datatype World = World(legacy: Option<Profile>, site: Site, stages: map<nat, Volume>, run: Run)

  datatype Action =
    | Clear
    | Start(id: nat)
    | Churn(partial: Volume)
    | Fill(volume: Volume, report: Report)
    | Mark(stamp: nat)
    | Activate
    | Guard(stamp: nat)
    | GiveUp(left: Option<Volume>)
    | Crash
    | User(site: Site)

  function SiteVersion(c: Codec, s: Site): int {
    if s.Directory? && MARKER in s.volume.files then c.version(s.volume.files[MARKER]) else 0
  }

  /** legacyConsumedVersion: only a regular file counts. */
  function ConsumedVersion(c: Codec, t: Profile): int {
    if t.Dir? && REPLAY_GUARD in t.entries && t.entries[REPLAY_GUARD].File?
    then c.version(t.entries[REPLAY_GUARD].content) else 0
  }

  /** Something the migration must not replace. */
  predicate HasData(s: Site) {
    s != Absent && s != Directory(EMPTY)
  }

  predicate Consumed(c: Codec, w: World) {
    w.legacy.Some? && ConsumedVersion(c, w.legacy.value) >= VERSION
  }

  function WithMarker(v: Volume, content: Bytes): Volume {
    Volume(v.files[MARKER := content], v.dirs + {STATE})
  }

  function WithGuard(t: Profile, content: Bytes): Profile
    requires t.Dir?
  {
    Dir(t.entries[REPLAY_GUARD := File(content)])
  }

  /** A link or directory in the guard's place makes its writing fail. */
  predicate GuardFits(t: Profile) {
    t.Dir? && (REPLAY_GUARD in t.entries ==> t.entries[REPLAY_GUARD].File?)
  }

  predicate MarkerFits(v: Volume) {
    STATE !in v.files && MARKER !in v.dirs
  }

  /** The report counts what the volume holds and lists what was skipped, each entry once. */
  ghost predicate Exact(root: Profile, v: Volume, r: Report) {
    && IsImage(root, v) && r.files == |v.files| && r.bytes == TotalSize(v.files)
    && (forall i, j :: 0 <= i < j < |r.skipped| ==> r.skipped[i] != r.skipped[j])
    && (forall p :: p in r.skipped <==> Skipped(root, p))
  }

  /** A finished copy of `root`: its image and a marker that reports it truthfully. */
  ghost predicate Complete(c: Codec, root: Profile, s: Site) {
    exists v, r, stamp ::
      Exact(root, v, r) && s == Directory(WithMarker(v, c.marker(r, stamp)))
  }

  /** A run may begin: there is a legacy directory that was not imported before. */
  predicate Importable(c: Codec, w: World) {
    w.legacy.Some? && w.legacy.value.Dir? && !Consumed(c, w)
  }

  predicate HasStage(w: World) {
    (w.run.Staging? || w.run.Copied? || w.run.Marked?) && w.run.id in w.stages
  }

  ghost predicate Enabled(c: Codec, w: World, a: Action) {
    match a
    case Clear => w.run.Idle? && Importable(c, w) && w.site == Directory(EMPTY)
    case Start(id) =>
      && ((w.run.Idle? && w.site.Absent?) || w.run.Cleared?)
      && Importable(c, w) && id !in w.stages
    case Churn(_) => w.run.Staging? && HasStage(w)
    case Fill(v, r) =>
      && w.run.Staging? && HasStage(w) && w.legacy.Some? && w.legacy.value.Dir?
      && Exact(w.legacy.value, v, r) && NoLinkMet(w.legacy.value)
    case Mark(_) => w.run.Copied? && HasStage(w) && MarkerFits(w.stages[w.run.id])
    case Activate => w.run.Marked? && HasStage(w) && w.site.Absent?
    case Guard(_) =>
      && (w.run.Activated? || w.run.Idle?) && w.legacy.Some? && GuardFits(w.legacy.value)
      && !Consumed(c, w) && SiteVersion(c, w.site) >= VERSION
    case GiveUp(_) => !w.run.Idle?
    case Crash => true
    case User(_) => w.run.Idle?
  }

  function WithoutStage(w: World, left: Option<Volume>): map<nat, Volume> {
    if !HasStage(w) then w.stages
    else if left.Some? then w.stages[w.run.id := left.value] else w.stages - {w.run.id}
  }

  function Next(c: Codec, w: World, a: Action): World
    requires Enabled(c, w, a)
  {
    match a
    case Clear => w.(site := Absent, run := Cleared)
    case Start(id) => w.(stages := w.stages[id := EMPTY], run := Staging(id))
    case Churn(partial) => w.(stages := w.stages[w.run.id := partial])
    case Fill(v, r) => w.(stages := w.stages[w.run.id := v], run := Copied(w.run.id, r))
    case Mark(stamp) =>
      var v := WithMarker(w.stages[w.run.id], c.marker(w.run.report, stamp));
      w.(stages := w.stages[w.run.id := v], run := Marked(w.run.id))
    case Activate =>
      w.(site := Directory(w.stages[w.run.id]), stages := w.stages - {w.run.id}, run := Activated)
    case Guard(stamp) =>
      var seal := Sha256(w.site.volume.files[MARKER]);
      w.(legacy := Some(WithGuard(w.legacy.value, c.guard(seal, stamp))), run := Idle)
    case GiveUp(left) => w.(stages := WithoutStage(w, left), run := Idle)
    case Crash => w.(run := Idle)
    case User(site) => w.(site := site)
  }

  /** One step; `own` says that it is the migration's, not the user's. */
  ghost predicate Step(c: Codec, w: World, v: World, own: bool) {
    exists a :: Enabled(c, w, a) && v == Next(c, w, a) && (own ==> !a.User?)
  }

  ghost predicate IsRun(c: Codec, trace: seq<World>, own: bool) {
    |trace| > 0 && forall i :: 0 <= i < |trace| - 1 ==> Step(c, trace[i], trace[i + 1], own)
  }

  /** A legacy profile that was never imported, and no current one. */
  ghost predicate Initial(c: Codec, w: World) {
    && Importable(c, w) && (w.site == Absent || w.site == Directory(EMPTY))
    && w.stages == map[] && w.run == Idle
  }

  // ----- Safety -------------------------------------------------------------------------------

  /** The original legacy profile is `root`. */
  ghost predicate Inv(c: Codec, root: Profile, w: World) {
    && root.Dir? && ConsumedVersion(c, root) < VERSION && w.legacy.Some?
    && (w.site == Absent || w.site == Directory(EMPTY) || Complete(c, root, w.site))
    && (w.legacy.value == root
        || (exists content :: w.legacy.value == WithGuard(root, content) && c.version(content) == VERSION))
    && (Consumed(c, w) ==> Complete(c, root, w.site) && w.run.Idle?)
    && (!Consumed(c, w) ==> w.legacy.value == root)
    && (w.run.Cleared? || HasStage(w) ==> w.site == Absent)
    && ((w.run.Staging? || w.run.Copied? || w.run.Marked?) ==> HasStage(w))
    && (w.run.Copied? ==> Exact(root, w.stages[w.run.id], w.run.report))
    && (w.run.Marked? ==> Complete(c, root, Directory(w.stages[w.run.id])))
    && (w.run.Activated? ==> Complete(c, root, w.site))
  }

  lemma CompleteIsCurrent(c: Codec, root: Profile, s: Site)
    requires Sound(c) && Complete(c, root, s)
    ensures s.Directory? && SiteVersion(c, s) == VERSION && s != Directory(EMPTY)
  {
  }

  lemma InitialHasInv(c: Codec, w: World)
    requires Initial(c, w)
    ensures Inv(c, w.legacy.value, w)
  {
  }

  lemma StepKeepsInv(c: Codec, root: Profile, w: World, a: Action)
    requires Sound(c) && Inv(c, root, w) && Enabled(c, w, a) && !a.User?
    ensures Inv(c, root, Next(c, w, a))
  {
    var v := Next(c, w, a);
    match a
    case Mark(stamp) =>
      assert Exact(root, w.stages[w.run.id], w.run.report);
      assert Complete(c, root, Directory(v.stages[v.run.id]));
    case Guard(stamp) =>
      var content := c.guard(Sha256(w.site.volume.files[MARKER]), stamp);
      assert v.legacy.value == WithGuard(root, content) && c.version(content) == VERSION;
    case _ =>
  }

  lemma AnyStepKeepsInv(c: Codec, root: Profile, w: World, v: World)
    requires Sound(c) && Inv(c, root, w) && Step(c, w, v, true)
    ensures Inv(c, root, v)
  {
    var a :| Enabled(c, w, a) && v == Next(c, w, a) && !a.User?;
    StepKeepsInv(c, root, w, a);
  }

  lemma {:induction false} RunKeepsInv(c: Codec, root: Profile, trace: seq<World>, i: nat)
    requires Sound(c) && IsRun(c, trace, true) && Inv(c, root, trace[0]) && i < |trace|
    ensures Inv(c, root, trace[i])
  {
    if i > 0 {
      RunKeepsInv(c, root, trace, i - 1);
      assert Step(c, trace[i - 1], trace[i - 1 + 1], true);
      AnyStepKeepsInv(c, root, trace[i - 1], trace[i]);
    }
  }

  /** Whatever is interrupted and however often it is rerun, the current root is at every moment
      absent, empty or a complete verified copy with its marker; and once the legacy profile is
      marked as imported, the copy is there. */
  lemma SiteIsWhole(c: Codec, trace: seq<World>, i: nat)
    requires Sound(c) && IsRun(c, trace, true) && Initial(c, trace[0]) && i < |trace|
    ensures || trace[i].site == Absent || trace[i].site == Directory(EMPTY)
            || Complete(c, trace[0].legacy.value, trace[i].site)
    ensures Consumed(c, trace[i]) ==> Complete(c, trace[0].legacy.value, trace[i].site)
  {
    InitialHasInv(c, trace[0]);
    RunKeepsInv(c, trace[0].legacy.value, trace, i);
  }

  /** Data in the current root, the user's or a finished copy, is never touched by the migration. */
  lemma {:induction false} DataNeverTouched(c: Codec, trace: seq<World>, i: nat, j: nat)
    requires IsRun(c, trace, true) && i <= j < |trace|
    requires HasData(trace[i].site)
    ensures trace[j].site == trace[i].site
  {
    if i < j {
      DataNeverTouched(c, trace, i, j - 1);
      assert Step(c, trace[j - 1], trace[j - 1 + 1], true);
    }
  }

  /** Holds with the user acting, too: a run in progress is never one over an imported profile. */
  lemma {:induction false} ConsumedMeansIdle(c: Codec, trace: seq<World>, i: nat)
    requires Sound(c) && IsRun(c, trace, false) && Initial(c, trace[0]) && i < |trace|
    ensures Consumed(c, trace[i]) ==> trace[i].run.Idle?
  {
    if i > 0 {
      ConsumedMeansIdle(c, trace, i - 1);
      assert Step(c, trace[i - 1], trace[i - 1 + 1], false);
    }
  }

  /** After the import nothing is ever copied again - no staging directory appears, no step of the
      migration changes the current root - even if the user deletes or replaces that root. */
  lemma {:induction false} NeverImportedTwice(c: Codec, trace: seq<World>, i: nat, j: nat)
    requires Sound(c) && IsRun(c, trace, false) && Initial(c, trace[0]) && i <= j < |trace|
    requires Consumed(c, trace[i])
    ensures Consumed(c, trace[j]) && trace[j].legacy == trace[i].legacy
    ensures trace[j].stages == trace[i].stages && trace[j].run.Idle?
    ensures j + 1 < |trace| && Step(c, trace[j], trace[j + 1], true) ==> trace[j + 1] == trace[j]
  {
    if i < j {
      NeverImportedTwice(c, trace, i, j - 1);
      assert Step(c, trace[j - 1], trace[j - 1 + 1], false);
    } else {
      ConsumedMeansIdle(c, trace, i);
    }
  }

  /** The legacy tree differs from the original at most by the replay guard. */
  ghost predicate OnlyGuarded(c: Codec, before: Option<Profile>, after: Option<Profile>) {
    || after == before
    || (before.Some? && GuardFits(before.value)
        && exists content :: after == Some(WithGuard(before.value, content)) && c.version(content) == VERSION)
  }

  lemma {:induction false} LegacyRetained(c: Codec, trace: seq<World>, i: nat)
    requires Sound(c) && IsRun(c, trace, false) && Initial(c, trace[0]) && i < |trace|
    ensures OnlyGuarded(c, trace[0].legacy, trace[i].legacy)
    ensures trace[i].legacy == trace[0].legacy || Consumed(c, trace[i])
  {
    if i > 0 {
      LegacyRetained(c, trace, i - 1);
      assert Step(c, trace[i - 1], trace[i - 1 + 1], false);
      var w := trace[i - 1];
      var a :| Enabled(c, w, a) && trace[i] == Next(c, w, a);
      if a.Guard? {
        var content := c.guard(Sha256(w.site.volume.files[MARKER]), a.stamp);
        assert trace[i].legacy == Some(WithGuard(w.legacy.value, content)) && c.version(content) == VERSION;
      }
    }
  }

  /** The guard changes no other entry, and the pruned profile not at all. */
  lemma GuardChangesNothingElse(t: Profile, content: Bytes, p: Path)
    requires GuardFits(t)
    ensures p != [] && p[0] != REPLAY_GUARD ==> At(WithGuard(t, content), p) == At(t, p)
    ensures Pruned(WithGuard(t, content)) == Pruned(t)
  {
    assert Lower(REPLAY_GUARD) == REPLAY_GUARD;
    var g := WithGuard(t, content);
    forall n ensures
      (n in g.entries && Carried(n, g.entries[n])) <==> (n in t.entries && Carried(n, t.entries[n]))
    {
    }
    assert Pruned(g).entries == Pruned(t).entries;
  }

  // ----- The code -----------------------------------------------------------------------------

  datatype Outcome =
    | NoLegacy | UnsafeLegacy | RootsOverlap | AlreadyCompleted | AlreadyOwned | AlreadyConsumed
    | Migrated | Failed

  class Migrator {
    const codec: Codec
    const source: string
    const destination: string
    var world: World
    var script: seq<Io>
    ghost var trace: seq<World>

    ghost predicate Valid()
      reads this
    {
      Sound(codec) && IsRun(codec, trace, true) && trace[|trace| - 1] == world
    }

    constructor (codec: Codec, source: string, destination: string, start: World, script: seq<Io>)
      requires Sound(codec)
      ensures Valid() && world == start && trace == [start] && this.script == script
      ensures this.codec == codec && this.source == source && this.destination == destination
    {
      this.codec, this.source, this.destination := codec, source, destination;
      world, this.script, trace := start, script, [start];
    }

    method Do(a: Action)
      requires Valid() && Enabled(codec, world, a) && !a.User?
      modifies this`world, this`trace
      ensures Valid() && world == Next(codec, old(world), a) && trace == old(trace) + [world]
    {
      assert Step(codec, world, Next(codec, world, a), true);
      world := Next(codec, world, a);
      trace := trace + [world];
    }

    /** One file operation outside the copy: it works or it does not. */
    method Succeeds() returns (ok: bool)
      modifies this`script
      ensures old(script) == [] ==> ok && script == []
    {
      if script == [] { return true; }
      ok := script[0] != Fails;
      script := script[1..];
    }

    /** The staged copy and the report about it; fails, without I/O faults, exactly on a link met. */
    method CopyProfile() returns (r: Option<(Volume, Report)>)
      requires world.legacy.Some? && world.legacy.value.Dir?
      modifies this`script
      ensures r.Some? ==> Exact(world.legacy.value, r.value.0, r.value.1) && NoLinkMet(world.legacy.value)
      ensures old(script) == [] ==> script == [] && (r.Some? <==> NoLinkMet(world.legacy.value))
    {
      var root := world.legacy.value;
      var stage := new Stage(root, script);
      assert StagedDir(root, []);
      var ok := stage.CopyTree([]);
      script := stage.script;
      NoLinkAnywhere(root);
      if !ok { return None; }
      stage.HoldsImage();
      var v := Volume(stage.files, stage.dirs);
      return Some((v, Report(stage.copiedFiles, stage.copiedBytes, stage.skipped)));
    }

    /** writeLegacyConsumedMarker. */
    method WriteGuard(stamp: nat) returns (ok: bool)
      requires Valid() && (world.run.Idle? || world.run.Activated?)
      requires world.legacy.Some? && !Consumed(codec, world) && SiteVersion(codec, world.site) >= VERSION
      modifies this`world, this`trace, this`script
      ensures Valid() && old(trace) <= trace && world.run.Idle? && world.site == old(world).site
      ensures ok ==> Consumed(codec, world)
      ensures !ok ==> world.legacy == old(world).legacy
      ensures OnlyGuarded(codec, old(world).legacy, world.legacy)
      ensures old(script) == [] ==> script == [] && (ok <==> GuardFits(old(world).legacy.value))
    {
      ok := Succeeds();
      if ok && GuardFits(world.legacy.value) {
        ghost var content := codec.guard(Sha256(world.site.volume.files[MARKER]), stamp);
        Do(Guard(stamp));
        assert world.legacy == Some(WithGuard(old(world).legacy.value, content));
      } else {
        ok := false;
        if !world.run.Idle? { Do(GiveUp(None)); }
      }
    }

    /** The verified copy in a staging directory of its own. */
    method StageCopy(id: nat) returns (ok: bool)
      requires Valid() && Enabled(codec, world, Start(id))
      modifies this`world, this`trace, this`script
      ensures Valid() && old(trace) <= trace && world.legacy == old(world).legacy
      ensures world.site == old(world).site
      ensures ok ==> world.run.Copied? && HasStage(world) && NoLinkMet(world.legacy.value)
                     && Exact(world.legacy.value, world.stages[world.run.id], world.run.report)
      ensures !ok ==> world.run.Idle?
      ensures old(script) == [] ==> script == [] && (ok <==> NoLinkMet(world.legacy.value))
    {
      Do(Start(id));
      var copy := CopyProfile();
      if copy == None { Do(GiveUp(None)); return false; }
      Do(Fill(copy.value.0, copy.value.1));
      return true;
    }

    /** writeMarker: the report joins the staged copy. */
    method MarkStage(stamp: nat) returns (ok: bool)
      requires Valid() && world.run.Copied? && HasStage(world) && world.legacy.Some?
      requires Exact(world.legacy.value, world.stages[world.run.id], world.run.report)
      modifies this`world, this`trace, this`script
      ensures Valid() && old(trace) <= trace && world.legacy == old(world).legacy && world.site == old(world).site
      ensures ok ==> world.run.Marked? && HasStage(world)
                     && Complete(codec, world.legacy.value, Directory(world.stages[world.run.id]))
      ensures !ok ==> world.run.Idle?
      ensures old(script) == [] ==>
                script == [] && (ok <==> MarkerFits(old(world).stages[old(world).run.id]))
    {
      ok := Succeeds();
      if !ok || !MarkerFits(world.stages[world.run.id]) { Do(GiveUp(None)); return false; }
      ghost var v, report := world.stages[world.run.id], world.run.report;
      Do(Mark(stamp));
      assert Exact(world.legacy.value, v, report);
      assert world.stages[world.run.id] == WithMarker(v, codec.marker(report, stamp));
    }

    /** A staging directory that is ready to be activated. */
    method PrepareStage(id: nat, stamp: nat) returns (ok: bool)
      requires Valid() && Enabled(codec, world, Start(id))
      modifies this`world, this`trace, this`script
      ensures Valid() && old(trace) <= trace && world.legacy == old(world).legacy && world.site == old(world).site
      ensures ok ==> world.run.Marked? && HasStage(world)
                     && Complete(codec, world.legacy.value, Directory(world.stages[world.run.id]))
      ensures !ok ==> world.run.Idle?
      ensures old(script) == [] ==> script == [] && (ok <==> ImportClear(world.legacy.value))
    {
      ok := StageCopy(id);
      if !ok { return; }
      MarkerFitsIff(world.legacy.value, world.stages[world.run.id]);
      ok := MarkStage(stamp);
    }

    /** The rename that activates it. */
    method ActivateStage() returns (ok: bool)
      requires Valid() && world.run.Marked? && HasStage(world) && world.site.Absent? && world.legacy.Some?
      requires Complete(codec, world.legacy.value, Directory(world.stages[world.run.id]))
      modifies this`world, this`trace, this`script
      ensures Valid() && old(trace) <= trace && world.legacy == old(world).legacy
      ensures ok ==> world.run.Activated? && Complete(codec, world.legacy.value, world.site)
      ensures !ok ==> world.run.Idle? && world.site == Absent
      ensures old(script) == [] ==> ok && script == []
    {
      ok := Succeeds();
      if !ok { Do(GiveUp(None)); return; }
      Do(Activate);
    }

    /** From an absent root to an activated copy. */
    method Import(id: nat, stamp: nat) returns (ok: bool)
      requires Valid() && Enabled(codec, world, Start(id)) && world.site.Absent?
      modifies this`world, this`trace, this`script
      ensures Valid() && old(trace) <= trace && world.legacy == old(world).legacy
      ensures ok ==> world.run.Activated? && Complete(codec, world.legacy.value, world.site)
      ensures !ok ==> world.run.Idle? && world.site == Absent
      ensures old(script) == [] ==> script == [] && (ok <==> ImportClear(world.legacy.value))
    {
      ok := PrepareStage(id, stamp);
      if !ok { return; }
      ok := ActivateStage();
    }

    /** With the way free: the import, and then the guard. */
    method ImportAndMark(id: nat, stamp: nat) returns (r: Outcome)
      requires Valid() && world.site.Absent? && (world.run.Idle? || world.run.Cleared?)
      requires Importable(codec, world)
      modifies this`world, this`trace, this`script
      ensures Valid() && old(trace) <= trace && world.run.Idle?
      ensures OnlyGuarded(codec, old(world).legacy, world.legacy)
      ensures world.site == Absent || Complete(codec, old(world).legacy.value, world.site)
      ensures r.Migrated? || r.Failed?
      ensures r.Migrated? ==> Consumed(codec, world) && world.site != Absent
      ensures r.Failed? ==> world.legacy == old(world).legacy
      ensures old(script) == [] && id !in old(world).stages ==>
                r == if GuardFits(old(world).legacy.value) && ImportClear(old(world).legacy.value)
                     then Migrated else Failed
    {
      if id in world.stages {
        if world.run.Cleared? { Do(GiveUp(None)); }
        return Failed;
      }
      var ok := Import(id, stamp);
      if !ok { return Failed; }
      CompleteIsCurrent(codec, world.legacy.value, world.site);
      ok := WriteGuard(stamp);
      return if ok then Migrated else Failed;
    }

    /** migrateData.  Whatever fails on the way, every state it leads through is one of the protocol's;
        the legacy profile changes by the guard only, data in the current root not at all, and the
        root is never left holding anything but a complete copy.  Undisturbed, the outcome is exactly
        the one the two roots call for. */
    method MigrateData(id: nat, stamp: nat) returns (r: Outcome)
      requires Valid() && world.run.Idle?
      modifies this`world, this`trace, this`script
      ensures Valid() && old(trace) <= trace && world.run.Idle?
      ensures Consumed(codec, old(world)) ==> world == old(world)
      ensures OnlyGuarded(codec, old(world).legacy, world.legacy)
      ensures HasData(old(world).site) ==> world.site == old(world).site
      ensures world.site != old(world).site && world.site != Absent ==>
                old(world).legacy.Some? && Complete(codec, old(world).legacy.value, world.site)
      ensures Settled(old(world)).Some? ==> r == Settled(old(world)).value && world == old(world)
      ensures Settled(old(world)) == None ==> r.AlreadyCompleted? || r.Migrated? || r.Failed?
      ensures r.AlreadyCompleted? ==> Consumed(codec, world) && SiteVersion(codec, world.site) >= VERSION
      ensures r.Migrated? ==> Consumed(codec, world) && old(world).legacy.Some?
                              && Complete(codec, old(world).legacy.value, world.site)
      ensures r.Failed? ==> world.legacy == old(world).legacy
      ensures old(script) == [] && id !in old(world).stages && Settled(old(world)) == None ==>
                r == Undisturbed(old(world))
    {
      if world.legacy == None { return NoLegacy; }
      if !world.legacy.value.Dir? { return UnsafeLegacy; }
      if Overlap(source, destination) { return RootsOverlap; }
      var consumed := Consumed(codec, world);
      if world.site != Absent {
        if SiteVersion(codec, world.site) >= VERSION {
          if consumed { return AlreadyCompleted; }
          var ok := WriteGuard(stamp);
          return if ok then AlreadyCompleted else Failed;
        }
        if world.site != Directory(EMPTY) { return AlreadyOwned; }
        if consumed { return AlreadyConsumed; }
        var ok := Succeeds();
        if !ok { return Failed; }
        Do(Clear);
      }
      if consumed { return AlreadyConsumed; }
      r := ImportAndMark(id, stamp);
    }

    /** The outcomes that leave everything as it is. */
    function Settled(w: World): Option<Outcome> {
      if w.legacy == None then Some(NoLegacy)
      else if !w.legacy.value.Dir? then Some(UnsafeLegacy)
      else if Overlap(source, destination) then Some(RootsOverlap)
      else if SiteVersion(codec, w.site) >= VERSION then
        if Consumed(codec, w) then Some(AlreadyCompleted) else None
      else if HasData(w.site) then Some(AlreadyOwned)
      else if Consumed(codec, w) then Some(AlreadyConsumed)
      else None
    }

    /** Otherwise the guard is to be written, in most cases behind an import. */
    ghost function Undisturbed(w: World): Outcome
      requires Settled(w) == None
    {
      if !GuardFits(w.legacy.value) then Failed
      else if SiteVersion(codec, w.site) >= VERSION then AlreadyCompleted
      else if ImportClear(w.legacy.value) then Migrated
      else Failed
    }
  }

  lemma MarkerFitsIff(root: Profile, v: Volume)
    requires IsImage(root, v)
    ensures MarkerFits(v) && NoLinkMet(root) <==> ImportClear(root)
  {
  }

  /** Nothing in the profile makes its import fail: no link is met, and the marker finds its place. */
  ghost predicate ImportClear(root: Profile) {
    NoLinkMet(root) && !StagedFile(root, STATE) && !StagedDir(root, MARKER)
  }
}
