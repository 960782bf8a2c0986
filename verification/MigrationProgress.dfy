/** What a migration can always still do: from whatever a crash has left, reruns reach the imported
    state exactly when nothing in the legacy profile stands in the way. */
module MigrationProgress {
  import opened Wrappers
  import opened Collections
  import opened FileTree
  import opened ProfileTree
  import opened ProfileCopy
  import opened Migration

  /** The migration's own steps lead from one state to the other. */
  ghost predicate Reaches(c: Codec, w: World, v: World) {
    exists trace :: IsRun(c, trace, true) && trace[0] == w && trace[|trace| - 1] == v
  }

  lemma ReachesSelf(c: Codec, w: World)
    ensures Reaches(c, w, w)
  {
    assert IsRun(c, [w], true);
  }

  lemma Extend(c: Codec, w: World, v: World, a: Action)
    requires Reaches(c, w, v) && Enabled(c, v, a) && !a.User?
    ensures Reaches(c, w, Next(c, v, a))
  {
    var trace :| IsRun(c, trace, true) && trace[0] == w && trace[|trace| - 1] == v;
    var longer := trace + [Next(c, v, a)];
    forall i | 0 <= i < |longer| - 1 ensures Step(c, longer[i], longer[i + 1], true) {
      if i < |trace| - 1 { assert Step(c, trace[i], trace[i + 1], true); }
    }
    assert IsRun(c, longer, true);
  }

  // ----- An image exists ----------------------------------------------------------------------

  function Paths(t: Profile): set<Path> {
    {[]} + if t.Dir? then set n, p | n in t.entries && p in Paths(t.entries[n]) :: [n] + p else {}
  }

  lemma {:induction false} PathsAreAll(t: Profile, p: Path)
    requires At(t, p).Some?
    ensures p in Paths(t)
    decreases |p|
  {
    if p != [] {
      PathsAreAll(t.entries[p[0]], p[1..]);
      assert p == [p[0]] + p[1..];
    }
  }

  ghost function Image(root: Profile): Volume {
    Volume(map p | p in Paths(root) && StagedFile(root, p) :: At(root, p).value.content,
           set p | p in Paths(root) && StagedDir(root, p))
  }

  lemma ImageIsImage(root: Profile)
    ensures IsImage(root, Image(root))
  {
    forall p | At(root, p).Some? ensures p in Paths(root) { PathsAreAll(root, p); }
  }

  lemma {:induction false} Listed(s: set<Path>) returns (list: seq<Path>)
    ensures forall p :: p in list <==> p in s
    ensures NoDup(list)
  {
    if s == {} {
      list := [];
    } else {
      var p :| p in s;
      list := Listed(s - {p});
      list := [p] + list;
    }
  }

  lemma ReportExists(root: Profile) returns (r: Report)
    ensures Exact(root, Image(root), r)
  {
    ImageIsImage(root);
    var skipped := Listed(set p | p in Paths(root) && Skipped(root, p));
    forall p | Skipped(root, p) ensures p in Paths(root) { PathsAreAll(root, p); }
    r := Report(|Image(root).files|, TotalSize(Image(root).files), skipped);
  }

  // ----- Nothing in the way: some continuation imports ----------------------------------------

  lemma FromAbsent(c: Codec, root: Profile, w: World, v: World) returns (t: World)
    requires Sound(c) && Reaches(c, w, v) && GuardFits(root) && ImportClear(root)
    requires v.legacy == Some(root) && !Consumed(c, v) && v.site == Absent && (v.run.Idle? || v.run.Cleared?)
    ensures Reaches(c, w, t) && Consumed(c, t) && Complete(c, root, t.site) && t.run.Idle?
  {
    var id := NumberAbove(v.stages.Keys);
    var image := Image(root);
    var r := ReportExists(root);
    Extend(c, w, v, Start(id));
    var a := Next(c, v, Start(id));
    Extend(c, w, a, Fill(image, r));
    var b := Next(c, a, Fill(image, r));
    Extend(c, w, b, Mark(0));
    var d := Next(c, b, Mark(0));
    Extend(c, w, d, Activate);
    var e := Next(c, d, Activate);
    assert e.site == Directory(WithMarker(image, c.marker(r, 0)));
    assert Complete(c, root, e.site);
    t := FromComplete(c, root, w, e);
  }

  lemma FromComplete(c: Codec, root: Profile, w: World, v: World) returns (t: World)
    requires Sound(c) && Reaches(c, w, v) && GuardFits(root) && v.legacy == Some(root) && !Consumed(c, v)
    requires Complete(c, root, v.site) && (v.run.Idle? || v.run.Activated?)
    ensures Reaches(c, w, t) && Consumed(c, t) && Complete(c, root, t.site) && t.run.Idle?
  {
    CompleteIsCurrent(c, root, v.site);
    Extend(c, w, v, Guard(0));
    t := Next(c, v, Guard(0));
  }

  /** Whatever a crash has left behind, the import can be completed, and ends in a complete copy. */
  lemma RerunImports(c: Codec, root: Profile, w: World) returns (t: World)
    requires Sound(c) && Inv(c, root, w) && GuardFits(root) && ImportClear(root)
    ensures Reaches(c, w, t) && Consumed(c, t) && Complete(c, root, t.site) && t.run.Idle?
  {
    ReachesSelf(c, w);
    if Consumed(c, w) {
      t := w;
    } else {
      Extend(c, w, w, Crash);
      var v := Next(c, w, Crash);
      if v.site == Absent {
        t := FromAbsent(c, root, w, v);
      } else if v.site == Directory(EMPTY) {
        Extend(c, w, v, Clear);
        t := FromAbsent(c, root, w, Next(c, v, Clear));
      } else {
        t := FromComplete(c, root, w, v);
      }
    }
  }

  // ----- Something in the way: none does ------------------------------------------------------

  /** What has been achieved could be. */
  ghost predicate Earned(c: Codec, root: Profile, w: World) {
    && (HasData(w.site) || w.run.Marked? || w.run.Activated? ==> ImportClear(root))
    && (w.run.Copied? ==> NoLinkMet(root))
    && (Consumed(c, w) ==> ImportClear(root) && GuardFits(root))
  }

  lemma StepKeepsEarned(c: Codec, root: Profile, w: World, a: Action)
    requires Sound(c) && Inv(c, root, w) && Earned(c, root, w) && Enabled(c, w, a) && !a.User?
    ensures Earned(c, root, Next(c, w, a))
  {
    match a
    case Mark(stamp) => MarkerFitsIff(root, w.stages[w.run.id]);
    case Guard(stamp) => assert HasData(w.site);
    case _ =>
  }

  lemma {:induction false} RunKeepsEarned(c: Codec, root: Profile, trace: seq<World>, i: nat)
    requires Sound(c) && IsRun(c, trace, true) && i < |trace|
    requires Inv(c, root, trace[0]) && Earned(c, root, trace[0])
    ensures Inv(c, root, trace[i]) && Earned(c, root, trace[i])
  {
    if i > 0 {
      RunKeepsEarned(c, root, trace, i - 1);
      assert Step(c, trace[i - 1], trace[i - 1 + 1], true);
      var a :| Enabled(c, trace[i - 1], a) && trace[i] == Next(c, trace[i - 1], a) && !a.User?;
      StepKeepsInv(c, root, trace[i - 1], a);
      StepKeepsEarned(c, root, trace[i - 1], a);
    }
  }

  /** Reruns converge: from every state of every run, crashes included, the imported state can be
      reached exactly when no link is met in the legacy profile and both markers find their place. */
  lemma ImportReachableIff(c: Codec, trace: seq<World>, i: nat)
    requires Sound(c) && IsRun(c, trace, true) && Initial(c, trace[0]) && i < |trace|
    ensures var root := trace[0].legacy.value;
            (exists t :: Reaches(c, trace[i], t) && Consumed(c, t)) <==> GuardFits(root) && ImportClear(root)
  {
    var root := trace[0].legacy.value;
    InitialHasInv(c, trace[0]);
    RunKeepsEarned(c, root, trace, i);
    if GuardFits(root) && ImportClear(root) {
      var t := RerunImports(c, root, trace[i]);
    } else if t :| Reaches(c, trace[i], t) && Consumed(c, t) {
      var more :| IsRun(c, more, true) && more[0] == trace[i] && more[|more| - 1] == t;
      RunKeepsEarned(c, root, more, |more| - 1);
    }
  }
}
