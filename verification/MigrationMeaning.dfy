/** What a migration leaves and answers, told from names, entries and conditions alone. */
module MigrationMeaning {
  import opened Wrappers
  import opened Checklist
  import opened Octets
  import opened FileTree
  import opened ProfileTree
  import opened ProfileNames
  import opened ProfileCopy
  import opened Migration

  // ----- The copy -----------------------------------------------------------------------------

  /** The files and directories of `root` that are carried over, by their names, and the report on them. */
  ghost predicate CopyOf(root: Profile, v: Volume, r: Report) {
    && ByName(root, v.files.Keys, v.dirs, r.skipped, [])
    && (forall p :: p in v.files ==> At(root, p) == Some(File(v.files[p])))
    && r.files == |v.files| && r.bytes == TotalSize(v.files)
    && (forall i, j :: 0 <= i < j < |r.skipped| ==> r.skipped[i] != r.skipped[j])
  }

  /** The copy with its marker in the state directory. */
  ghost predicate MarkedCopy(c: Codec, root: Profile, s: Site) {
    exists v, r, stamp: nat ::
      && CopyOf(root, v, r)
      && s == Directory(Volume(v.files[["state", "brand-migration.json"] := c.marker(r, stamp)], v.dirs + {["state"]}))
  }

  /** A finished root is the copy by names, with its marker. */
  lemma CompleteIsMarkedCopy(c: Codec, root: Profile, s: Site)
    requires root.Dir? && Complete(c, root, s) && NoLinkMet(root)
    ensures MarkedCopy(c, root, s)
  {
    var v, r, stamp: nat :| Exact(root, v, r) && s == Directory(WithMarker(v, c.marker(r, stamp)));
    ExactIsCopy(root, v, r);
  }

  lemma ExactIsCopy(root: Profile, v: Volume, r: Report)
    requires root.Dir? && Exact(root, v, r) && NoLinkMet(root)
    ensures CopyOf(root, v, r)
  {
    assert StagedDir(root, []);
    StagedByName(root, v.files.Keys, v.dirs, r.skipped, []);
  }

  // ----- Marker and guard ---------------------------------------------------------------------

  /** The current root holds a marker of this version or a later one. */
  predicate Current(c: Codec, s: Site) {
    && s.Directory? && ["state", "brand-migration.json"] in s.volume.files
    && c.version(s.volume.files[["state", "brand-migration.json"]]) >= 1
  }

  const GUARD: Name := ".granger-migration-v1.json"

  /** The legacy profile holds a guard of this version or a later one, as a regular file. */
  predicate Guarded(c: Codec, t: Profile) {
    t.Dir? && GUARD in t.entries && t.entries[GUARD].File? && c.version(t.entries[GUARD].content) >= 1
  }

  /** Nothing but a regular file stands where the guard goes. */
  predicate GuardHasPlace(t: Profile) {
    t.Dir? && (GUARD !in t.entries || t.entries[GUARD].File?)
  }

  /** The version of what has none is below every version asked for. */
  lemma CurrentIff(c: Codec, s: Site)
    ensures SiteVersion(c, s) >= VERSION <==> Current(c, s)
  {
  }

  lemma GuardedIff(c: Codec, w: World)
    ensures Consumed(c, w) <==> w.legacy.Some? && Guarded(c, w.legacy.value)
  {
  }

  /** Writing the guard sets this entry and no other. */
  lemma GuardIs(t: Profile, content: Bytes)
    requires t.Dir?
    ensures WithGuard(t, content) == Dir(t.entries[".granger-migration-v1.json" := File(content)])
  {
  }

  // ----- The answer ---------------------------------------------------------------------------

  /** An absent root, or an empty directory. */
  predicate NothingThere(s: Site) {
    s.Absent? || (s.Directory? && s.volume.files == map[] && s.volume.dirs == {[]})
  }

  /** One root lies in the other, or they are the same. */
  predicate Entangled(source: string, destination: string) {
    PathInside(source, destination) || PathInside(destination, source)
  }

  ghost predicate CanBeCopied(root: Profile) {
    && (forall p :: !Refused(root, p))
    && !StagedFile(root, ["state"]) && !StagedDir(root, ["state", "brand-migration.json"])
  }

  /** What an undisturbed run answers, in this order. */
  ghost function Answers(c: Codec, source: string, destination: string, w: World): seq<(bool, Outcome)> {
    [(w.legacy != None, NoLegacy)]
    + if w.legacy == None then []
      else
        var t := w.legacy.value;
        [(t.Dir?, UnsafeLegacy), (!Entangled(source, destination), RootsOverlap),
         (Current(c, w.site) && !Guarded(c, t) ==> GuardHasPlace(t), Failed), (!Current(c, w.site), AlreadyCompleted),
         (NothingThere(w.site), AlreadyOwned), (!Guarded(c, t), AlreadyConsumed),
         (GuardHasPlace(t) && CanBeCopied(t), Failed), (false, Migrated)]
  }

  ghost function Answer(m: Migrator, w: World): Outcome {
    if m.Settled(w).Some? then m.Settled(w).value else m.Undisturbed(w)
  }

  lemma EightAnswers(a: seq<(bool, Outcome)>)
    requires |a| == 8
    ensures FirstFault(a)
            == if FirstFault(a[..4]).Some? then FirstFault(a[..4]) else FirstFault(a[4..])
  {
    assert a == a[..4] + a[4..];
    FirstFaultOfSum(a[..4], a[4..]);
  }

  lemma AnswerOf(c: Codec, source: string, destination: string, w: World)
    requires w.legacy.Some?
    ensures FirstFault(Answers(c, source, destination, w))
            == var t := w.legacy.value;
               if !t.Dir? then Some(UnsafeLegacy)
               else if Entangled(source, destination) then Some(RootsOverlap)
               else if Current(c, w.site) then
                 if Guarded(c, t) || GuardHasPlace(t) then Some(AlreadyCompleted) else Some(Failed)
               else if !NothingThere(w.site) then Some(AlreadyOwned)
               else if Guarded(c, t) then Some(AlreadyConsumed)
               else if GuardHasPlace(t) && CanBeCopied(t) then Some(Migrated) else Some(Failed)
  {
    var all := Answers(c, source, destination, w);
    Behind(all);
    EightAnswers(all[1..]);
    FourChecks(all[1..][..4]);
    FourChecks(all[1..][4..]);
  }

  /** The answer of an undisturbed run is the first of these that applies. */
  lemma AnswerIsFirst(m: Migrator, w: World)
    ensures Some(Answer(m, w)) == FirstFault(Answers(m.codec, m.source, m.destination, w))
  {
    CurrentIff(m.codec, w.site);
    GuardedIff(m.codec, w);
    if w.legacy == None {
      Behind(Answers(m.codec, m.source, m.destination, w));
    } else {
      AnswerOf(m.codec, m.source, m.destination, w);
    }
  }
}
