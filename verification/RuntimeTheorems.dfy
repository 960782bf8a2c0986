/** When a freshly created manifest loads, and when a package passes the check against it. */
module RuntimeTheorems {
  import opened Wrappers
  import opened Chunks
  import opened Collections
  import opened Octets
  import opened FileTree
  import opened CanonicalJson
  import opened CanonicalRoundTrip
  import opened CanonicalLimits
  import opened RelativePath
  import opened RuntimeCollector
  import opened RuntimeManifest
  import opened Text

  // ----- Duplicates ---------------------------------------------------------------------------

  lemma {:induction false} NoDupByCount<T(!new)>(s: seq<T>)
    ensures NoDup(s) <==> forall x :: multiset(s)[x] <= 1
  {
    if s != [] {
      var init, last := s[..|s| - 1], s[|s| - 1];
      NoDupByCount(init);
      assert s == init + [last];
      if NoDup(init) && last in init {
        assert multiset(s)[last] == multiset(init)[last] + 1 && last in multiset(init);
        var i :| 0 <= i < |init| && init[i] == last;
        assert s[i] == s[|s| - 1];
      } else if NoDup(init) {
        assert last !in multiset(init);
      } else {
        var i, j :| 0 <= i < j < |init| && init[i] == init[j];
        assert s[i] == s[j];
        var x :| multiset(init)[x] > 1;
        assert multiset(s)[x] > 1;
      }
    }
  }

  ghost predicate Disjoint(segments: seq<seq<Place>>) {
    forall i, j, p :: 0 <= i < j < |segments| && p in segments[i] ==> p !in segments[j]
  }

  lemma {:induction false} InConcat(segments: seq<seq<Place>>, p: Place)
    ensures p in Concat(segments) <==> exists i :: 0 <= i < |segments| && p in segments[i]
  {
    if segments != [] {
      InConcat(segments[1..], p);
      if exists i :: 0 <= i < |segments| && p in segments[i] {
        var i :| 0 <= i < |segments| && p in segments[i];
        if i > 0 { assert segments[1..][i - 1] == segments[i]; }
      }
      if p in Concat(segments[1..]) {
        var i :| 0 <= i < |segments[1..]| && p in segments[1..][i];
        assert p in segments[i + 1];
      }
    }
  }

  /** A list made of duplicate-free segments is duplicate-free exactly when they are disjoint. */
  lemma {:induction false} ConcatNoDup(segments: seq<seq<Place>>)
    requires forall i :: 0 <= i < |segments| ==> NoDup(segments[i])
    ensures NoDup(Concat(segments)) <==> Disjoint(segments)
  {
    if segments != [] {
      var rest := segments[1..];
      ConcatNoDup(rest);
      ConcatTwo(segments[0], Concat(rest));
      forall p ensures p in Concat(rest) <==> exists j :: 0 < j < |segments| && p in segments[j] {
        InConcat(rest, p);
        if p in Concat(rest) {
          var j :| 0 <= j < |rest| && p in rest[j];
          assert p in segments[j + 1];
        }
        if exists j :: 0 < j < |segments| && p in segments[j] {
          var j :| 0 < j < |segments| && p in segments[j];
          assert p in rest[j - 1];
        }
      }
      DisjointRest(segments);
    }
  }

  lemma ConcatTwo(a: seq<Place>, b: seq<Place>)
    requires NoDup(a)
    ensures NoDup(a + b) <==> NoDup(b) && forall p :: p in a ==> p !in b
  {
    var s := a + b;
    if NoDup(s) {
      forall i, j | 0 <= i < j < |b| ensures b[i] != b[j] { assert s[|a| + i] != s[|a| + j]; }
      forall p | p in a ensures p !in b {
        var i :| 0 <= i < |a| && a[i] == p;
        forall j | 0 <= j < |b| ensures b[j] != p { assert s[i] != s[|a| + j]; }
      }
    } else if NoDup(b) && forall p :: p in a ==> p !in b {
      forall i, j | 0 <= i < j < |s| ensures s[i] != s[j] {
        if i < |a| <= j { assert s[i] in a && s[j] in b; }
      }
    }
  }

  lemma DisjointRest(segments: seq<seq<Place>>)
    requires segments != []
    ensures Disjoint(segments) <==>
              && Disjoint(segments[1..])
              && forall j, p :: 0 < j < |segments| && p in segments[0] ==> p !in segments[j]
  {
  }

  // ----- The records of a collection ----------------------------------------------------------

  /** A file below one of the roots. */
  ghost predicate Managed(pkg: Package, roots: seq<Codes>, p: Place) {
    IsFile(pkg, p) && exists i :: 0 <= i < |roots| && PlaceOf(roots[i]) <= p
  }

  lemma PlacesAreManaged(pkg: Package, roots: seq<Codes>, places: seq<Place>, segments: seq<seq<Place>>, p: Place)
    requires Segmented(pkg, roots, places, segments)
    ensures p in places <==> Managed(pkg, roots, p)
  {
    InConcat(segments, p);
    if Managed(pkg, roots, p) {
      var i :| 0 <= i < |roots| && PlaceOf(roots[i]) <= p;
      assert p in segments[i];
    }
  }

  lemma SpellIsFaithful(pkg: Package, p: Place)
    requires WellNamed(pkg) && p != [] && At(pkg, p).Some?
    ensures SlashFree(p) && Spell(p) != DOT && Spell(p) != [] && Split(Spell(p), SLASH) == p && AreParts(p)
  {
    assert AreParts(p) && IsPart(p[0]);
    SplitOfJoin(p, SLASH);
    DotSplits();
  }

  lemma DotSplits()
    ensures Split(DOT, SLASH) == [DOT] && PlaceOf(DOT) == []
  {
    SplitOfJoin([DOT], SLASH);
    assert Meaningful([DOT]) == [];
  }

  lemma WalkBehind(pkg: Package, hash: Bytes -> Codes, roots: seq<Codes>, files: seq<Record>)
      returns (places: seq<Place>, segments: seq<seq<Place>>)
    requires IsCollection(pkg, hash, roots, files)
    ensures Behind(pkg, hash, roots, files, places, segments)
  {
    places, segments :| Behind(pkg, hash, roots, files, places, segments);
  }

  lemma SameElements<T(!new)>(a: seq<T>, b: seq<T>, x: T)
    requires multiset(a) == multiset(b)
    ensures x in a <==> x in b
  {
    assert x in a <==> x in multiset(a);
  }

  /** Every record is that of a managed file. */
  lemma RecordHasFile(pkg: Package, hash: Bytes -> Codes, roots: seq<Codes>, files: seq<Record>, r: Record)
      returns (p: Place)
    requires IsCollection(pkg, hash, roots, files) && r in files
    ensures Managed(pkg, roots, p) && p != [] && r == RecordAt(pkg, hash, p)
  {
    var places, segments := WalkBehind(pkg, hash, roots, files);
    var rs := RecordsAt(pkg, hash, places);
    SameElements(files, rs, r);
    var i :| 0 <= i < |rs| && rs[i] == r;
    p := places[i];
    PlacesAreManaged(pkg, roots, places, segments, p);
  }

  /** Every managed file has its record. */
  lemma FileHasRecord(pkg: Package, hash: Bytes -> Codes, roots: seq<Codes>, files: seq<Record>, p: Place)
    requires IsCollection(pkg, hash, roots, files) && Managed(pkg, roots, p) && p != []
    ensures RecordAt(pkg, hash, p) in files
  {
    var places, segments := WalkBehind(pkg, hash, roots, files);
    var rs := RecordsAt(pkg, hash, places);
    PlacesAreManaged(pkg, roots, places, segments, p);
    var i :| 0 <= i < |places| && places[i] == p;
    assert rs[i] == RecordAt(pkg, hash, p) && rs[i] in rs;
    SameElements(files, rs, rs[i]);
  }

  lemma RecordsNoDup(pkg: Package, hash: Bytes -> Codes, places: seq<Place>)
    requires WellNamed(pkg) && AreFiles(pkg, places)
    ensures NoDup(RecordsAt(pkg, hash, places)) <==> NoDup(places)
  {
    var rs := RecordsAt(pkg, hash, places);
    forall i, j | 0 <= i < j < |places| ensures rs[i] == rs[j] <==> places[i] == places[j] {
      SpellIsFaithful(pkg, places[i]);
      SpellIsFaithful(pkg, places[j]);
    }
  }

  /** Ordered records are strictly ordered exactly when no file was met twice. */
  lemma StrictIffNoDup(pkg: Package, hash: Bytes -> Codes, places: seq<Place>, files: seq<Record>)
    requires WellNamed(pkg) && AreFiles(pkg, places) && Ordered(files)
    requires multiset(files) == multiset(RecordsAt(pkg, hash, places))
    ensures StrictlySorted(files) <==> NoDup(places)
  {
    var rs := RecordsAt(pkg, hash, places);
    NoDupByCount(files);
    NoDupByCount(rs);
    RecordsNoDup(pkg, hash, places);
    forall i, j | 0 <= i < j < |files| ensures Before(files[i].path, files[j].path) <==> files[i] != files[j] {
      BeforeTotal(files[i].path, files[j].path);
      SamePathSameRecord(pkg, hash, places, files[i], files[j]);
    }
  }

  lemma SamePathSameRecord(pkg: Package, hash: Bytes -> Codes, places: seq<Place>, a: Record, b: Record)
    requires WellNamed(pkg) && AreFiles(pkg, places)
    requires a in multiset(RecordsAt(pkg, hash, places)) && b in multiset(RecordsAt(pkg, hash, places))
    ensures a.path == b.path <==> a == b
  {
    var rs := RecordsAt(pkg, hash, places);
    var i :| 0 <= i < |rs| && rs[i] == a;
    var j :| 0 <= j < |rs| && rs[j] == b;
    SpellIsFaithful(pkg, places[i]);
    SpellIsFaithful(pkg, places[j]);
  }

  // ----- When a fresh manifest loads ----------------------------------------------------------

  /** Proper roots lie apart, so their segments share no file. */
  lemma SegmentsApart(pkg: Package, roots: seq<Codes>, places: seq<Place>, segments: seq<seq<Place>>)
    requires Segmented(pkg, roots, places, segments) && ProperRoots(roots) && NoDup(roots) && !Nested(roots)
    ensures NoDup(places)
  {
    forall i, j, p | 0 <= i < j < |segments| && p in segments[i] ensures p !in segments[j] {
      PlaceOfProper(roots[i]);
      PlaceOfProper(roots[j]);
      var a, b := PlaceOf(roots[i]), PlaceOf(roots[j]);
      assert roots[i] in roots && roots[j] in roots && !(a < b) && !(b < a) && a != b;
    }
    ConcatNoDup(segments);
  }

  /** A managed file's text lies under its root's text. */
  lemma ManagedIsCovered(pkg: Package, roots: seq<Codes>, p: Place, i: nat)
    requires WellNamed(pkg) && p != [] && At(pkg, p).Some? && i < |roots|
    requires Relative(roots[i]) && roots[i] != DOT
    ensures roots[i] + [SLASH] <= Spell(p) <==> PlaceOf(roots[i]) < p
  {
    PlaceOfProper(roots[i]);
    SpellIsFaithful(pkg, p);
    StartsWithIsNesting(PlaceOf(roots[i]), p, SLASH);
  }

  lemma DotCoversNothing(pkg: Package, p: Place)
    requires WellNamed(pkg) && p != [] && At(pkg, p).Some?
    ensures !(DOT + [SLASH] <= Spell(p))
  {
    SpellIsFaithful(pkg, p);
    assert Spell([DOT]) == DOT && IsPart(p[0]);
    StartsWithIsNesting([DOT], p, SLASH);
  }

  lemma PathIsRelative(pkg: Package, p: Place)
    requires WellNamed(pkg) && p != [] && At(pkg, p).Some?
    ensures Relative(Spell(p)) <==> Portable(Spell(p))
  {
    SpellIsFaithful(pkg, p);
    RelativeIff(Spell(p));
  }

  /** With proper roots everything but the portability of file names is given. */
  lemma ProperFilesOk(hash: Bytes -> Codes, pkg: Package, roots: seq<Codes>, files: seq<Record>)
    requires WellNamed(pkg) && HashesToHex(hash) && IsCollection(pkg, hash, roots, files)
    requires ProperRoots(roots) && NoDup(roots) && !Nested(roots)
    ensures FilesOk(files, roots) <==> forall r :: r in files ==> Portable(r.path)
  {
    var places, segments := WalkBehind(pkg, hash, roots, files);
    SegmentsApart(pkg, roots, places, segments);
    StrictIffNoDup(pkg, hash, places, files);
    forall r | r in files ensures RecordOk(r, roots) <==> Portable(r.path) {
      var p := RecordHasFile(pkg, hash, roots, files, r);
      var i :| 0 <= i < |roots| && PlaceOf(roots[i]) <= p;
      assert PlaceOf(roots[i]) != p;
      ManagedIsCovered(pkg, roots, p, i);
      PathIsRelative(pkg, p);
    }
  }

  /** A file below two roots, one of them the dot, is met twice. */
  lemma MetTwice(pkg: Package, roots: seq<Codes>, places: seq<Place>, segments: seq<seq<Place>>,
                 p: Place, j: nat)
    requires Segmented(pkg, roots, places, segments) && IsFile(pkg, p) && DOT in roots
    requires j < |roots| && roots[j] != DOT && PlaceOf(roots[j]) <= p
    ensures !NoDup(places)
  {
    var i :| 0 <= i < |roots| && roots[i] == DOT;
    DotSplits();
    assert p in segments[i] && p in segments[j];
    ConcatNoDup(segments);
  }

  /** With the single dot among the roots no record passes: what only the dot covers is covered by no
      text prefix, and what another root covers as well is recorded twice. */
  lemma DotSpoilsFiles(hash: Bytes -> Codes, pkg: Package, roots: seq<Codes>, files: seq<Record>)
    requires WellNamed(pkg) && IsCollection(pkg, hash, roots, files)
    requires files != [] && DOT in roots && forall v :: v in roots ==> Relative(v)
    ensures !FilesOk(files, roots)
  {
    var places, segments := WalkBehind(pkg, hash, roots, files);
    var r := files[0];
    var p := RecordHasFile(pkg, hash, roots, files, r);
    if Covered(r.path, roots) {
      var j :| 0 <= j < |roots| && roots[j] + [SLASH] <= r.path;
      DotCoversNothing(pkg, p);
      ManagedIsCovered(pkg, roots, p, j);
      MetTwice(pkg, roots, places, segments, p, j);
      StrictIffNoDup(pkg, hash, places, files);
    } else {
      assert !RecordOk(files[0], roots);
    }
  }

  lemma RootsOfFresh(values: seq<Codes>)
    requires ManagedRoots(values).Some?
    ensures var roots := ManagedRoots(values).value;
            && ManagedRoots(roots) == Some(roots) && NoDup(roots)
            && (forall v :: v in values <==> v in roots) && (forall v :: v in roots ==> Relative(v))
            && (DOT !in values ==> ProperRoots(roots) && !Nested(roots))
  {
    var all := set v | v in values;
    var roots := Sorted(all);
    assert (set v | v in roots) == all;
    SortedSize(roots, all);
    SizeOfSet(roots);
    if DOT !in values { LaterIsEnough(roots); }
  }

  /** A fresh manifest is accepted exactly when the single dot was not given as a root, there is a file,
      and every file name is portable.  (`_relative_path` accepts the dot; nothing created with it is.) */
  lemma FreshAcceptedIff(hash: Bytes -> Codes, pkg: Package, values: seq<Codes>, d: Document)
    requires WellNamed(pkg) && HashesToHex(hash) && Fresh(hash, pkg, values, d)
    ensures Accepted(hash, d) <==>
              DOT !in values && d.files != [] && forall r :: r in d.files ==> Portable(r.path)
  {
    RootsOfFresh(values);
    if DOT !in values {
      ProperFilesOk(hash, pkg, d.roots, d.files);
    } else if d.files != [] {
      DotSpoilsFiles(hash, pkg, d.roots, d.files);
    }
  }

  // ----- Verification -------------------------------------------------------------------------

  datatype Status = COMPLETE | MISSING_FILE | UNEXPECTED_FILE | HASH_MISMATCH

  datatype Report = Report(status: Status, missing: seq<Codes>, unexpected: seq<Codes>, mismatches: seq<Codes>)

  /** A dictionary by path; of two records with one path the later stays. */
  function ByPath(files: seq<Record>): map<Codes, Record> {
    if files == [] then map[] else ByPath(files[..|files| - 1])[files[|files| - 1].path := files[|files| - 1]]
  }

  /** The comparison at the end of `verify_manifest`. */
  ghost function Compare(expected: map<Codes, Record>, actual: map<Codes, Record>): Report {
    var missing := Sorted(expected.Keys - actual.Keys);
    var unexpected := Sorted(actual.Keys - expected.Keys);
    var mismatches := Sorted(set p | p in expected && p in actual
                               && (expected[p].size != actual[p].size || expected[p].sha != actual[p].sha));
    var status := if missing != [] then MISSING_FILE
                  else if unexpected != [] then UNEXPECTED_FILE
                  else if mismatches != [] then HASH_MISMATCH else COMPLETE;
    Report(status, missing, unexpected, mismatches)
  }

  lemma {:induction false} ByPathHolds(files: seq<Record>)
    ensures forall k :: k in ByPath(files) ==> ByPath(files)[k].path == k && ByPath(files)[k] in files
    ensures forall r :: r in files ==> r.path in ByPath(files)
  {
    if files != [] {
      var init := files[..|files| - 1];
      ByPathHolds(init);
      assert files == init + [files[|files| - 1]];
    }
  }

  /** The dictionary of a collection: exactly the managed files under their texts. */
  lemma ByPathIsManaged(pkg: Package, hash: Bytes -> Codes, roots: seq<Codes>, files: seq<Record>, p: Place)
    requires WellNamed(pkg) && IsCollection(pkg, hash, roots, files) && p != []
    ensures Managed(pkg, roots, p) ==>
              Spell(p) in ByPath(files) && ByPath(files)[Spell(p)] == RecordAt(pkg, hash, p)
    ensures AreParts(p) && Spell(p) in ByPath(files) ==> Managed(pkg, roots, p)
  {
    ByPathHolds(files);
    if Managed(pkg, roots, p) { FileHasRecord(pkg, hash, roots, files, p); }
    if Spell(p) in ByPath(files) {
      var r := ByPath(files)[Spell(p)];
      var q := RecordHasFile(pkg, hash, roots, files, r);
      SpellIsFaithful(pkg, q);
      if AreParts(p) || Managed(pkg, roots, p) {
        assert SlashFree(p);
        JoinInjective(p, q, SLASH);
      }
    }
  }

  /** Both packages have the same managed files, by place, size and digest. */
  ghost predicate SameManaged(pkg: Package, now: Package, hash: Bytes -> Codes, roots: seq<Codes>) {
    forall p :: p != [] ==>
      && (Managed(pkg, roots, p) <==> Managed(now, roots, p))
      && (Managed(pkg, roots, p) ==> RecordAt(pkg, hash, p) == RecordAt(now, hash, p))
  }

  /** The lists of the report, exactly; and its status is COMPLETE exactly when the dictionaries agree. */
  lemma CompareExactly(e: map<Codes, Record>, a: map<Codes, Record>)
    requires forall k :: k in e ==> e[k].path == k
    requires forall k :: k in a ==> a[k].path == k
    ensures var r := Compare(e, a);
            && (r.status == COMPLETE <==> e == a)
            && (forall k :: k in r.missing <==> k in e && k !in a)
            && (forall k :: k in r.unexpected <==> k in a && k !in e)
            && (forall k :: k in r.mismatches <==> k in e && k in a && e[k] != a[k])
            && NoDup(r.missing) && NoDup(r.unexpected) && NoDup(r.mismatches)
  {
    var r := Compare(e, a);
    forall k | k in e && k in a
      ensures e[k] != a[k] <==> e[k].size != a[k].size || e[k].sha != a[k].sha
    {
    }
    SortedSize(r.missing, e.Keys - a.Keys);
    SortedSize(r.unexpected, a.Keys - e.Keys);
    SortedSize(r.mismatches, set k | k in e && k in a && (e[k].size != a[k].size || e[k].sha != a[k].sha));
    if r.status == COMPLETE {
      forall k ensures k in e <==> k in a { assert k !in r.missing && k !in r.unexpected; }
      forall k | k in e ensures e[k] == a[k] { assert k !in r.mismatches; }
      assert e == a;
    }
  }

  /** Checked against its own manifest, a package passes now exactly when below the managed roots
      nothing was added, removed or changed since. */
  lemma CompleteIffUnchanged(hash: Bytes -> Codes, pkg: Package, now: Package, values: seq<Codes>,
                             d: Document, actual: seq<Record>)
    requires WellNamed(pkg) && WellNamed(now)
    requires Fresh(hash, pkg, values, d) && IsCollection(now, hash, d.roots, actual)
    ensures Compare(ByPath(d.files), ByPath(actual)).status == COMPLETE
            <==> SameManaged(pkg, now, hash, d.roots)
  {
    var e, a := ByPath(d.files), ByPath(actual);
    ByPathHolds(d.files);
    ByPathHolds(actual);
    CompareExactly(e, a);
    if e == a {
      SameIfEqual(hash, pkg, now, d.roots, d.files, actual);
    }
    if SameManaged(pkg, now, hash, d.roots) {
      EqualIfSame(hash, pkg, now, d.roots, d.files, actual);
      EqualIfSame(hash, now, pkg, d.roots, actual, d.files);
      assert e.Keys == a.Keys;
    }
  }

  lemma SameIfEqual(hash: Bytes -> Codes, pkg: Package, now: Package, roots: seq<Codes>,
                    files: seq<Record>, actual: seq<Record>)
    requires WellNamed(pkg) && WellNamed(now)
    requires IsCollection(pkg, hash, roots, files) && IsCollection(now, hash, roots, actual)
    requires ByPath(files) == ByPath(actual)
    ensures SameManaged(pkg, now, hash, roots)
  {
    forall p: Place | p != []
      ensures Managed(pkg, roots, p) <==> Managed(now, roots, p)
      ensures Managed(pkg, roots, p) ==> RecordAt(pkg, hash, p) == RecordAt(now, hash, p)
    {
      ByPathIsManaged(pkg, hash, roots, files, p);
      ByPathIsManaged(now, hash, roots, actual, p);
    }
  }

  lemma EqualIfSame(hash: Bytes -> Codes, pkg: Package, now: Package, roots: seq<Codes>,
                    files: seq<Record>, actual: seq<Record>)
    requires WellNamed(pkg) && WellNamed(now) && SameManaged(pkg, now, hash, roots)
    requires IsCollection(pkg, hash, roots, files) && IsCollection(now, hash, roots, actual)
    ensures forall k :: k in ByPath(files) ==> k in ByPath(actual) && ByPath(actual)[k] == ByPath(files)[k]
  {
    ByPathHolds(files);
    forall k | k in ByPath(files) ensures k in ByPath(actual) && ByPath(actual)[k] == ByPath(files)[k] {
      var p := RecordHasFile(pkg, hash, roots, files, ByPath(files)[k]);
      ByPathIsManaged(pkg, hash, roots, files, p);
      ByPathIsManaged(now, hash, roots, actual, p);
    }
  }

  // ----- What the content digest covers -------------------------------------------------------

  lemma HexIsPaired(t: Codes, n: nat)
    requires IsHex(t, n)
    ensures WellPaired(t)
  {
  }

  lemma RecordIsPaired(r: Record, roots: seq<Codes>)
    requires RecordOk(r, roots)
    ensures AllPaired(RecordJson(r))
  {
    HexIsPaired(r.sha, 64);
    assert Encodable(r.path) && WellPaired(r.path);
    PairedRecord(r);
  }

  lemma PairedRecord(r: Record)
    requires WellPaired(r.path) && WellPaired(r.sha)
    ensures AllPaired(RecordJson(r))
  {
  }

  lemma PairedContent(d: Document)
    requires forall i :: 0 <= i < |d.files| ==> AllPaired(RecordJson(d.files[i]))
    requires forall i :: 0 <= i < |d.roots| ==> WellPaired(d.roots[i])
    requires WellPaired(d.commit)
    ensures AllPaired(ContentJson(d))
  {
  }

  lemma ContentIsPaired(hash: Bytes -> Codes, d: Document)
    requires Accepted(hash, d)
    ensures AllPaired(ContentJson(d))
  {
    HexIsPaired(d.commit, 40);
    forall i | 0 <= i < |d.files| ensures AllPaired(RecordJson(d.files[i])) {
      RecordIsPaired(d.files[i], d.roots);
    }
    RootsOfFresh(d.roots);
    forall i | 0 <= i < |d.roots| ensures WellPaired(d.roots[i]) {
      assert d.roots[i] in d.roots && Encodable(d.roots[i]);
    }
    PairedContent(d);
  }

  lemma RecordFromJson(a: Record, b: Record)
    requires RecordJson(a) == RecordJson(b)
    ensures a == b
  {
    var x, y := RecordJson(a).fields, RecordJson(b).fields;
    assert |ToCodes("relativePath")| == 12 && |ToCodes("sha256")| == 6 && |ToCodes("size")| == 4;
    assert x[ToCodes("relativePath")] == Str(a.path) && y[ToCodes("relativePath")] == Str(b.path);
    assert x[ToCodes("sha256")] == Str(a.sha) && y[ToCodes("sha256")] == Str(b.sha);
    assert x[ToCodes("size")] == Num(a.size) && y[ToCodes("size")] == Num(b.size);
  }

  lemma ContentFromJson(d: Document, e: Document)
    requires ContentJson(d) == ContentJson(e)
    ensures d.files == e.files && d.roots == e.roots && d.protocol == e.protocol && d.commit == e.commit
  {
    var x, y := ContentJson(d).fields, ContentJson(e).fields;
    assert ToCodes("managedRoots")[0] == 'm' as int && ToCodes("sourceCommit")[0] == 's' as int;
    var f, m, p, c := ToCodes("files"), ToCodes("managedRoots"), ToCodes("protocolVersion"), ToCodes("sourceCommit");
    assert |f| == 5 && |m| == 12 && |p| == 15 && |c| == 12 && |ToCodes("schemaVersion")| == 13;
    assert x[f].Arr? && y[f].Arr? && x[f].items == y[f].items;
    assert x[p] == Num(d.protocol) && y[p] == Num(e.protocol);
    assert x[c] == Str(d.commit) && y[c] == Str(e.commit);
    forall i | 0 <= i < |d.files| ensures d.files[i] == e.files[i] {
      assert x[f].items[i] == RecordJson(d.files[i]) && y[f].items[i] == RecordJson(e.files[i]);
      RecordFromJson(d.files[i], e.files[i]);
    }
    forall i | 0 <= i < |d.roots| ensures d.roots[i] == e.roots[i] {
      assert x[m].items[i] == Str(d.roots[i]) && y[m].items[i] == Str(e.roots[i]);
    }
  }

  /** Acceptable manifests whose hashed bytes agree index the same files with the same digests, for the
      same roots, protocol and source commit. */
  lemma ContentBytesBind(hash: Bytes -> Codes, d: Document, e: Document)
    requires Accepted(hash, d) && Accepted(hash, e) && ContentBytes(d) == ContentBytes(e)
    ensures d.files == e.files && d.roots == e.roots && d.protocol == e.protocol && d.commit == e.commit
    ensures d.releaseId == e.releaseId
  {
    ContentIsPaired(hash, d);
    ContentIsPaired(hash, e);
    var a, b := Canonical(ContentJson(d)), Canonical(ContentJson(e));
    assert forall i :: 0 <= i < |a| ==> ContentBytes(d)[i] == a[i];
    assert forall i :: 0 <= i < |b| ==> ContentBytes(e)[i] == b[i];
    assert a == b;
    CanonicalInjective(ContentJson(d), ContentJson(e));
    ContentFromJson(d, e);
  }
}
