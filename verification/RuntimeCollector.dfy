/** `_collect_files`: the index of every regular file below the managed roots of a package. */
module RuntimeCollector {
  import opened Chunks
  import opened Collections
  import opened Wrappers
  import opened Octets
  import opened FileTree
  import opened CanonicalJson
  import opened RelativePath
  import opened Text

  const MAX_FILES: nat := 4096

  type Package = Tree<Codes>
  type Place = seq<Codes>

  datatype Record = Record(path: Codes, sha: Codes, size: nat)

  /** Entry names as a file system hands them out. */
  ghost predicate WellNamed(pkg: Package) {
    forall p :: At(pkg, p).Some? ==> AreParts(p)
  }

  predicate IsFile(pkg: Package, p: Place) {
    At(pkg, p).Some? && At(pkg, p).value.File?
  }

  predicate IsFolder(pkg: Package, p: Place) {
    At(pkg, p).Some? && At(pkg, p).value.Dir?
  }

  /** A link or a special file. */
  predicate IsForeign(pkg: Package, p: Place) {
    At(pkg, p).Some? && !At(pkg, p).value.File? && !At(pkg, p).value.Dir?
  }

  function RecordAt(pkg: Package, hash: Bytes -> Codes, p: Place): Record
    requires IsFile(pkg, p) && p != []
  {
    Record(Spell(p), hash(At(pkg, p).value.content), |At(pkg, p).value.content|)
  }

  function PlaceOf(root: Codes): Place {
    Meaningful(Split(root, SLASH))
  }

  /** `found` lists each file below `d` that leads through one of the entries `done`, once. */
  ghost predicate Lists(pkg: Package, found: seq<Place>, d: Place, done: set<Codes>) {
    NoDup(found) && forall p :: p in found <==> IsFile(pkg, p) && Through(d, done, p)
  }

  /** `found` lists each file at or below `d` once. */
  ghost predicate ListsAll(pkg: Package, found: seq<Place>, d: Place) {
    NoDup(found) && forall p :: p in found <==> IsFile(pkg, p) && d <= p
  }

  /** `found` lists files at or below `d`, none twice. */
  ghost predicate Within(pkg: Package, found: seq<Place>, d: Place) {
    NoDup(found) && forall p :: p in found ==> IsFile(pkg, p) && d <= p
  }

  lemma WithinOneMore(pkg: Package, found: seq<Place>, more: seq<Place>, d: Place, done: set<Codes>, n: Codes)
    requires Lists(pkg, found, d, done) && Within(pkg, more, d + [n]) && n !in done
    ensures Within(pkg, found + more, d)
  {
    forall p ensures !(Through(d, done, p) && d + [n] <= p) && (d + [n] <= p ==> d <= p) {
      ThroughOneMore(d, done, n, p);
    }
    var all := found + more;
    forall i, j | 0 <= i < j < |all| ensures all[i] != all[j] {
      if i < |found| <= j { assert all[i] in found && all[j] in more; }
    }
  }

  lemma ListsOneMore(pkg: Package, found: seq<Place>, more: seq<Place>, d: Place, done: set<Codes>, n: Codes)
    requires Lists(pkg, found, d, done) && ListsAll(pkg, more, d + [n]) && n !in done
    ensures Lists(pkg, found + more, d, done + {n})
  {
    forall p
      ensures Through(d, done + {n}, p) <==> Through(d, done, p) || d + [n] <= p
      ensures !(Through(d, done, p) && d + [n] <= p)
    {
      ThroughOneMore(d, done, n, p);
    }
    var all := found + more;
    forall i, j | 0 <= i < j < |all| ensures all[i] != all[j] {
      if i < |found| <= j { assert all[i] in found && all[j] in more; }
    }
  }

  lemma ListsFolder(pkg: Package, found: seq<Place>, d: Place)
    requires IsFolder(pkg, d) && Lists(pkg, found, d, At(pkg, d).value.entries.Keys)
    ensures ListsAll(pkg, found, d)
  {
    forall p | d <= p && IsFile(pkg, p) ensures Through(d, At(pkg, d).value.entries.Keys, p) {
      assert p != d;
      ThroughAll(pkg, d, p);
    }
  }

  lemma ListsFile(pkg: Package, d: Place)
    requires IsFile(pkg, d)
    ensures ListsAll(pkg, [d], d)
  {
    forall p | d <= p && p != d ensures !IsFile(pkg, p) {
      NothingBelowLeaf(pkg, d, p);
    }
  }

  // ----- Several roots ------------------------------------------------------------------------

  /** The list falls into one segment per root, each listing that root's files. */
  ghost predicate Segmented(pkg: Package, roots: seq<Codes>, found: seq<Place>, segments: seq<seq<Place>>) {
    && |segments| == |roots| && found == Concat(segments)
    && forall i :: 0 <= i < |roots| ==>
         IsFolder(pkg, PlaceOf(roots[i])) && ListsAll(pkg, segments[i], PlaceOf(roots[i]))
  }

  class Collector {
    const pkg: Package
    const hash: Bytes -> Codes
    var records: seq<Record>
    ghost var places: seq<Place>

    ghost predicate Valid()
      reads this
    {
      && |places| == |records|
      && (forall i :: 0 <= i < |places| ==>
            places[i] != [] && IsFile(pkg, places[i]) && records[i] == RecordAt(pkg, hash, places[i]))
    }

    constructor (pkg: Package, hash: Bytes -> Codes)
      ensures Valid() && this.pkg == pkg && this.hash == hash && places == []
    {
      this.pkg, this.hash, records, places := pkg, hash, [], [];
    }

    ghost predicate HasForeign(d: Place)
    {
      exists p :: d <= p && IsForeign(pkg, p)
    }

    /** os.walk below a directory: every file once, and nothing but files and directories. */
    method Walk(d: Place) returns (ok: bool)
      requires Valid() && IsFolder(pkg, d)
      modifies this
      ensures Valid() && |old(places)| <= |places| && places[..|old(places)|] == old(places)
      ensures ok ==> ListsAll(pkg, places[|old(places)|..], d) && !HasForeign(d)
      ensures !ok ==> HasForeign(d)
                      || (|records| > MAX_FILES && Within(pkg, places[|old(places)|..], d))
      decreases At(pkg, d).value
    {
      var entries := At(pkg, d).value.entries;
      var todo, done := entries.Keys, {};
      ghost var before := |places|;
      assert places[before..] == [];
      while todo != {}
        invariant Valid() && before <= |places| && places[..before] == old(places)
        invariant done + todo == entries.Keys && done !! todo
        invariant Lists(pkg, places[before..], d, done)
        invariant forall p :: Through(d, done, p) ==> !IsForeign(pkg, p)
        decreases todo
      {
        var n :| n in todo;
        ghost var mid := |places|;
        ghost var found := places[before..];
        ok := Visit(d, n);
        assert places[before..] == found + places[mid..];
        if !ok {
          ForeignAbove(d, n);
          if !HasForeign(d + [n]) { WithinOneMore(pkg, found, places[mid..], d, done, n); }
          return;
        }
        ListsOneMore(pkg, found, places[mid..], d, done, n);
        forall p ensures Through(d, done + {n}, p) <==> Through(d, done, p) || d + [n] <= p {
          ThroughOneMore(d, done, n, p);
        }
        todo, done := todo - {n}, done + {n};
      }
      ListsFolder(pkg, places[before..], d);
      forall p | d <= p && At(pkg, p).Some? && p != d ensures Through(d, done, p) {
        ThroughAll(pkg, d, p);
      }
      return true;
    }

    lemma ForeignAbove(d: Place, n: Codes)
      ensures HasForeign(d + [n]) ==> HasForeign(d)
    {
    }

    method Visit(d: Place, n: Codes) returns (ok: bool)
      requires Valid() && IsFolder(pkg, d) && n in At(pkg, d).value.entries
      modifies this
      ensures Valid() && |old(places)| <= |places| && places[..|old(places)|] == old(places)
      ensures ok ==> ListsAll(pkg, places[|old(places)|..], d + [n]) && !HasForeign(d + [n])
      ensures !ok ==> HasForeign(d + [n])
                      || (|records| > MAX_FILES && Within(pkg, places[|old(places)|..], d + [n]))
      decreases At(pkg, d).value, 0
    {
      var p := d + [n];
      AtChild(pkg, d, n);
      if IsFolder(pkg, p) {
        ok := Walk(p);
      } else if IsFile(pkg, p) {
        ListsFile(pkg, p);
        assert forall q :: p <= q && q != p ==> At(pkg, q) == None by {
          forall q | p <= q && q != p ensures At(pkg, q) == None { NothingBelowLeaf(pkg, p, q); }
        }
        records := records + [RecordAt(pkg, hash, p)];
        places := places + [p];
        assert places[|old(places)|..] == [p];
        ok := |records| <= MAX_FILES;
      } else {
        assert p <= p && IsForeign(pkg, p);
        return false;
      }
    }

    /** One managed root: its segment joins those of the roots before it. */
    method WalkRoot(roots: seq<Codes>, k: nat, ghost segments: seq<seq<Place>>)
      returns (ok: bool, ghost longer: seq<seq<Place>>)
      requires Valid() && k < |roots| && IsFolder(pkg, PlaceOf(roots[k]))
      requires Segmented(pkg, roots[..k], places, segments)
      modifies this
      ensures Valid()
      ensures ok ==> && Segmented(pkg, roots[..k + 1], places, longer) && |records| <= MAX_FILES
                     && !HasForeign(PlaceOf(roots[k]))
      ensures !ok ==> HasForeign(PlaceOf(roots[k])) || TooLarge(pkg, hash, roots)
    {
      ghost var before := places;
      ok := Walk(PlaceOf(roots[k]));
      ok := ok && |records| <= MAX_FILES;
      longer := Lengthened(roots, k, before, segments, ok);
    }

    /** What the walk of root `k` means for the segments, or for the size of the index. */
    lemma Lengthened(roots: seq<Codes>, k: nat, before: seq<Place>, segments: seq<seq<Place>>, ok: bool)
      returns (longer: seq<seq<Place>>)
      requires Valid() && k < |roots| && IsFolder(pkg, PlaceOf(roots[k]))
      requires Segmented(pkg, roots[..k], before, segments)
      requires |before| <= |places| && places[..|before|] == before
      requires ok ==> ListsAll(pkg, places[|before|..], PlaceOf(roots[k]))
      requires !ok ==> HasForeign(PlaceOf(roots[k]))
                       || (|records| > MAX_FILES && Within(pkg, places[|before|..], PlaceOf(roots[k])))
      ensures ok ==> Segmented(pkg, roots[..k + 1], places, longer)
      ensures !ok ==> HasForeign(PlaceOf(roots[k])) || TooLarge(pkg, hash, roots)
    {
      var segment := places[|before|..];
      assert places == before + segment;
      longer := segments + [segment];
      if ok {
        OneMoreSegment(pkg, roots, k, before, segments, segment);
      } else if !HasForeign(PlaceOf(roots[k])) {
        MetTooMany(pkg, hash, roots, k, before, segments, segment);
      }
    }

    method WalkRoots(roots: seq<Codes>) returns (bad: Option<CollectError>, ghost segments: seq<seq<Place>>)
      requires Valid() && places == []
      modifies this
      ensures Valid()
      ensures bad == None ==> && Segmented(pkg, roots, places, segments) && |records| <= MAX_FILES
                              && !HasForeignBelow(pkg, roots)
      ensures bad == Some(MissingFile) ==> exists i :: 0 <= i < |roots| && !IsFolder(pkg, PlaceOf(roots[i]))
      ensures bad == Some(ManifestInvalid) ==> HasForeignBelow(pkg, roots) || TooLarge(pkg, hash, roots)
    {
      segments := [];
      for k := 0 to |roots|
        invariant Valid() && |records| <= MAX_FILES
        invariant Segmented(pkg, roots[..k], places, segments)
        invariant forall i :: 0 <= i < k ==> !HasForeign(PlaceOf(roots[i]))
      {
        if !IsFolder(pkg, PlaceOf(roots[k])) { return Some(MissingFile), segments; }
        var ok;
        ok, segments := WalkRoot(roots, k, segments);
        if !ok { return Some(ManifestInvalid), segments; }
      }
      assert roots[..|roots|] == roots;
      return None, segments;
    }
  }

  // ----- Sorting ------------------------------------------------------------------------------

  ghost predicate Ordered(rs: seq<Record>) {
    forall i, j :: 0 <= i < j < |rs| ==> !Before(rs[j].path, rs[i].path)
  }

  function Insert(r: Record, rs: seq<Record>): (t: seq<Record>)
    ensures multiset(t) == multiset(rs) + multiset{r} && |t| == |rs| + 1
  {
    if rs == [] || !Before(rs[0].path, r.path) then [r] + rs
    else assert rs == [rs[0]] + rs[1..]; [rs[0]] + Insert(r, rs[1..])
  }

  lemma {:induction false} InsertKeepsOrder(r: Record, rs: seq<Record>)
    requires Ordered(rs)
    ensures Ordered(Insert(r, rs))
  {
    if rs != [] && Before(rs[0].path, r.path) {
      InsertKeepsOrder(r, rs[1..]);
      BeforeTotal(rs[0].path, r.path);
      var t := Insert(r, rs[1..]);
      forall j | 0 <= j < |t| ensures !Before(t[j].path, rs[0].path) {
        assert t[j] in multiset(t);
        assert t[j] == r || t[j] in rs[1..];
      }
    } else if rs != [] {
      forall j | 0 <= j < |rs| ensures !Before(rs[j].path, r.path) {
        if Before(rs[j].path, r.path) {
          BeforeTotal(rs[0].path, rs[j].path);
          if rs[0].path != rs[j].path && j > 0 { BeforeTransitive(rs[0].path, rs[j].path, r.path); }
        }
      }
    }
  }

  function SortByPath(rs: seq<Record>): (t: seq<Record>)
    ensures multiset(t) == multiset(rs) && |t| == |rs|
  {
    if rs == [] then [] else assert rs == [rs[0]] + rs[1..]; Insert(rs[0], SortByPath(rs[1..]))
  }

  lemma {:induction false} SortedIsOrdered(rs: seq<Record>)
    ensures Ordered(SortByPath(rs))
  {
    if rs != [] {
      SortedIsOrdered(rs[1..]);
      InsertKeepsOrder(rs[0], SortByPath(rs[1..]));
    }
  }

  // ----- The whole index ----------------------------------------------------------------------

  datatype CollectError = MissingFile | ManifestInvalid

  predicate AreFiles(pkg: Package, places: seq<Place>) {
    forall i :: 0 <= i < |places| ==> places[i] != [] && IsFile(pkg, places[i])
  }

  function RecordsAt(pkg: Package, hash: Bytes -> Codes, places: seq<Place>): (rs: seq<Record>)
    requires AreFiles(pkg, places)
    ensures |rs| == |places|
    ensures forall i :: 0 <= i < |rs| ==> rs[i] == RecordAt(pkg, hash, places[i])
  {
    seq(|places|, i requires 0 <= i < |places| => RecordAt(pkg, hash, places[i]))
  }

  /** What `_collect_files` returns: the ordered records of all segments. */
  ghost predicate IsCollection(pkg: Package, hash: Bytes -> Codes, roots: seq<Codes>, files: seq<Record>) {
    exists places, segments :: Behind(pkg, hash, roots, files, places, segments)
  }

  /** The walk behind a collection. */
  ghost predicate Behind(pkg: Package, hash: Bytes -> Codes, roots: seq<Codes>, files: seq<Record>,
                         places: seq<Place>, segments: seq<seq<Place>>) {
    && Segmented(pkg, roots, places, segments) && AreFiles(pkg, places)
    && Ordered(files) && multiset(files) == multiset(RecordsAt(pkg, hash, places))
  }

  lemma CollectionOf(pkg: Package, hash: Bytes -> Codes, roots: seq<Codes>, places: seq<Place>,
                     segments: seq<seq<Place>>, records: seq<Record>, files: seq<Record>)
    requires Segmented(pkg, roots, places, segments) && AreFiles(pkg, places) && |records| == |places|
    requires forall i :: 0 <= i < |places| ==> records[i] == RecordAt(pkg, hash, places[i])
    requires Ordered(files) && multiset(files) == multiset(records)
    ensures IsCollection(pkg, hash, roots, files)
  {
    assert records == RecordsAt(pkg, hash, places);
    assert Behind(pkg, hash, roots, files, places, segments);
  }

  // ----- Too many files -----------------------------------------------------------------------

  /** A list without repetitions is no longer than one that has all its elements. */
  lemma {:induction false} InclusionSize<T(!new)>(a: seq<T>, b: seq<T>)
    requires NoDup(a) && forall x :: x in a ==> x in b
    ensures |a| <= |b|
  {
    if a != [] {
      assert a[0] in b;
      var j :| 0 <= j < |b| && b[j] == a[0];
      var rest := b[..j] + b[j + 1..];
      forall x | x in a[1..] ensures x in rest {
        var k :| 1 <= k < |a| && a[k] == x;
        assert x in a && x in b;
        var l :| 0 <= l < |b| && b[l] == x;
        assert l != j;
        assert x == if l < j then rest[l] else rest[l - 1];
      }
      InclusionSize(a[1..], rest);
    }
  }

  /** The index has at least the files met so far. */
  lemma MetSoFar(pkg: Package, hash: Bytes -> Codes, roots: seq<Codes>, k: nat, before: seq<Place>,
                 segments: seq<seq<Place>>, more: seq<Place>, files: seq<Record>)
    requires k < |roots| && Segmented(pkg, roots[..k], before, segments)
    requires Within(pkg, more, PlaceOf(roots[k])) && IsCollection(pkg, hash, roots, files)
    ensures |before| + |more| <= |files|
  {
    var places, all :| Behind(pkg, hash, roots, files, places, all);
    forall i | 0 <= i < k ensures |segments[i]| <= |all[i]| {
      assert roots[..k][i] == roots[i];
      InclusionSize(segments[i], all[i]);
    }
    InclusionSize(more, all[k]);
    ConcatSize(segments, all, |more|);
    assert |multiset(files)| == |multiset(RecordsAt(pkg, hash, places))|;
  }

  ghost predicate HasForeignBelow(pkg: Package, roots: seq<Codes>) {
    exists i, p :: 0 <= i < |roots| && PlaceOf(roots[i]) <= p && IsForeign(pkg, p)
  }

  ghost predicate TooLarge(pkg: Package, hash: Bytes -> Codes, roots: seq<Codes>) {
    forall files :: IsCollection(pkg, hash, roots, files) ==> |files| > MAX_FILES
  }

  lemma MetTooMany(pkg: Package, hash: Bytes -> Codes, roots: seq<Codes>, k: nat, before: seq<Place>,
                   segments: seq<seq<Place>>, more: seq<Place>)
    requires k < |roots| && Segmented(pkg, roots[..k], before, segments)
    requires Within(pkg, more, PlaceOf(roots[k])) && |before| + |more| > MAX_FILES
    ensures TooLarge(pkg, hash, roots)
  {
    forall files | IsCollection(pkg, hash, roots, files) ensures |files| > MAX_FILES {
      MetSoFar(pkg, hash, roots, k, before, segments, more, files);
    }
  }

  method CollectFiles(pkg: Package, hash: Bytes -> Codes, roots: seq<Codes>)
    returns (r: Result<seq<Record>, CollectError>)
    ensures r.Ok? ==> IsCollection(pkg, hash, roots, r.value) && |r.value| <= MAX_FILES
    ensures r.Ok? ==> !HasForeignBelow(pkg, roots)
    ensures r == Err(MissingFile) ==> exists i :: 0 <= i < |roots| && !IsFolder(pkg, PlaceOf(roots[i]))
    ensures r == Err(ManifestInvalid) ==> HasForeignBelow(pkg, roots) || TooLarge(pkg, hash, roots)
  {
    var c := new Collector(pkg, hash);
    var bad, segments := c.WalkRoots(roots);
    if bad.Some? { return Err(bad.value); }
    var files := SortByPath(c.records);
    assert IsCollection(pkg, hash, roots, files) by {
      SortedIsOrdered(c.records);
      CollectionOf(pkg, hash, roots, c.places, segments, c.records, files);
    }
    return Ok(files);
  }

  lemma OneMoreSegment(pkg: Package, roots: seq<Codes>, k: nat, places: seq<Place>,
                       segments: seq<seq<Place>>, segment: seq<Place>)
    requires k < |roots| && Segmented(pkg, roots[..k], places, segments)
    requires IsFolder(pkg, PlaceOf(roots[k])) && ListsAll(pkg, segment, PlaceOf(roots[k]))
    ensures Segmented(pkg, roots[..k + 1], places + segment, segments + [segment])
  {
    var more := segments + [segment];
    ConcatAppend(more, |segments|);
    assert more[..|segments|] == segments && more[..|segments| + 1] == more;
    forall i | 0 <= i < k + 1
      ensures IsFolder(pkg, PlaceOf(roots[..k + 1][i])) && ListsAll(pkg, more[i], PlaceOf(roots[..k + 1][i]))
    {
      if i < k { assert roots[..k][i] == roots[..k + 1][i]; }
    }
  }
}
