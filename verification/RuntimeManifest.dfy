/** Creating, loading and checking a runtime manifest. */
module RuntimeManifest {
  import opened Wrappers
  import opened Collections
  import opened Octets
  import opened CanonicalJson
  import opened CanonicalLimits
  import opened RelativePath
  import opened RuntimeCollector
  import opened Text

  datatype Document = Document(createdAt: int, files: seq<Record>, roots: seq<Codes>, protocol: int,
                               commit: Codes, contentSha: Codes, releaseId: Codes)

  // ----- Managed roots ------------------------------------------------------------------------

  predicate NestedAbove(roots: seq<Codes>, i: nat, j: nat)
    requires i < |roots| && j < |roots|
  {
    roots[i] + [SLASH] <= roots[j]
  }

  ghost predicate LaterNested(roots: seq<Codes>) {
    exists i, j :: 0 <= i < j < |roots| && NestedAbove(roots, i, j)
  }

  /** `_managed_roots`: nesting is looked for among later roots only. */
  ghost function ManagedRoots(values: seq<Codes>): Option<seq<Codes>> {
    if exists v :: v in values && !Relative(v) then None
    else
      var roots := Sorted(set v | v in values);
      if roots == [] || |roots| != |values| then None
      else if LaterNested(roots) then None
      else Some(roots)
  }

  lemma {:induction false} SizeOfSet(values: seq<Codes>)
    ensures |set v | v in values| <= |values|
    ensures |set v | v in values| == |values| <==> NoDup(values)
  {
    if values != [] {
      var init, last := values[..|values| - 1], values[|values| - 1];
      SizeOfSet(init);
      assert values == init + [last];
      assert (set v | v in values) == (set v | v in init) + {last};
      if last in init {
        assert (set v | v in values) == (set v | v in init);
        var i :| 0 <= i < |init| && init[i] == last;
        assert values[i] == values[|values| - 1];
      } else {
        assert |set v | v in values| == |set v | v in init| + 1;
      }
    }
  }

  lemma {:induction false} SortedSize(keys: seq<Codes>, all: set<Codes>)
    requires forall k :: k in keys <==> k in all
    requires forall i, j :: 0 <= i < j < |keys| ==> Before(keys[i], keys[j])
    ensures |keys| == |all| && NoDup(keys)
  {
    forall i, j | 0 <= i < j < |keys| ensures keys[i] != keys[j] { BeforeTotal(keys[i], keys[j]); }
    assert (set v | v in keys) == all;
    SizeOfSet(keys);
  }

  /** Proper roots: canonical, and none of them the single dot. */
  ghost predicate ProperRoots(values: seq<Codes>) {
    forall v :: v in values ==> Relative(v) && v != DOT
  }

  lemma PlaceOfProper(v: Codes)
    requires Relative(v) && v != DOT
    ensures PlaceOf(v) != [] && AreParts(PlaceOf(v)) && Spell(PlaceOf(v)) == v
  {
    RelativeIff(v);
    MeaningfulParts(Split(v, SLASH));
  }

  lemma NestingOfRoots(a: Codes, b: Codes)
    requires Relative(a) && a != DOT && Relative(b) && b != DOT
    ensures a + [SLASH] <= b <==> PlaceOf(a) < PlaceOf(b)
    ensures a + [SLASH] <= b ==> Before(a, b)
  {
    PlaceOfProper(a);
    PlaceOfProper(b);
    StartsWithIsNesting(PlaceOf(a), PlaceOf(b), SLASH);
    if a + [SLASH] <= b {
      assert a < b by { assert b[..|a|] == (a + [SLASH])[..|a|] == a; }
      PrefixIsBefore(a, b);
    }
  }

  ghost predicate Nested(values: seq<Codes>) {
    exists v, w :: v in values && w in values && PlaceOf(v) < PlaceOf(w)
  }

  /** Looking among later roots finds every nesting. */
  lemma LaterIsEnough(roots: seq<Codes>)
    requires ProperRoots(roots)
    requires forall i, j :: 0 <= i < j < |roots| ==> Before(roots[i], roots[j])
    ensures LaterNested(roots) <==> Nested(roots)
  {
    if Nested(roots) {
      var v, w :| v in roots && w in roots && PlaceOf(v) < PlaceOf(w);
      var i :| 0 <= i < |roots| && roots[i] == v;
      var j :| 0 <= j < |roots| && roots[j] == w;
      NestingOfRoots(v, w);
      NestedIsLater(roots, i, j);
    } else if LaterNested(roots) {
      var i, j :| 0 <= i < j < |roots| && NestedAbove(roots, i, j);
      NestingOfRoots(roots[i], roots[j]);
    }
  }

  lemma NestedIsLater(roots: seq<Codes>, i: nat, j: nat)
    requires forall k, l :: 0 <= k < l < |roots| ==> Before(roots[k], roots[l])
    requires i < |roots| && j < |roots| && roots[i] + [SLASH] <= roots[j] && Before(roots[i], roots[j])
    ensures i < j && NestedAbove(roots, i, j)
  {
    BeforeTotal(roots[i], roots[j]);
  }

  /** Roots are accepted exactly when there is one, none twice, and no two lie inside one another -
      in either order, although only later ones are compared. */
  lemma RootsIffApart(values: seq<Codes>)
    requires ProperRoots(values)
    ensures ManagedRoots(values).Some? <==> values != [] && NoDup(values) && !Nested(values)
  {
    var all := set v | v in values;
    var roots := Sorted(all);
    SortedSize(roots, all);
    SizeOfSet(values);
    LaterIsEnough(roots);
    SameNesting(values, roots);
    if values != [] { assert values[0] in all; }
  }

  lemma SameNesting(values: seq<Codes>, roots: seq<Codes>)
    requires forall v :: v in values <==> v in roots
    ensures Nested(values) <==> Nested(roots)
  {
  }

  // ----- The document -------------------------------------------------------------------------

  predicate IsHex(t: Codes, n: nat) {
    |t| == n && forall i :: 0 <= i < n ==> IsDigitCode(t[i]) || 97 <= t[i] <= 102
  }

  /** What is assumed of SHA-256 here: its hexadecimal form. */
  ghost predicate HashesToHex(hash: Bytes -> Codes) {
    forall b :: IsHex(hash(b), 64)
  }

  function RecordJson(r: Record): Json {
    Obj(map[ToCodes("relativePath") := Str(r.path), ToCodes("sha256") := Str(r.sha),
            ToCodes("size") := Num(r.size)])
  }

  /** _content_document: everything but the time and the two derived fields. */
  function ContentJson(d: Document): Json {
    Obj(map[ToCodes("files") := Arr(seq(|d.files|, i requires 0 <= i < |d.files| => RecordJson(d.files[i]))),
            ToCodes("managedRoots") := Arr(seq(|d.roots|, i requires 0 <= i < |d.roots| => Str(d.roots[i]))),
            ToCodes("protocolVersion") := Num(d.protocol), ToCodes("schemaVersion") := Num(1),
            ToCodes("sourceCommit") := Str(d.commit)])
  }

  function AsciiBytes(t: Codes): Bytes
    requires Ascii(t)
  {
    seq(|t|, i requires 0 <= i < |t| => t[i])
  }

  ghost function ContentBytes(d: Document): Bytes {
    CanonicalIsAscii(ContentJson(d));
    AsciiBytes(Canonical(ContentJson(d)))
  }

  function ReleaseId(d: Document): Codes
    requires IsHex(d.commit, 40) && IsHex(d.contentSha, 64)
  {
    ToCodes("granger-runtime-v1-p") + PrintInt(d.protocol) + [MINUS] + d.commit[..12] + [MINUS]
    + d.contentSha[..16]
  }

  ghost predicate HeaderOk(d: Document) {
    IsHex(d.commit, 40) && 1 <= d.protocol < 0x8000_0000 && d.createdAt >= 1
  }

  // ----- Loading ------------------------------------------------------------------------------

  predicate Covered(path: Codes, roots: seq<Codes>) {
    exists i :: 0 <= i < |roots| && roots[i] + [SLASH] <= path
  }

  predicate RecordOk(r: Record, roots: seq<Codes>) {
    Relative(r.path) && Covered(r.path, roots) && IsHex(r.sha, 64)
  }

  ghost predicate StrictlySorted(files: seq<Record>) {
    forall i, j :: 0 <= i < j < |files| ==> Before(files[i].path, files[j].path)
  }

  ghost predicate FilesOk(files: seq<Record>, roots: seq<Codes>) {
    && StrictlySorted(files)
    && forall i :: 0 <= i < |files| ==> RecordOk(files[i], roots)
  }

  /** The record loop of `_load_manifest`, which compares neighbours only. */
  method CheckRecords(files: seq<Record>, roots: seq<Codes>) returns (ok: bool)
    ensures ok <==> FilesOk(files, roots)
  {
    var previous: Codes := [];
    for k := 0 to |files|
      invariant FilesOk(files[..k], roots)
      invariant k == 0 ==> previous == []
      invariant k > 0 ==> previous == files[k - 1].path
    {
      var r := files[k];
      BeforeTotal(previous, r.path);
      if !RecordOk(r, roots) { return false; }
      if !Before(previous, r.path) {
        assert k > 0 && !Before(files[k - 1].path, files[k].path);
        return false;
      }
      forall i | 0 <= i < k ensures Before(files[i].path, r.path) {
        if i < k - 1 {
          assert Before(files[..k][i].path, files[..k][k - 1].path);
          BeforeTransitive(files[i].path, previous, r.path);
        }
      }
      assert files[..k + 1] == files[..k] + [r];
      previous := r.path;
    }
    assert files[..|files|] == files;
    return true;
  }

  const MAX_MANIFEST_BYTES: nat := 4 * 1024 * 1024

  /** `_load_manifest`, of a file of this size that holds the document. */
  ghost predicate Loads(hash: Bytes -> Codes, d: Document, size: nat) {
    size <= MAX_MANIFEST_BYTES && Accepted(hash, d)
  }

  ghost predicate Accepted(hash: Bytes -> Codes, d: Document) {
    && HeaderOk(d) && ManagedRoots(d.roots) == Some(d.roots)
    && 1 <= |d.files| <= MAX_FILES && FilesOk(d.files, d.roots)
    && d.contentSha == hash(ContentBytes(d)) && IsHex(d.contentSha, 64) && d.releaseId == ReleaseId(d)
  }

  // ----- Creating -----------------------------------------------------------------------------

  /** A document that `create_manifest` returns for the package. */
  ghost predicate Fresh(hash: Bytes -> Codes, pkg: Package, values: seq<Codes>, d: Document) {
    && HeaderOk(d) && ManagedRoots(values) == Some(d.roots)
    && IsCollection(pkg, hash, d.roots, d.files) && |d.files| <= MAX_FILES
    && d.contentSha == hash(ContentBytes(d)) && IsHex(d.contentSha, 64) && d.releaseId == ReleaseId(d)
  }
}
