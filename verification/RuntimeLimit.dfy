/** Loading what was written: when the size of the file decides, and that it can. */
module RuntimeLimit {
  import opened Wrappers
  import opened Octets
  import opened Chunks
  import opened FileTree
  import opened Text
  import opened CanonicalJson
  import opened CanonicalRoundTrip
  import opened CanonicalLimits
  import opened RelativePath
  import opened RuntimeCollector
  import opened RuntimeManifest
  import opened RuntimeTheorems
  import opened RuntimeFile

  /** A fresh manifest, written to a file, loads exactly when the single dot was not given as a root,
      there is a file, every file name is portable, and the text is within the limit. */
  lemma FreshLoadsIff(hash: Bytes -> Codes, pkg: Package, values: seq<Codes>, d: Document, eol: Codes)
    requires WellNamed(pkg) && HashesToHex(hash) && Fresh(hash, pkg, values, d)
    ensures Loads(hash, d, |ManifestText(d, eol)|) <==>
              && DOT !in values && d.files != [] && (forall r :: r in d.files ==> Portable(r.path))
              && PrintedSize(d, |eol|) <= MAX_MANIFEST_BYTES
  {
    FreshAcceptedIff(hash, pkg, values, d);
    SizeIsPrintedSize(d, eol);
  }

  // ----- Reading back -------------------------------------------------------------------------

  /** The names of the fields are in order, as sort_keys demands. */
  lemma NamesInOrder(i: nat)
    requires i < 7
    ensures Before(ToCodes(FieldName(i)), ToCodes(FieldName(i + 1)))
  {
    var a, b := ToCodes(FieldName(i)), ToCodes(FieldName(i + 1));
    if i == 0 || i == 6 { assert a[0] == b[0] && a[1..][0] == a[1] && b[1..][0] == b[1]; }
  }

  lemma AsciiIsPaired(t: Codes)
    requires Ascii(t)
    ensures WellPaired(t)
  {
  }

  lemma ReleaseIdIsAscii(d: Document)
    requires IsHex(d.commit, 40) && IsHex(d.contentSha, 64)
    ensures Ascii(ReleaseId(d))
  {
    ScalarIsAscii(Num(d.protocol));
  }

  lemma AcceptedIsPaired(hash: Bytes -> Codes, d: Document)
    requires Accepted(hash, d)
    ensures Proper(ManifestDoc(d)) && Paired(ManifestDoc(d))
  {
    ManifestIsProper(d);
    FilesArePaired(d.files, d.roots);
    RootsArePaired(d.roots);
    ReleaseIdIsAscii(d);
    AsciiIsPaired(d.releaseId);
    forall i | 0 <= i < 8 ensures WellPaired(ToCodes(FieldName(i))) && Paired(FieldDoc(d, i)) {
      FieldNameIsPaired(i);
      FieldIsPaired(d, i);
    }
  }

  lemma FieldIsPaired(d: Document, i: nat)
    requires i < 8 && IsHex(d.contentSha, 64) && IsHex(d.commit, 40) && WellPaired(d.releaseId)
    requires Paired(FilesDoc(d.files)) && Paired(RootsDoc(d.roots))
    ensures Paired(FieldDoc(d, i))
  {
    HexIsPaired(d.contentSha, 64);
    HexIsPaired(d.commit, 40);
  }

  lemma FilesArePaired(files: seq<Record>, roots: seq<Codes>)
    requires FilesOk(files, roots)
    ensures Paired(FilesDoc(files))
  {
    forall k | 0 <= k < |files| ensures Paired(RecordDoc(files[k])) {
      EncodableIsPaired(files[k].path);
      HexIsPaired(files[k].sha, 64);
      RecordDocIsPaired(files[k]);
    }
  }

  lemma RecordDocIsPaired(r: Record)
    requires WellPaired(r.path) && WellPaired(r.sha)
    ensures Paired(RecordDoc(r))
  {
    NamesArePaired();
    ThreePaired((ToCodes("relativePath"), TextDoc(r.path)), (ToCodes("sha256"), TextDoc(r.sha)),
                (ToCodes("size"), NumberDoc(r.size)));
  }

  lemma ThreePaired(a: (Codes, Doc), b: (Codes, Doc), c: (Codes, Doc))
    requires WellPaired(a.0) && WellPaired(b.0) && WellPaired(c.0) && Paired(a.1) && Paired(b.1) && Paired(c.1)
    ensures Paired(Fields([a, b, c]))
  {
  }

  lemma RootsArePaired(roots: seq<Codes>)
    requires ManagedRoots(roots) == Some(roots)
    ensures Paired(RootsDoc(roots))
  {
    RootsOfFresh(roots);
    forall k | 0 <= k < |roots| ensures WellPaired(roots[k]) {
      assert roots[k] in roots && Relative(roots[k]);
      EncodableIsPaired(roots[k]);
    }
  }

  lemma EncodableIsPaired(t: Codes)
    requires Encodable(t)
    ensures WellPaired(t)
  {
  }

  lemma NamesArePaired()
    ensures WellPaired(ToCodes("relativePath")) && WellPaired(ToCodes("sha256")) && WellPaired(ToCodes("size"))
  {
  }

  lemma FieldNameIsPaired(i: nat)
    requires i < 8
    ensures WellPaired(ToCodes(FieldName(i)))
  {
  }

  /** An acceptable manifest is read back from its file as it was written. */
  lemma WrittenReadsBack(hash: Bytes -> Codes, d: Document, eol: Codes)
    requires Accepted(hash, d) && IsLineEnd(eol)
    ensures ReadText(ManifestText(d, eol)) == Some(ManifestDoc(d))
  {
    AcceptedIsPaired(hash, d);
    var l := Indented(0, eol);
    PrintStart(ManifestDoc(d), l);
    ReadPrinted(ManifestDoc(d), l, eol);
    SkipSpace(eol, []);
    assert eol + [] == eol;
  }

  // ----- When the limit never matters ---------------------------------------------------------

  predicate PlainText(t: Codes) {
    forall i :: 0 <= i < |t| ==> Plain(t[i])
  }

  lemma {:induction false} CharactersWithinBytes(t: Codes)
    ensures |t| <= Utf8Size(t)
  {
    if t != [] { CharactersWithinBytes(t[1..]); }
  }

  lemma PlainPathSize(t: Codes)
    requires PlainText(t) && Portable(t)
    ensures |EscapeAll(t)| <= MAX_PATH_BYTES
  {
    NameEscapes(t);
    CharactersWithinBytes(t);
  }

  lemma DigitsBound(n: nat, k: nat)
    requires n < Pow10(k) && k >= 1
    ensures DigitsOf(n) <= k
  {
    NumeralOfDecimal(n);
    NumeralBound(Decimal(n), k);
  }

  lemma HexSize(t: Codes, n: nat)
    requires IsHex(t, n)
    ensures |EscapeAll(t)| == n
  {
    NameEscapes(t);
  }

  /** Sizes and times of twenty digits at most. */
  const HUGE: nat := 100_000_000_000_000_000_000

  lemma HugeIs()
    ensures Pow10(20) == HUGE && Pow10(10) == 10_000_000_000
  {
    assert Pow10(5) == 100_000;
    assert Pow10(10) == 100_000 * Pow10(5);
    assert Pow10(15) == 100_000 * Pow10(10);
    assert Pow10(20) == 100_000 * Pow10(15);
  }

  lemma {:induction false} FilesSizeBound(files: seq<Record>, e: nat)
    requires e <= 2
    requires forall r :: r in files ==> PlainText(r.path) && Portable(r.path) && IsHex(r.sha, 64) && r.size < HUGE
    ensures FilesSize(files, e) <= 675 * |files|
  {
    if files != [] {
      var r := files[0];
      assert r in files;
      PlainPathSize(r.path);
      HexSize(r.sha, 64);
      HugeIs();
      DigitsBound(r.size, 20);
      forall q | q in files[1..] ensures q in files {}
      FilesSizeBound(files[1..], e);
    }
  }

  lemma {:induction false} RootsSizeBound(roots: seq<Codes>, e: nat)
    requires e <= 2 && forall v :: v in roots ==> PlainText(v) && Portable(v)
    ensures RootsSize(roots, e) <= 521 * |roots|
  {
    if roots != [] {
      assert roots[0] in roots;
      PlainPathSize(roots[0]);
      forall v | v in roots[1..] ensures v in roots {}
      RootsSizeBound(roots[1..], e);
    }
  }

  lemma PlainSum(a: Codes, b: Codes)
    requires PlainText(a) && PlainText(b)
    ensures PlainText(a + b)
  {
  }

  lemma PlainPrefix()
    ensures |ToCodes("granger-runtime-v1-p")| == 20 && PlainText(ToCodes("granger-runtime-v1-p"))
  {
  }

  lemma PlainNumber(n: nat)
    ensures PlainText(PrintInt(n))
  {
  }

  lemma ReleaseIdIsPlain(d: Document)
    requires HeaderOk(d) && IsHex(d.contentSha, 64)
    ensures PlainText(ReleaseId(d)) && |ReleaseId(d)| == 50 + DigitsOf(d.protocol)
  {
    PlainPrefix();
    PlainNumber(d.protocol);
    var a := ToCodes("granger-runtime-v1-p") + PrintInt(d.protocol);
    PlainSum(ToCodes("granger-runtime-v1-p"), PrintInt(d.protocol));
    PlainSum(a, [MINUS]);
    PlainSum(a + [MINUS], d.commit[..12]);
    PlainSum(a + [MINUS] + d.commit[..12], [MINUS]);
    PlainSum(a + [MINUS] + d.commit[..12] + [MINUS], d.contentSha[..16]);
  }

  lemma ReleaseIdSize(d: Document)
    requires HeaderOk(d) && IsHex(d.contentSha, 64)
    ensures |EscapeAll(ReleaseId(d))| <= 60
  {
    ReleaseIdIsPlain(d);
    NameEscapes(ReleaseId(d));
    HugeIs();
    DigitsBound(d.protocol, 10);
  }

  /** With plain ASCII paths and at most two thousand roots the limit on the number of files keeps the
      file within the limit on its size, so an acceptable manifest loads. */
  lemma PlainManifestFits(hash: Bytes -> Codes, d: Document, eol: Codes)
    requires Accepted(hash, d) && IsLineEnd(eol) && d.createdAt < HUGE && |d.roots| <= 2000
    requires forall r :: r in d.files ==> PlainText(r.path) && r.size < HUGE
    requires forall v :: v in d.roots ==> PlainText(v)
    ensures Loads(hash, d, |ManifestText(d, eol)|)
  {
    var e := |eol|;
    forall r | r in d.files ensures Portable(r.path) && IsHex(r.sha, 64) {
      var k :| 0 <= k < |d.files| && d.files[k] == r;
      assert RecordOk(d.files[k], d.roots);
    }
    FilesSizeBound(d.files, e);
    RootsOfFresh(d.roots);
    RootsSizeBound(d.roots, e);
    ReleaseIdSize(d);
    HexSize(d.contentSha, 64);
    HexSize(d.commit, 40);
    HugeIs();
    DigitsBound(d.createdAt, 20);
    DigitsBound(d.protocol, 10);
    SizeIsPrintedSize(d, eol);
  }

  // ----- When it does -------------------------------------------------------------------------

  const ROOT: Codes := [114]
  const COUNT: nat := 4096

  /** 252 characters of two bytes each, different for each number. */
  function WideName(i: nat): (n: Codes)
    requires i < COUNT
    ensures |n| == 252 && forall k :: 0 <= k < |n| ==> 0x100 <= n[k] < 0x200
  {
    seq(252, k requires 0 <= k < 252 => if k == 0 then 0x100 + i / 64 else if k == 1 then 0x100 + i % 64 else 0x100)
  }

  lemma WideNamesDiffer(i: nat, j: nat)
    requires i < COUNT && j < COUNT && i != j
    ensures WideName(i) != WideName(j)
  {
    assert WideName(i)[0] == 0x100 + i / 64 && WideName(j)[0] == 0x100 + j / 64;
    assert WideName(i)[1] == 0x100 + i % 64 && WideName(j)[1] == 0x100 + j % 64;
  }

  ghost predicate IsWide(n: Codes) {
    exists i :: 0 <= i < COUNT && n == WideName(i)
  }

  function WidePlaces(): (ps: seq<Place>)
    ensures |ps| == COUNT && forall i :: 0 <= i < COUNT ==> ps[i] == [ROOT, WideName(i)]
  {
    seq(COUNT, i requires 0 <= i < COUNT => [ROOT, WideName(i)])
  }

  function WideNames(): set<Codes> {
    set i | 0 <= i < COUNT :: WideName(i)
  }

  /** One directory of empty files with wide names. */
  function WidePackage(): Package {
    Dir(map[ROOT := Dir(map n | n in WideNames() :: File([]))])
  }

  lemma WideEntries(p: Place)
    ensures At(WidePackage(), p).Some? <==> p == [] || p == [ROOT] || (|p| == 2 && p[0] == ROOT && IsWide(p[1]))
    ensures |p| == 2 && p[0] == ROOT && IsWide(p[1]) ==> At(WidePackage(), p) == Some(File([]))
    ensures IsFolder(WidePackage(), [ROOT])
  {
    var pkg := WidePackage();
    var inner := pkg.entries[ROOT];
    assert forall n :: n in inner.entries <==> IsWide(n);
    assert [ROOT][1..] == [];
    if p != [] && p[0] == ROOT && |p| > 1 {
      var q := p[1..];
      assert At(pkg, p) == At(inner, q) && q[0] == p[1];
      if IsWide(p[1]) {
        assert inner.entries[q[0]] == File([]) && At(inner, q) == At(inner.entries[q[0]], q[1..]);
        assert |p| == 2 ==> q[1..] == [];
      }
    }
  }

  lemma WideIsPart(n: Codes)
    requires n == ROOT || IsWide(n)
    ensures IsPart(n)
  {
    if IsWide(n) {
      var i :| 0 <= i < COUNT && n == WideName(i);
      assert n[0] != 46;
    }
  }

  lemma WideIsWellNamed()
    ensures WellNamed(WidePackage())
  {
    forall p | At(WidePackage(), p).Some? ensures AreParts(p) {
      WideEntries(p);
      forall k | 0 <= k < |p| ensures IsPart(p[k]) { WideIsPart(p[k]); }
    }
  }

  lemma RootIsPlace()
    ensures PlaceOf(ROOT) == [ROOT] && Relative(ROOT)
  {
    SplitOfJoin([ROOT], SLASH);
    assert Join([ROOT], SLASH) == ROOT;
    WideIsPart(ROOT);
    assert AreParts(Split(ROOT, SLASH));
    assert Utf8Size(ROOT[1..]) == 0;
    RelativeIff(ROOT);
  }

  lemma WidePlacesAreAll()
    ensures ListsAll(WidePackage(), WidePlaces(), [ROOT]) && AreFiles(WidePackage(), WidePlaces())
  {
    var ps := WidePlaces();
    forall i, j | 0 <= i < j < |ps| ensures ps[i] != ps[j] {
      WideNamesDiffer(i, j);
      assert ps[i][1] == WideName(i) && ps[j][1] == WideName(j);
    }
    forall p | p in ps ensures IsFile(WidePackage(), p) && [ROOT] <= p {
      WideEntries(p);
      assert IsWide(p[1]);
    }
    forall p | IsFile(WidePackage(), p) && [ROOT] <= p ensures p in ps {
      WideEntries(p);
      var i :| 0 <= i < COUNT && p[1] == WideName(i);
      assert p == ps[i];
    }
  }

  // ----- Sizes of wide texts ------------------------------------------------------------------

  lemma {:induction false} WideSizes(t: Codes)
    requires forall k :: 0 <= k < |t| ==> 0x100 <= t[k] < 0x200
    ensures |EscapeAll(t)| == 6 * |t| && Utf8Size(t) == 2 * |t|
  {
    if t != [] {
      assert |Escape(t[0])| == 6;
      WideSizes(t[1..]);
    }
  }

  lemma WidePath(i: nat)
    requires i < COUNT
    ensures |EscapeAll(Spell([ROOT, WideName(i)]))| == 1514 && Portable(Spell([ROOT, WideName(i)]))
  {
    var n := WideName(i);
    var path := Spell([ROOT, n]);
    assert [ROOT, n][1..] == [n] && Join([n], SLASH) == n;
    assert path == ROOT + [SLASH] + n == [114, 47] + n;
    assert path[1..] == [47] + n && path[1..][1..] == n;
    WideSizes(n);
    assert EscapeAll(path) == [114] + ([47] + EscapeAll(n));
  }

  lemma {:induction false} FilesSizeAtLeast(files: seq<Record>, e: nat)
    requires forall r :: r in files ==> |EscapeAll(r.path)| >= 1514
    ensures FilesSize(files, e) >= 1514 * |files|
  {
    if files != [] {
      assert files[0] in files;
      forall q | q in files[1..] ensures q in files {}
      FilesSizeAtLeast(files[1..], e);
    }
  }

  lemma WideFiles(hash: Bytes -> Codes) returns (files: seq<Record>)
    ensures IsCollection(WidePackage(), hash, [ROOT], files) && |files| == COUNT
    ensures forall r :: r in files ==> Portable(r.path) && |EscapeAll(r.path)| == 1514
  {
    var pkg, places := WidePackage(), WidePlaces();
    WidePlacesAreAll();
    RootIsPlace();
    WideEntries([ROOT]);
    var segments: seq<seq<Place>> := [places];
    assert segments[1..] == [] && Concat(segments) == places + Concat(segments[1..]) == places;
    var records := RecordsAt(pkg, hash, places);
    files := SortByPath(records);
    SortedIsOrdered(records);
    CollectionOf(pkg, hash, [ROOT], places, segments, records, files);
    forall r | r in files ensures Portable(r.path) && |EscapeAll(r.path)| == 1514 {
      SameElements(files, records, r);
      var i :| 0 <= i < |records| && records[i] == r;
      WidePath(i);
    }
  }

  /** A fresh manifest that meets every other condition and does not load, however lines end. */
  lemma OversizedManifest(hash: Bytes -> Codes) returns (pkg: Package, d: Document)
    requires HashesToHex(hash)
    ensures WellNamed(pkg) && Fresh(hash, pkg, [ROOT], d)
    ensures DOT !in [ROOT] && d.files != [] && forall r :: r in d.files ==> Portable(r.path)
    ensures forall eol :: !Loads(hash, d, |ManifestText(d, eol)|)
  {
    pkg := WidePackage();
    WideIsWellNamed();
    var files := WideFiles(hash);
    d := FreshWith(hash, pkg, files);
    forall eol ensures !Loads(hash, d, |ManifestText(d, eol)|) {
      FilesSizeAtLeast(files, |eol|);
      SizeIsPrintedSize(d, eol);
      assert RootsSize(d.roots, |eol|) >= 0;
    }
  }

  lemma FreshWith(hash: Bytes -> Codes, pkg: Package, files: seq<Record>) returns (d: Document)
    requires HashesToHex(hash) && IsCollection(pkg, hash, [ROOT], files) && |files| <= MAX_FILES
    ensures Fresh(hash, pkg, [ROOT], d) && d.files == files
  {
    var commit := seq(40, i => 48);
    var blank := Document(1, files, [ROOT], 1, commit, [], []);
    var sha := hash(ContentBytes(blank));
    var half := blank.(contentSha := sha);
    d := half.(releaseId := ReleaseId(half));
    assert ContentJson(d) == ContentJson(blank);
    RootIsPlace();
    OneRoot();
  }

  lemma OneRoot()
    ensures ManagedRoots([ROOT]) == Some([ROOT])
  {
    RootIsPlace();
    RootsIffApart([ROOT]);
    RootsOfFresh([ROOT]);
    var roots := ManagedRoots([ROOT]).value;
    assert roots[0] in roots;
  }
}
