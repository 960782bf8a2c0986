/** The manifest as the file that `write_manifest` leaves: its text, its size, and what the limit on
    that size means for loading it. */
module RuntimeFile {
  import opened Text
  import opened CanonicalJson
  import opened RuntimeCollector
  import opened RuntimeManifest

  // ----- The text -----------------------------------------------------------------------------

  /** How the platform ends lines. */
  predicate IsLineEnd(eol: Codes) {
    eol == [10] || eol == [13, 10]
  }

  function TextDoc(t: Codes): Doc { Atom(Str(t)) }
  function NumberDoc(n: int): Doc { Atom(Num(n)) }

  /** The fields of a record, in the order of their names. */
  function RecordDoc(r: Record): Doc {
    Fields([(ToCodes("relativePath"), TextDoc(r.path)), (ToCodes("sha256"), TextDoc(r.sha)),
            (ToCodes("size"), NumberDoc(r.size))])
  }

  function FilesDoc(files: seq<Record>): Doc {
    List(seq(|files|, i requires 0 <= i < |files| => RecordDoc(files[i])))
  }

  function RootsDoc(roots: seq<Codes>): Doc {
    List(seq(|roots|, i requires 0 <= i < |roots| => TextDoc(roots[i])))
  }

  /** The names of the fields, in order. */
  function FieldName(i: nat): string
    requires i < 8
  {
    match i
    case 0 => "contentSha256"
    case 1 => "createdAt"
    case 2 => "files"
    case 3 => "managedRoots"
    case 4 => "protocolVersion"
    case 5 => "runtimeReleaseId"
    case 6 => "schemaVersion"
    case _ => "sourceCommit"
  }

  function FieldDoc(d: Document, i: nat): Doc
    requires i < 8
  {
    match i
    case 0 => TextDoc(d.contentSha)
    case 1 => NumberDoc(d.createdAt)
    case 2 => FilesDoc(d.files)
    case 3 => RootsDoc(d.roots)
    case 4 => NumberDoc(d.protocol)
    case 5 => TextDoc(d.releaseId)
    case 6 => NumberDoc(1)
    case _ => TextDoc(d.commit)
  }

  function ManifestDoc(d: Document): Doc {
    Fields(seq(8, i requires 0 <= i < 8 => (ToCodes(FieldName(i)), FieldDoc(d, i))))
  }

  lemma FieldIsProper(d: Document, i: nat)
    requires i < 8
    ensures Proper(FieldDoc(d, i))
  {
    if i == 2 {
      forall k | 0 <= k < |d.files| ensures Proper(RecordDoc(d.files[k])) {}
    }
  }

  lemma ManifestIsProper(d: Document)
    ensures Proper(ManifestDoc(d))
  {
    forall i | 0 <= i < 8 ensures Proper(FieldDoc(d, i)) { FieldIsProper(d, i); }
  }

  /** json.dumps(document, ensure_ascii=True, indent=2, sort_keys=True) and a line end. */
  function ManifestText(d: Document, eol: Codes): Codes {
    ManifestIsProper(d);
    Print(ManifestDoc(d), Indented(0, eol)) + eol
  }

  // ----- Its size -----------------------------------------------------------------------------

  function DigitsOf(n: int): nat { |PrintInt(n)| }

  /** `e` is the length of a line end. */
  function RecordSize(r: Record, e: nat): nat {
    64 + 4 * e + |EscapeAll(r.path)| + |EscapeAll(r.sha)| + DigitsOf(r.size)
  }

  function FilesSize(files: seq<Record>, e: nat): nat {
    if files == [] then 0 else e + 5 + RecordSize(files[0], e) + FilesSize(files[1..], e)
  }

  function RootsSize(roots: seq<Codes>, e: nat): nat {
    if roots == [] then 0 else e + 7 + |EscapeAll(roots[0])| + RootsSize(roots[1..], e)
  }

  /** What brackets, the gap before the closing one and the missing last comma add to the items. */
  function ListSize(items: nat, sum: nat, e: nat): int {
    if items == 0 then 2 else sum + e + 3
  }

  function PrintedSize(d: Document, e: nat): int {
    159 + 10 * e + |EscapeAll(d.contentSha)| + |EscapeAll(d.releaseId)| + |EscapeAll(d.commit)|
    + DigitsOf(d.createdAt) + DigitsOf(d.protocol)
    + ListSize(|d.files|, FilesSize(d.files, e), e) + ListSize(|d.roots|, RootsSize(d.roots, e), e)
  }

  lemma PairLength(d: Doc, i: nat, l: Layout)
    requires Proper(d) && d.Fields? && i < |d.pairs| && l.Indented?
    ensures |PrintPairs(d, i, l)|
            == |l.eol| + 2 * l.depth + |EscapeAll(d.pairs[i].0)| + 4 + |Print(d.pairs[i].1, l)|
               + (if i + 1 == |d.pairs| then 0 else 1 + |PrintPairs(d, i + 1, l)|)
  {
  }

  lemma FieldsLength(d: Doc, l: Layout)
    requires Proper(d) && d.Fields? && d.pairs != [] && l.Indented?
    ensures |Print(d, l)| == 2 + |PrintPairs(d, 0, Deeper(l))| + |l.eol| + 2 * l.depth
  {
  }

  lemma ListLength(d: Doc, l: Layout)
    requires Proper(d) && d.List? && d.items != [] && l.Indented?
    ensures |Print(d, l)| == 2 + |PrintItems(d, 0, Deeper(l))| + |l.eol| + 2 * l.depth
  {
  }

  lemma ItemLength(d: Doc, i: nat, l: Layout)
    requires Proper(d) && d.List? && i < |d.items| && l.Indented?
    ensures |PrintItems(d, i, l)| == |l.eol| + 2 * l.depth + |Print(d.items[i], l)|
                                     + (if i + 1 == |d.items| then 0 else 1 + |PrintItems(d, i + 1, l)|)
  {
  }

  lemma {:induction false} NameEscapes(t: Codes)
    requires forall i :: 0 <= i < |t| ==> Plain(t[i])
    ensures EscapeAll(t) == t
  {
    if t != [] { NameEscapes(t[1..]); }
  }

  /** Printed as it is. */
  predicate Plain(c: Code) {
    32 <= c <= 126 && c != QUOTE && c != BACKSLASH
  }

  lemma KeyLength(s: string)
    requires forall i :: 0 <= i < |s| ==> 'a' <= s[i] <= 'z' || 'A' <= s[i] <= 'Z' || IsDigit(s[i])
    ensures |EscapeAll(ToCodes(s))| == |s|
  {
    NameEscapes(ToCodes(s));
  }

  /** The length of a field on its line. */
  function PairSize(p: (Codes, Doc), l: Layout): nat
    requires Proper(p.1) && l.Indented?
  {
    |l.eol| + 2 * l.depth + |EscapeAll(p.0)| + 4 + |Print(p.1, l)|
  }

  lemma ThreeFields(a: (Codes, Doc), b: (Codes, Doc), c: (Codes, Doc), l: Layout)
    requires Proper(a.1) && Proper(b.1) && Proper(c.1) && l.Indented?
    ensures Proper(Fields([a, b, c]))
    ensures |Print(Fields([a, b, c]), l)| == 4 + |l.eol| + 2 * l.depth
              + PairSize(a, Deeper(l)) + PairSize(b, Deeper(l)) + PairSize(c, Deeper(l))
  {
    var d := Fields([a, b, c]);
    FieldsLength(d, l);
    PairLength(d, 0, Deeper(l));
    PairLength(d, 1, Deeper(l));
    PairLength(d, 2, Deeper(l));
  }

  lemma RecordNames()
    ensures |EscapeAll(ToCodes("relativePath"))| == 12 && |EscapeAll(ToCodes("sha256"))| == 6
    ensures |EscapeAll(ToCodes("size"))| == 4
  {
    KeyLength("relativePath");
    KeyLength("sha256");
    KeyLength("size");
  }

  lemma RecordValues(r: Record, l: Layout)
    ensures |Print(TextDoc(r.path), l)| == 2 + |EscapeAll(r.path)| && |Print(TextDoc(r.sha), l)| == 2 + |EscapeAll(r.sha)|
    ensures |Print(NumberDoc(r.size), l)| == DigitsOf(r.size)
  {
  }

  lemma RecordLength(r: Record, eol: Codes)
    ensures Proper(RecordDoc(r)) && |Print(RecordDoc(r), Indented(2, eol))| == RecordSize(r, |eol|)
  {
    RecordNames();
    RecordValues(r, Deeper(Indented(2, eol)));
    ThreeFields((ToCodes("relativePath"), TextDoc(r.path)), (ToCodes("sha256"), TextDoc(r.sha)),
                (ToCodes("size"), NumberDoc(r.size)), Indented(2, eol));
  }

  lemma {:induction false} FilesLength(files: seq<Record>, d: Doc, i: nat, eol: Codes)
    requires d == FilesDoc(files) && i < |files| && Proper(d)
    ensures |PrintItems(d, i, Indented(2, eol))| == FilesSize(files[i..], |eol|) - 1
    decreases |files| - i
  {
    ItemLength(d, i, Indented(2, eol));
    RecordLength(files[i], eol);
    assert files[i..][0] == files[i] && files[i..][1..] == files[i + 1..];
    if i + 1 < |files| { FilesLength(files, d, i + 1, eol); }
  }

  lemma {:induction false} RootsLength(roots: seq<Codes>, d: Doc, i: nat, eol: Codes)
    requires d == RootsDoc(roots) && i < |roots| && Proper(d)
    ensures |PrintItems(d, i, Indented(2, eol))| == RootsSize(roots[i..], |eol|) - 1
    decreases |roots| - i
  {
    ItemLength(d, i, Indented(2, eol));
    assert roots[i..][0] == roots[i] && roots[i..][1..] == roots[i + 1..];
    if i + 1 < |roots| { RootsLength(roots, d, i + 1, eol); }
  }

  lemma ListsLength(d: Document, eol: Codes)
    ensures Proper(FilesDoc(d.files)) && Proper(RootsDoc(d.roots))
    ensures |Print(FilesDoc(d.files), Indented(1, eol))| == ListSize(|d.files|, FilesSize(d.files, |eol|), |eol|)
    ensures |Print(RootsDoc(d.roots), Indented(1, eol))| == ListSize(|d.roots|, RootsSize(d.roots, |eol|), |eol|)
  {
    FieldIsProper(d, 2);
    FieldIsProper(d, 3);
    if d.files != [] {
      ListLength(FilesDoc(d.files), Indented(1, eol));
      FilesLength(d.files, FilesDoc(d.files), 0, eol);
      assert d.files[0..] == d.files;
    }
    if d.roots != [] {
      ListLength(RootsDoc(d.roots), Indented(1, eol));
      RootsLength(d.roots, RootsDoc(d.roots), 0, eol);
      assert d.roots[0..] == d.roots;
    }
  }

  function ValueSize(d: Document, i: nat, e: nat): int
    requires i < 8
  {
    match i
    case 0 => 2 + |EscapeAll(d.contentSha)|
    case 1 => DigitsOf(d.createdAt)
    case 2 => ListSize(|d.files|, FilesSize(d.files, e), e)
    case 3 => ListSize(|d.roots|, RootsSize(d.roots, e), e)
    case 4 => DigitsOf(d.protocol)
    case 5 => 2 + |EscapeAll(d.releaseId)|
    case 6 => 1
    case _ => 2 + |EscapeAll(d.commit)|
  }

  lemma ValueLength(d: Document, i: nat, eol: Codes)
    requires i < 8
    ensures Proper(FieldDoc(d, i)) && |Print(FieldDoc(d, i), Indented(1, eol))| == ValueSize(d, i, |eol|)
  {
    FieldIsProper(d, i);
    if i == 2 || i == 3 { ListsLength(d, eol); }
    assert DigitsOf(1) == 1;
  }

  lemma NameLength(i: nat)
    requires i < 8
    ensures |EscapeAll(ToCodes(FieldName(i)))| == |FieldName(i)|
  {
    KeyLength(FieldName(i));
  }

  /** The fields from the i-th on. */
  function FieldsSize(d: Document, i: nat, e: nat): int
    requires i < 8
    decreases 8 - i
  {
    e + 6 + |FieldName(i)| + ValueSize(d, i, e) + (if i == 7 then 0 else 1 + FieldsSize(d, i + 1, e))
  }

  lemma {:induction false} FieldsLengths(d: Document, i: nat, eol: Codes)
    requires i < 8 && Proper(ManifestDoc(d))
    ensures |PrintPairs(ManifestDoc(d), i, Indented(1, eol))| == FieldsSize(d, i, |eol|)
    decreases 8 - i
  {
    PairLength(ManifestDoc(d), i, Indented(1, eol));
    NameLength(i);
    ValueLength(d, i, eol);
    if i < 7 { FieldsLengths(d, i + 1, eol); }
  }

  lemma FieldsSizeIs(d: Document, e: nat)
    ensures FieldsSize(d, 0, e) + 2 + 2 * e == PrintedSize(d, e)
  {
    assert FieldsSize(d, 4, e) == 4 * e + 83 + ValueSize(d, 4, e) + ValueSize(d, 5, e) + ValueSize(d, 6, e) + ValueSize(d, 7, e);
    assert FieldsSize(d, 0, e) == 4 * e + 67 + ValueSize(d, 0, e) + ValueSize(d, 1, e) + ValueSize(d, 2, e)
                                  + ValueSize(d, 3, e) + FieldsSize(d, 4, e);
  }

  /** The size of the file, as a sum over what the manifest lists. */
  lemma SizeIsPrintedSize(d: Document, eol: Codes)
    ensures |ManifestText(d, eol)| == PrintedSize(d, |eol|)
  {
    ManifestIsProper(d);
    FieldsLength(ManifestDoc(d), Indented(0, eol));
    FieldsLengths(d, 0, eol);
    FieldsSizeIs(d, |eol|);
  }
}
