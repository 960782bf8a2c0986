/** Which paths, roots and manifests are accepted, told in characters and numbers, and what stands in the
    written manifest and in the bytes it is hashed over. */
module RuntimeRules {
  import opened Wrappers
  import opened Octets
  import opened Text
  import opened CanonicalJson
  import opened CanonicalSpelling
  import opened RelativePath
  import opened RuntimeCollector
  import opened RuntimeManifest
  import opened MarkerScan
  import RuntimeFile

  // ----- Paths --------------------------------------------------------------------------------

  /** Neither NUL nor backslash nor a surrogate, and at most 512 bytes in UTF-8. */
  predicate Writable(t: Codes) {
    && (forall c :: c in t ==> c != 0 && c != 92 && !(0xd800 <= c <= 0xdfff))
    && |Utf8(t)| <= 512
  }

  predicate IsName(n: Codes) {
    n != [] && 47 !in n && n != [46] && n != [46, 46]
  }

  /** Names with a slash between them. */
  ghost predicate NamesJoined(t: Codes) {
    exists names: seq<Codes> :: names != [] && t == Join(names, 47) && forall i :: 0 <= i < |names| ==> IsName(names[i])
  }

  ghost predicate PathOk(t: Codes) {
    t != [] && Writable(t) && (t == [46] || NamesJoined(t))
  }

  lemma {:induction false} SizeInUtf8(t: Codes)
    ensures Utf8Size(t) == |Utf8(t)|
  {
    if t != [] { SizeInUtf8(t[1..]); }
  }

  lemma WritableIff(t: Codes)
    ensures Portable(t) <==> Writable(t)
  {
    SizeInUtf8(t);
    if Writable(t) {
      forall i | 0 <= i < |t| ensures !IsHigh(t[i]) && !IsLow(t[i]) { assert t[i] in t; }
    }
  }

  lemma NamesIff(t: Codes)
    ensures AreParts(Split(t, SLASH)) <==> NamesJoined(t)
  {
    var parts := Split(t, SLASH);
    if AreParts(parts) {
      assert forall i :: 0 <= i < |parts| ==> IsName(parts[i]);
    }
    if NamesJoined(t) {
      var names: seq<Codes> :| names != [] && t == Join(names, 47) && forall i :: 0 <= i < |names| ==> IsName(names[i]);
      SplitOfJoin(names, SLASH);
    }
  }

  /** A path is accepted exactly for these reasons. */
  lemma PathIff(t: Codes)
    ensures Relative(t) <==> PathOk(t)
  {
    RelativeIff(t);
    WritableIff(t);
    NamesIff(t);
  }

  // ----- Manifests ----------------------------------------------------------------------------

  predicate HexText(t: Codes, n: nat) {
    |t| == n && forall c :: c in t ==> LowerHex(c)
  }

  ghost predicate RootsOk(roots: seq<Codes>) {
    && roots != [] && (forall i :: 0 <= i < |roots| ==> PathOk(roots[i]))
    && (forall i, j :: 0 <= i < j < |roots| ==> Precedes(roots[i], roots[j]))
    && (forall i, j :: 0 <= i < j < |roots| ==> !(roots[i] + [47] <= roots[j]))
  }

  ghost predicate RecordFits(r: Record, roots: seq<Codes>) {
    && PathOk(r.path) && HexText(r.sha, 64)
    && exists i :: 0 <= i < |roots| && roots[i] + [47] <= r.path
  }

  ghost predicate RecordsFit(files: seq<Record>, roots: seq<Codes>) {
    && 1 <= |files| <= 4096 && (forall i :: 0 <= i < |files| ==> RecordFits(files[i], roots))
    && (forall i, j :: 0 <= i < j < |files| ==> Precedes(files[i].path, files[j].path))
  }

  ghost predicate HeaderFits(d: Document) {
    HexText(d.commit, 40) && 1 <= d.protocol <= 2147483647 && d.createdAt >= 1
  }

  /** granger-runtime-v1-p */
  function Prefix(): Codes {
    [103, 114, 97, 110, 103, 101, 114, 45, 114, 117, 110, 116, 105, 109, 101, 45, 118, 49, 45, 112]
  }

  lemma HexTextIff(t: Codes, n: nat)
    ensures IsHex(t, n) <==> HexText(t, n)
  {
    if HexText(t, n) {
      forall i | 0 <= i < n ensures IsDigitCode(t[i]) || 97 <= t[i] <= 102 { assert t[i] in t; }
    }
  }

  lemma {:induction false} SortedIsOnly(a: seq<Codes>, b: seq<Codes>)
    requires forall i, j :: 0 <= i < j < |a| ==> Before(a[i], a[j])
    requires forall i, j :: 0 <= i < j < |b| ==> Before(b[i], b[j])
    requires forall k :: k in a <==> k in b
    ensures a == b
  {
    assert (a != [] ==> a[0] in b) && (b != [] ==> b[0] in a);
    if a != [] {
      FirstAgrees(a, b);
      TailsAgree(a, b);
      SortedIsOnly(a[1..], b[1..]);
      assert a == [a[0]] + a[1..] && b == [b[0]] + b[1..];
    }
  }

  lemma FirstAgrees(a: seq<Codes>, b: seq<Codes>)
    requires a != [] && b != [] && forall k :: k in a <==> k in b
    requires forall i, j :: 0 <= i < j < |a| ==> Before(a[i], a[j])
    requires forall i, j :: 0 <= i < j < |b| ==> Before(b[i], b[j])
    ensures a[0] == b[0]
  {
    var i :| 0 <= i < |b| && b[i] == a[0] by { assert a[0] in b; }
    var j :| 0 <= j < |a| && a[j] == b[0] by { assert b[0] in a; }
    BeforeTotal(a[0], b[0]);
  }

  lemma TailsAgree(a: seq<Codes>, b: seq<Codes>)
    requires a != [] && b != [] && a[0] == b[0] && forall k :: k in a <==> k in b
    requires forall i, j :: 0 <= i < j < |a| ==> Before(a[i], a[j])
    requires forall i, j :: 0 <= i < j < |b| ==> Before(b[i], b[j])
    ensures forall k :: k in a[1..] <==> k in b[1..]
  {
    BeforeTotal(a[0], a[0]);
    forall k ensures k in a[1..] <==> k in a && k != a[0] { InTail(a, k); }
    forall k ensures k in b[1..] <==> k in b && k != b[0] { InTail(b, k); }
  }

  lemma InTail(a: seq<Codes>, k: Codes)
    requires a != [] && forall i, j :: 0 <= i < j < |a| ==> Before(a[i], a[j])
    ensures k in a[1..] <==> k in a && k != a[0]
  {
    BeforeTotal(a[0], a[0]);
    assert a == [a[0]] + a[1..];
    if k in a[1..] {
      var i :| 0 <= i < |a[1..]| && a[1..][i] == k;
      assert Before(a[0], a[i + 1]);
    }
  }

  lemma OrderIff(paths: seq<Codes>)
    ensures (forall i, j :: 0 <= i < j < |paths| ==> Before(paths[i], paths[j]))
            <==> forall i, j :: 0 <= i < j < |paths| ==> Precedes(paths[i], paths[j])
  {
    forall i, j | 0 <= i < j < |paths| ensures Before(paths[i], paths[j]) <==> Precedes(paths[i], paths[j]) {
      BeforeIsPrecedes(paths[i], paths[j]);
    }
  }

  lemma ProperRootsPass(roots: seq<Codes>)
    requires RootsOk(roots)
    ensures ManagedRoots(roots) == Some(roots)
  {
    forall v | v in roots ensures Relative(v) {
      var i :| 0 <= i < |roots| && roots[i] == v;
      PathIff(roots[i]);
    }
    OrderIff(roots);
    SortedIsOnly(Sorted(set v | v in roots), roots);
    forall i, j | 0 <= i < j < |roots| ensures !NestedAbove(roots, i, j) { assert !(roots[i] + [47] <= roots[j]); }
  }

  lemma PassedRootsAreProper(roots: seq<Codes>)
    requires ManagedRoots(roots) == Some(roots)
    ensures RootsOk(roots)
  {
    assert Sorted(set v | v in roots) == roots;
    OrderIff(roots);
    forall i | 0 <= i < |roots| ensures PathOk(roots[i]) {
      assert roots[i] in roots;
      PathIff(roots[i]);
    }
    forall i, j | 0 <= i < j < |roots| ensures !(roots[i] + [47] <= roots[j]) { assert !NestedAbove(roots, i, j); }
  }

  /** A list of roots is accepted as it stands exactly if it is proper, ordered and without nesting. */
  lemma RootsIff(roots: seq<Codes>)
    ensures ManagedRoots(roots) == Some(roots) <==> RootsOk(roots)
  {
    if RootsOk(roots) { ProperRootsPass(roots); }
    if ManagedRoots(roots) == Some(roots) { PassedRootsAreProper(roots); }
  }

  lemma RecordsIff(files: seq<Record>, roots: seq<Codes>)
    ensures FilesOk(files, roots) && 1 <= |files| <= MAX_FILES <==> RecordsFit(files, roots)
  {
    forall i | 0 <= i < |files| ensures RecordOk(files[i], roots) <==> RecordFits(files[i], roots) {
      PathIff(files[i].path);
      HexTextIff(files[i].sha, 64);
    }
    forall i, j | 0 <= i < j < |files|
      ensures Before(files[i].path, files[j].path) <==> Precedes(files[i].path, files[j].path)
    {
      BeforeIsPrecedes(files[i].path, files[j].path);
    }
  }

  lemma HeaderIff(d: Document)
    ensures HeaderOk(d) <==> HeaderFits(d)
  {
    HexTextIff(d.commit, 40);
  }

  lemma PrefixIs()
    ensures ToCodes("granger-runtime-v1-p") == Prefix()
  {
  }

  /** The protocol has one spelling. */
  lemma ReleaseIdSpelled(d: Document)
    requires HeaderOk(d) && IsHex(d.contentSha, 64)
    ensures ReleaseId(d) == Prefix() + PrintInt(d.protocol) + [45] + d.commit[..12] + [45] + d.contentSha[..16]
    ensures SpellsInt(PrintInt(d.protocol), d.protocol)
  {
    PrefixIs();
    IntIsSpelled(d.protocol);
  }

  /** The manifest with its digests: the conditions of loading, all of them. */
  ghost predicate ManifestFits(hash: Bytes -> Codes, d: Document) {
    && HeaderFits(d) && RootsOk(d.roots) && RecordsFit(d.files, d.roots)
    && HexText(d.contentSha, 64) && d.contentSha == hash(ContentBytes(d))
    && d.releaseId == Prefix() + PrintInt(d.protocol) + [45] + d.commit[..12] + [45] + d.contentSha[..16]
  }

  /** A manifest is loaded exactly for these reasons, from a file of at most four mebibytes. */
  lemma LoadsIff(hash: Bytes -> Codes, d: Document, size: nat)
    ensures Loads(hash, d, size) <==> size <= 4194304 && ManifestFits(hash, d)
  {
    HeaderIff(d);
    RootsIff(d.roots);
    RecordsIff(d.files, d.roots);
    HexTextIff(d.contentSha, 64);
    if HeaderOk(d) && IsHex(d.contentSha, 64) { ReleaseIdSpelled(d); }
  }

  // ----- What is hashed -----------------------------------------------------------------------

  function CodesOf(s: string): Codes { seq(|s|, i requires 0 <= i < |s| => s[i] as int) }

  lemma CodesAre(s: string)
    ensures ToCodes(s) == CodesOf(s)
  {
  }

  predicate HasField(v: Json, name: string, value: Json) {
    v.Obj? && CodesOf(name) in v.fields && v.fields[CodesOf(name)] == value
  }

  predicate IsRecord(v: Json, r: Record) {
    HasField(v, "relativePath", Str(r.path)) && HasField(v, "sha256", Str(r.sha)) && HasField(v, "size", Num(r.size))
    && |v.fields.Keys| == 3
  }

  lemma KeysApart(a: string, b: string)
    requires |a| != |b| || (a != "" && b != "" && a[0] != b[0])
    ensures ToCodes(a) != ToCodes(b)
  {
    if a != "" && b != "" { assert ToCodes(a)[0] == a[0] as int && ToCodes(b)[0] == b[0] as int; }
  }

  lemma RecordIs(r: Record)
    ensures IsRecord(RecordJson(r), r)
  {
    CodesAre("relativePath");
    CodesAre("sha256");
    CodesAre("size");
    KeysApart("relativePath", "sha256");
    KeysApart("relativePath", "size");
    KeysApart("sha256", "size");
    var v := RecordJson(r);
    assert v.fields.Keys == {ToCodes("relativePath"), ToCodes("sha256"), ToCodes("size")};
  }

  /** Files, roots, protocol, schema and commit, and nothing else. */
  predicate IsContent(v: Json, d: Document) {
    && v.Obj? && |v.fields.Keys| == 5
    && HasField(v, "protocolVersion", Num(d.protocol)) && HasField(v, "schemaVersion", Num(1))
    && HasField(v, "sourceCommit", Str(d.commit))
    && CodesOf("managedRoots") in v.fields && v.fields[CodesOf("managedRoots")] == Arr(seq(|d.roots|, i requires 0 <= i < |d.roots| => Str(d.roots[i])))
    && CodesOf("files") in v.fields && v.fields[CodesOf("files")].Arr?
    && |v.fields[CodesOf("files")].items| == |d.files|
    && forall i :: 0 <= i < |d.files| ==> IsRecord(v.fields[CodesOf("files")].items[i], d.files[i])
  }

  lemma ContentKeys()
    ensures |{ToCodes("files"), ToCodes("managedRoots"), ToCodes("protocolVersion"), ToCodes("schemaVersion"),
              ToCodes("sourceCommit")}| == 5
  {
    KeysApart("files", "managedRoots");
    KeysApart("files", "protocolVersion");
    KeysApart("files", "schemaVersion");
    KeysApart("files", "sourceCommit");
    KeysApart("managedRoots", "protocolVersion");
    KeysApart("managedRoots", "schemaVersion");
    KeysApart("managedRoots", "sourceCommit");
    KeysApart("protocolVersion", "schemaVersion");
    KeysApart("protocolVersion", "sourceCommit");
    KeysApart("schemaVersion", "sourceCommit");
  }

  lemma ContentNames()
    ensures ToCodes("files") == CodesOf("files") && ToCodes("managedRoots") == CodesOf("managedRoots")
    ensures ToCodes("protocolVersion") == CodesOf("protocolVersion") && ToCodes("schemaVersion") == CodesOf("schemaVersion")
    ensures ToCodes("sourceCommit") == CodesOf("sourceCommit")
  {
    CodesAre("files");
    CodesAre("managedRoots");
    CodesAre("protocolVersion");
    CodesAre("schemaVersion");
    CodesAre("sourceCommit");
  }

  /** The digest is over these five fields. */
  lemma ContentIs(d: Document)
    ensures IsContent(ContentJson(d), d)
  {
    var v := ContentJson(d);
    ContentKeys();
    ContentNames();
    assert v.fields.Keys == {ToCodes("files"), ToCodes("managedRoots"), ToCodes("protocolVersion"),
                             ToCodes("schemaVersion"), ToCodes("sourceCommit")};
    FilesOfContent(d);
    forall i | 0 <= i < |d.files| ensures IsRecord(RecordJson(d.files[i]), d.files[i]) { RecordIs(d.files[i]); }
  }

  lemma FilesOfContent(d: Document)
    ensures var v := ContentJson(d);
            && ToCodes("files") in v.fields && v.fields[ToCodes("files")].Arr?
            && |v.fields[ToCodes("files")].items| == |d.files|
            && forall i :: 0 <= i < |d.files| ==> v.fields[ToCodes("files")].items[i] == RecordJson(d.files[i])
    ensures var v := ContentJson(d);
            && ToCodes("managedRoots") in v.fields
            && v.fields[ToCodes("managedRoots")] == Arr(seq(|d.roots|, i requires 0 <= i < |d.roots| => Str(d.roots[i])))
    ensures HasField(ContentJson(d), "protocolVersion", Num(d.protocol)) && HasField(ContentJson(d), "schemaVersion", Num(1))
    ensures HasField(ContentJson(d), "sourceCommit", Str(d.commit))
  {
    ContentNames();
    KeysApart("files", "managedRoots");
    KeysApart("files", "protocolVersion");
    KeysApart("files", "schemaVersion");
    KeysApart("files", "sourceCommit");
    KeysApart("managedRoots", "protocolVersion");
    KeysApart("managedRoots", "schemaVersion");
    KeysApart("managedRoots", "sourceCommit");
    KeysApart("protocolVersion", "schemaVersion");
    KeysApart("protocolVersion", "sourceCommit");
    KeysApart("schemaVersion", "sourceCommit");
  }

  // ----- What is written ----------------------------------------------------------------------

  const NAMES: seq<string> := ["contentSha256", "createdAt", "files", "managedRoots", "protocolVersion",
                               "runtimeReleaseId", "schemaVersion", "sourceCommit"]

  function TextOf(t: Codes): Doc { Atom(Str(t)) }
  function NumberOf(n: int): Doc { Atom(Num(n)) }

  function RecordOf(r: Record): Doc {
    Fields([(CodesOf("relativePath"), TextOf(r.path)), (CodesOf("sha256"), TextOf(r.sha)), (CodesOf("size"), NumberOf(r.size))])
  }

  predicate IsValue(v: Doc, d: Document, i: nat) {
    match i
    case 0 => v == TextOf(d.contentSha)
    case 1 => v == NumberOf(d.createdAt)
    case 2 => v.List? && |v.items| == |d.files| && forall k :: 0 <= k < |d.files| ==> v.items[k] == RecordOf(d.files[k])
    case 3 => v.List? && |v.items| == |d.roots| && forall k :: 0 <= k < |d.roots| ==> v.items[k] == TextOf(d.roots[k])
    case 4 => v == NumberOf(d.protocol)
    case 5 => v == TextOf(d.releaseId)
    case 6 => v == NumberOf(1)
    case 7 => v == TextOf(d.commit)
    case _ => false
  }

  /** Lines end in a line feed, with or without a carriage return before it. */
  lemma LineEndIff(eol: Codes)
    ensures RuntimeFile.IsLineEnd(eol) <==> eol == [10] || eol == [13, 10]
  {
  }

  /** Plain characters are those that are printed as they are. */
  lemma PlainIff(c: Code)
    ensures RuntimeFile.Plain(c) <==> Escape(c) == [c]
  {
  }

  lemma WrittenRecord(r: Record)
    ensures RuntimeFile.RecordDoc(r) == RecordOf(r)
  {
    CodesAre("relativePath");
    CodesAre("sha256");
    CodesAre("size");
  }

  /** The eight fields of the file, each under its name, in this order. */
  lemma WrittenField(d: Document, i: nat)
    requires i < 8
    ensures var doc := RuntimeFile.ManifestDoc(d);
            doc.Fields? && |doc.pairs| == 8 && doc.pairs[i].0 == CodesOf(NAMES[i]) && IsValue(doc.pairs[i].1, d, i)
  {
    CodesAre(NAMES[i]);
    assert RuntimeFile.FieldName(i) == NAMES[i];
    forall k | 0 <= k < |d.files| ensures RuntimeFile.RecordDoc(d.files[k]) == RecordOf(d.files[k]) { WrittenRecord(d.files[k]); }
  }
}
