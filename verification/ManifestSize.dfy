/** How large a manifest is, in its canonical text and in plain UTF-8, and what the limit of `read_json`
    therefore means for the copy that `prepare` keeps. */
module ManifestSize {
  import opened Wrappers
  import opened Text
  import opened CanonicalJson
  import opened CanonicalRoundTrip
  import ProductVersion
  import opened ManifestText
  import opened ReleaseManifest
  import Base64Url
  import Octets
  import RuntimeFile
  import RuntimeLimit
  import MarkerScan

  // ----- Spelling an object -------------------------------------------------------------------

  /** The fields from the i-th on and the closing brace; names and values are spelled already. */
  function Spelled(fields: seq<(Codes, Codes)>, i: nat): Codes
    requires i < |fields|
    decreases |fields| - i
  {
    fields[i].0 + ([COLON] + (fields[i].1 + SpelledTail(fields, i)))
  }

  function SpelledTail(fields: seq<(Codes, Codes)>, i: nat): Codes
    requires i < |fields|
    decreases |fields| - i, 0
  {
    if i + 1 == |fields| then [RBRACE] else [COMMA] + Spelled(fields, i + 1)
  }

  function SpelledSize(fields: seq<(Codes, Codes)>, i: nat): nat
    requires i <= |fields|
    decreases |fields| - i
  {
    if i == |fields| then 0 else |fields[i].0| + |fields[i].1| + 2 + SpelledSize(fields, i + 1)
  }

  lemma {:induction false} SpelledLength(fields: seq<(Codes, Codes)>, i: nat)
    requires i < |fields|
    ensures |Spelled(fields, i)| == SpelledSize(fields, i)
    decreases |fields| - i
  {
    if i + 1 < |fields| { SpelledLength(fields, i + 1); }
  }

  /** The text of a value, whatever may stand behind it. */
  ghost predicate ReadsAs(text: Codes, d: Doc) {
    && text != [] && !IsSpace(text[0])
    && forall rest :: Closes(rest) ==> ReadDoc(text + rest) == Some((d, rest))
  }

  ghost predicate SpellsField(spelled: (Codes, Codes), field: (Codes, Doc)) {
    WellPaired(field.0) && spelled.0 == PrintStr(field.0) && ReadsAs(spelled.1, field.1)
  }

  ghost predicate AllSpelled(fields: seq<(Codes, Codes)>, pairs: seq<(Codes, Doc)>) {
    |fields| == |pairs| && forall k :: 0 <= k < |pairs| ==> SpellsField(fields[k], pairs[k])
  }

  lemma SpelledStart(fields: seq<(Codes, Codes)>, pairs: seq<(Codes, Doc)>, i: nat)
    requires AllSpelled(fields, pairs) && i < |pairs|
    ensures Spelled(fields, i) != [] && Spelled(fields, i)[0] == QUOTE
    ensures Skip(Spelled(fields, i)) == Spelled(fields, i)
  {
    assert SpellsField(fields[i], pairs[i]);
  }

  /** The reader behind the name of a field. */
  lemma ReadSpelledKey(fields: seq<(Codes, Codes)>, pairs: seq<(Codes, Doc)>, i: nat) returns (value: Codes)
    requires AllSpelled(fields, pairs) && i < |pairs|
    ensures ReadKey(Spelled(fields, i)) == Some((pairs[i].0, value))
    ensures ReadDoc(value) == Some((pairs[i].1, SpelledTail(fields, i)))
  {
    assert SpellsField(fields[i], pairs[i]);
    value := fields[i].1 + SpelledTail(fields, i);
    KeyStep(pairs[i].0, Compact, value);
  }

  lemma {:induction false} ReadSpelledPairs(fields: seq<(Codes, Codes)>, pairs: seq<(Codes, Doc)>, i: nat)
    requires AllSpelled(fields, pairs) && i < |pairs|
    ensures ReadPairs(Spelled(fields, i)) == Some((pairs[i..], []))
    decreases |pairs| - i
  {
    if i + 1 == |pairs| {
      ReadLastSpelled(fields, pairs, i);
    } else {
      ReadSpelledPairs(fields, pairs, i + 1);
      ReadNextSpelled(fields, pairs, i);
    }
  }

  lemma ReadLastSpelled(fields: seq<(Codes, Codes)>, pairs: seq<(Codes, Doc)>, i: nat)
    requires AllSpelled(fields, pairs) && i + 1 == |pairs|
    ensures ReadPairs(Spelled(fields, i)) == Some((pairs[i..], []))
  {
    var value := ReadSpelledKey(fields, pairs, i);
    assert [] + ([RBRACE] + []) == [RBRACE];
    LastPair(Spelled(fields, i), pairs[i].0, value, pairs[i].1, [], []);
    assert pairs[i..] == [(pairs[i].0, pairs[i].1)];
  }

  lemma ReadNextSpelled(fields: seq<(Codes, Codes)>, pairs: seq<(Codes, Doc)>, i: nat)
    requires AllSpelled(fields, pairs) && i + 1 < |pairs|
    requires ReadPairs(Spelled(fields, i + 1)) == Some((pairs[i + 1..], []))
    ensures ReadPairs(Spelled(fields, i)) == Some((pairs[i..], []))
  {
    SpelledStart(fields, pairs, i + 1);
    var value := ReadSpelledKey(fields, pairs, i);
    OneMorePair(Spelled(fields, i), pairs[i].0, value, pairs[i].1, Spelled(fields, i + 1), pairs[i + 1..], []);
    assert pairs[i..] == [(pairs[i].0, pairs[i].1)] + pairs[i + 1..];
  }

  lemma ObjectReads(body: Codes, pairs: seq<(Codes, Doc)>)
    requires body != [] && body[0] == QUOTE && ReadPairs(body) == Some((pairs, []))
    ensures ReadText([LBRACE] + body) == Some(Fields(pairs))
  {
    ObjectDispatch(body);
  }

  lemma ReadSpelled(fields: seq<(Codes, Codes)>, pairs: seq<(Codes, Doc)>)
    requires AllSpelled(fields, pairs) && pairs != []
    ensures ReadText([LBRACE] + Spelled(fields, 0)) == Some(Fields(pairs))
  {
    SpelledStart(fields, pairs, 0);
    ReadSpelledPairs(fields, pairs, 0);
    assert pairs[0..] == pairs;
    ObjectReads(Spelled(fields, 0), pairs);
  }

  /** What is printed is spelled field by field. */
  function PrintedFields(d: Doc): (fields: seq<(Codes, Codes)>)
    requires Proper(d) && d.Fields?
    ensures |fields| == |d.pairs|
  {
    seq(|d.pairs|, i requires 0 <= i < |d.pairs| => (PrintStr(d.pairs[i].0), Print(d.pairs[i].1, Compact)))
  }

  lemma {:induction false} PrintedIsSpelled(d: Doc, i: nat)
    requires Proper(d) && d.Fields? && i < |d.pairs|
    ensures PrintPairs(d, i, Compact) + [RBRACE] == Spelled(PrintedFields(d), i)
    decreases |d.pairs| - i
  {
    PairsSplit(d, i, Compact, [RBRACE]);
    var key, value, tail := PrintStr(d.pairs[i].0), Print(d.pairs[i].1, Compact), SpelledTail(PrintedFields(d), i);
    if i + 1 < |d.pairs| { PrintedIsSpelled(d, i + 1); }
    Regroup(key, [COLON], value, tail);
    assert Gap(Compact) + (PrintPair(d, i, Compact) + tail) == PrintPair(d, i, Compact) + tail;
  }

  // ----- The manifest, its notes spelled one way or another -------------------------------------

  function ValueText(m: Manifest, body: Codes, i: nat): Codes
    requires i < 12
  {
    if i == NOTES then [QUOTE] + body + [QUOTE] else Print(FieldDoc(m, i), Compact)
  }

  function FieldsOf(m: Manifest, body: Codes): (fields: seq<(Codes, Codes)>)
    ensures |fields| == 12
    ensures forall i :: 0 <= i < 12 ==> fields[i] == (PrintStr(ToCodes(FieldName(i))), ValueText(m, body, i))
  {
    seq(12, i requires 0 <= i < 12 => (PrintStr(ToCodes(FieldName(i))), ValueText(m, body, i)))
  }

  function SpelledText(m: Manifest, body: Codes): Codes { [LBRACE] + Spelled(FieldsOf(m, body), 0) }

  lemma CanonicalIsSpelled(m: Manifest)
    ensures CanonicalText(m) == SpelledText(m, EscapeAll(m.notes))
  {
    var d := ManifestDoc(m);
    assert PrintedFields(d) == FieldsOf(m, EscapeAll(m.notes));
    PrintedIsSpelled(d, 0);
    assert CanonicalText(m) == [LBRACE] + (PrintPairs(d, 0, Compact) + [RBRACE]);
  }

  function Escaped(s: string): nat { |EscapeAll(ToCodes(s))| }

  /** The size when the notes take `n` characters. */
  function TextSize(m: Manifest, n: nat): nat {
    242 + Escaped(m.artifact) + Escaped(m.platform) + Escaped(m.productVersion) + n + Escaped(m.signature)
    + Escaped(m.thumbprint)
    + RuntimeFile.DigitsOf(m.expiresAt) + RuntimeFile.DigitsOf(m.issuedAt) + RuntimeFile.DigitsOf(m.sequence)
    + RuntimeFile.DigitsOf(m.size) + RuntimeFile.DigitsOf(m.version)
  }

  function NameSize(i: nat): nat {
    match i
    case 0 => 8
    case 1 => 9
    case 2 => 8
    case 3 => 8
    case 4 => 14
    case 5 => 12
    case 6 => 8
    case 7 => 6
    case 8 => 9
    case 9 => 4
    case 10 => 7
    case _ => 22
  }

  lemma NameLength(i: nat)
    requires i < 12
    ensures |PrintStr(ToCodes(FieldName(i)))| == 2 + NameSize(i)
  {
    RuntimeFile.KeyLength(FieldName(i));
  }

  lemma DigitsEscape()
    ensures EscapeAll(Digits()) == Digits()
  {
    RuntimeFile.NameEscapes(Digits());
  }

  function ValueSize(m: Manifest, i: nat, n: nat): nat
    requires i < 12
  {
    match i
    case 0 => 2 + Escaped(m.artifact)
    case 1 => RuntimeFile.DigitsOf(m.expiresAt)
    case 2 => RuntimeFile.DigitsOf(m.issuedAt)
    case 3 => 2 + Escaped(m.platform)
    case 4 => 2 + Escaped(m.productVersion)
    case 5 => 2 + n
    case 6 => RuntimeFile.DigitsOf(m.sequence)
    case 7 => 66
    case 8 => 2 + Escaped(m.signature)
    case 9 => RuntimeFile.DigitsOf(m.size)
    case 10 => RuntimeFile.DigitsOf(m.version)
    case _ => 2 + Escaped(m.thumbprint)
  }

  lemma ValueLength(m: Manifest, body: Codes, i: nat)
    requires i < 12
    ensures |ValueText(m, body, i)| == ValueSize(m, i, |body|)
  {
    if i == 7 { DigitsEscape(); }
  }

  lemma TwelveFields(f: seq<(Codes, Codes)>)
    requires |f| == 12
    ensures SpelledSize(f, 0)
            == 24 + |f[0].0| + |f[1].0| + |f[2].0| + |f[3].0| + |f[4].0| + |f[5].0|
               + |f[6].0| + |f[7].0| + |f[8].0| + |f[9].0| + |f[10].0| + |f[11].0|
               + |f[0].1| + |f[1].1| + |f[2].1| + |f[3].1| + |f[4].1| + |f[5].1|
               + |f[6].1| + |f[7].1| + |f[8].1| + |f[9].1| + |f[10].1| + |f[11].1|
  {
    ThreeFields(f, 0);
    ThreeFields(f, 3);
    ThreeFields(f, 6);
    ThreeFields(f, 9);
  }

  lemma ThreeFields(f: seq<(Codes, Codes)>, i: nat)
    requires i + 3 <= |f|
    ensures SpelledSize(f, i)
            == 6 + |f[i].0| + |f[i + 1].0| + |f[i + 2].0| + |f[i].1| + |f[i + 1].1| + |f[i + 2].1|
               + SpelledSize(f, i + 3)
  {
    assert SpelledSize(f, i + 1) == 4 + |f[i + 1].0| + |f[i + 2].0| + |f[i + 1].1| + |f[i + 2].1| + SpelledSize(f, i + 3);
  }

  lemma SizesAddUp(m: Manifest, n: nat, f: seq<(Codes, Codes)>)
    requires |f| == 12
    requires forall i :: 0 <= i < 12 ==> |f[i].0| == 2 + NameSize(i) && |f[i].1| == ValueSize(m, i, n)
    ensures SpelledSize(f, 0) + 1 == TextSize(m, n)
  {
    TwelveFields(f);
  }

  lemma SpelledTextSize(m: Manifest, body: Codes)
    ensures |SpelledText(m, body)| == TextSize(m, |body|)
  {
    var f := FieldsOf(m, body);
    SpelledLength(f, 0);
    forall i | 0 <= i < 12 ensures |f[i].0| == 2 + NameSize(i) && |f[i].1| == ValueSize(m, i, |body|) {
      NameLength(i);
      ValueLength(m, body, i);
    }
    SizesAddUp(m, |body|, f);
  }

  /** The size of the canonical text, as a sum over the fields. */
  lemma SizeIsTextSize(m: Manifest)
    ensures SidecarOf(m).size == TextSize(m, |EscapeAll(m.notes)|)
  {
    CanonicalIsSpelled(m);
    SpelledTextSize(m, EscapeAll(m.notes));
  }

  // ----- The same manifest in plain UTF-8 ------------------------------------------------------

  /** A text that may stand between quotation marks as it is. */
  predicate Direct(t: Codes) {
    forall i :: 0 <= i < |t| ==> t[i] >= 32 && t[i] != QUOTE && t[i] != BACKSLASH
  }

  lemma {:induction false} ReadDirectChars(t: Codes, rest: Codes)
    requires Direct(t)
    ensures ReadChars(t + ([QUOTE] + rest)) == Some((t, rest))
  {
    var s := t + ([QUOTE] + rest);
    if t == [] {
      assert s == [QUOTE] + rest && s[1..] == rest;
    } else {
      var more := t[1..] + ([QUOTE] + rest);
      assert s[0] == t[0] && s[1..] == more;
      CharStep(s, t[0], more);
      ReadDirectChars(t[1..], rest);
      assert [t[0]] + t[1..] == t;
    }
  }

  lemma DirectReads(t: Codes)
    requires Direct(t)
    ensures ReadsAs([QUOTE] + t + [QUOTE], Atom(Str(t)))
  {
    forall rest | Closes(rest) ensures ReadDoc([QUOTE] + t + [QUOTE] + rest) == Some((Atom(Str(t)), rest)) {
      var s := [QUOTE] + t + [QUOTE] + rest;
      assert s[1..] == t + ([QUOTE] + rest);
      ReadDirectChars(t, rest);
    }
  }

  lemma PrintedReads(d: Doc)
    requires Proper(d) && Paired(d)
    ensures ReadsAs(Print(d, Compact), d)
  {
    PrintStart(d, Compact);
    forall rest | Closes(rest) ensures ReadDoc(Print(d, Compact) + rest) == Some((d, rest)) {
      ReadPrinted(d, Compact, rest);
    }
  }

  lemma FieldIsPaired(m: Manifest, i: nat)
    requires i < 12 && i != NOTES
    ensures Paired(FieldDoc(m, i))
  {
    match i
    case 0 => StringIsPaired(m.artifact);
    case 3 => StringIsPaired(m.platform);
    case 4 => StringIsPaired(m.productVersion);
    case 8 => StringIsPaired(m.signature);
    case 11 => StringIsPaired(m.thumbprint);
    case _ =>
  }

  lemma FieldReads(m: Manifest, i: nat)
    requires i < 12 && Direct(m.notes)
    ensures SpellsField(FieldsOf(m, m.notes)[i], (ToCodes(FieldName(i)), FieldDoc(m, i)))
  {
    StringIsPaired(FieldName(i));
    if i == NOTES {
      DirectReads(m.notes);
    } else {
      FieldIsPaired(m, i);
      PrintedReads(FieldDoc(m, i));
    }
  }

  /** Written without escapes the notes are read as the same manifest. */
  lemma DirectTextReads(m: Manifest)
    requires Direct(m.notes)
    ensures ReadText(SpelledText(m, m.notes)) == Some(ManifestDoc(m))
  {
    var pairs := ManifestDoc(m).pairs;
    forall i | 0 <= i < 12 ensures SpellsField(FieldsOf(m, m.notes)[i], pairs[i]) {
      FieldReads(m, i);
    }
    ReadSpelled(FieldsOf(m, m.notes), pairs);
  }

  lemma {:induction false} AtMostFourBytes(t: Codes)
    ensures |MarkerScan.Utf8(t)| <= 4 * |t|
  {
    if t != [] { AtMostFourBytes(t[1..]); }
  }

  // ----- When the limit matters ----------------------------------------------------------------

  /** Printed as it is. */
  predicate Printable(s: string) {
    forall i :: 0 <= i < |s| ==> RuntimeFile.Plain(s[i] as int)
  }

  lemma PrintableLength(s: string)
    requires Printable(s)
    ensures Escaped(s) == |s|
  {
    RuntimeFile.NameEscapes(ToCodes(s));
  }

  lemma PrintableSum(a: string, b: string)
    requires Printable(a) && Printable(b)
    ensures Printable(a + b)
  {
    forall i | 0 <= i < |a + b| ensures RuntimeFile.Plain((a + b)[i] as int) {
      assert (a + b)[i] == if i < |a| then a[i] else b[i - |a|];
    }
  }

  lemma ComponentIsPrintable(s: string)
    requires ProductVersion.IsComponent(s)
    ensures Printable(s) && 1 <= |s| <= 6
  {
    forall i | 0 <= i < |s| ensures RuntimeFile.Plain(s[i] as int) { assert IsDigit(s[i]); }
  }

  lemma AcceptedVersion(s: string)
    requires ProductVersion.Parse(s).Some?
    ensures Printable(s) && 1 <= |s| <= 20
  {
    var parts := Split(s, '.');
    JoinedThree(parts);
    ComponentIsPrintable(parts[0]);
    ComponentIsPrintable(parts[1]);
    ComponentIsPrintable(parts[2]);
    PrintableSum(parts[0], ['.']);
    PrintableSum(parts[1], ['.']);
    PrintableSum(parts[1] + ['.'], parts[2]);
    PrintableSum(parts[0] + ['.'], parts[1] + ['.'] + parts[2]);
  }

  lemma JoinedThree(parts: seq<string>)
    requires |parts| == 3
    ensures Join(parts, '.') == parts[0] + ['.'] + (parts[1] + ['.'] + parts[2])
  {
    assert parts[1..] == [parts[1], parts[2]] && parts[1..][1..] == [parts[2]];
    assert Join(parts[1..], '.') == parts[1] + ['.'] + Join([parts[2]], '.');
  }

  lemma LettersArePlain(s: string)
    requires forall i :: 0 <= i < |s| ==> Base64Url.InAlphabet(s[i])
    ensures Printable(s)
  {
    forall i | 0 <= i < |s| ensures RuntimeFile.Plain(s[i] as int) { assert Base64Url.InAlphabet(s[i]); }
  }

  lemma SignatureLength(s: string)
    requires Base64Url.Decode(s, 64).Some?
    ensures Escaped(s) == 86
  {
    var b := Base64Url.Decode(s, 64).value;
    Base64Url.DecodeIffEncode(s, 64, b);
    PackLength(b);
    LettersArePlain(s);
    PrintableLength(s);
  }

  lemma {:induction false} PackLength(b: Octets.Bytes)
    ensures |Base64Url.Pack(b)| == (4 * |b| + 2) / 3
  {
    if |b| >= 3 { PackLength(b[3..]); }
  }

  lemma NineteenDigits(n: int)
    requires 0 <= n < TWO63
    ensures RuntimeFile.DigitsOf(n) <= 19
  {
    assert Pow10(4) == 10_000;
    assert Pow10(8) == 10_000 * Pow10(4);
    assert Pow10(12) == 10_000 * Pow10(8);
    assert Pow10(16) == 10_000 * Pow10(12);
    assert Pow10(19) == 1_000 * Pow10(16);
    RuntimeLimit.DigitsBound(n, 19);
  }

  lemma AcceptedMeans(m: Manifest, trust: Trust, current: string, now: int)
    requires CheckManifest(m, trust, current, now) == None
    ensures m.artifact == "GrangerSetup.exe" && m.platform == "windows-x64" && m.thumbprint == trust.thumbprint
    ensures Base64Url.Decode(m.signature, 64).Some? && ProductVersion.Parse(m.productVersion).Some?
  {
  }

  lemma ArtifactLength(s: string)
    requires s == "GrangerSetup.exe"
    ensures Escaped(s) == 16
  {
    assert |s| == 16;
    PrintableLength(s);
  }

  lemma PlatformLength(s: string)
    requires s == "windows-x64"
    ensures Escaped(s) == 11
  {
    assert |s| == 11;
    PrintableLength(s);
  }

  lemma AcceptedTexts(m: Manifest, trust: Trust, current: string, now: int)
    requires CheckManifest(m, trust, current, now) == None
    ensures Escaped(m.artifact) == 16 && Escaped(m.platform) == 11 && 1 <= Escaped(m.productVersion) <= 20
    ensures Escaped(m.signature) == 86 && Escaped(m.thumbprint) == 40
  {
    AcceptedMeans(m, trust, current, now);
    ArtifactLength(m.artifact);
    PlatformLength(m.platform);
    VersionLength(m.productVersion);
    SignatureLength(m.signature);
    ThumbprintLength(m.thumbprint);
  }

  lemma VersionLength(s: string)
    requires ProductVersion.Parse(s).Some?
    ensures 1 <= Escaped(s) <= 20
  {
    AcceptedVersion(s);
    PrintableLength(s);
  }

  lemma ThumbprintLength(s: Thumbprint)
    ensures Escaped(s) == 40
  {
    PrintableLength(s);
  }

  lemma AcceptedNumbers(m: Manifest, trust: Trust, current: string, now: int)
    requires CheckManifest(m, trust, current, now) == None
    ensures RuntimeFile.DigitsOf(m.expiresAt) <= 19 && RuntimeFile.DigitsOf(m.issuedAt) <= 19
    ensures RuntimeFile.DigitsOf(m.sequence) <= 19 && RuntimeFile.DigitsOf(m.size) <= 19
    ensures RuntimeFile.DigitsOf(m.version) == 1
  {
    NineteenDigits(m.expiresAt);
    NineteenDigits(m.issuedAt);
    NineteenDigits(m.sequence);
    NineteenDigits(m.size);
  }

  /** An accepted manifest takes its notes, as they are spelled, and at most 492 characters more. */
  lemma AcceptedSize(m: Manifest, trust: Trust, current: string, now: int, n: nat)
    requires CheckManifest(m, trust, current, now) == None
    ensures n + 397 <= TextSize(m, n) <= n + 492
  {
    AcceptedTexts(m, trust, current, now);
    AcceptedNumbers(m, trust, current, now);
  }

  /** Characters that take two escapes. */
  function WideCount(t: Codes): nat {
    if t == [] then 0 else (if t[0] >= 0x1_0000 then 1 else 0) + WideCount(t[1..])
  }

  lemma {:induction false} EscapedSize(t: Codes)
    ensures |EscapeAll(t)| <= 6 * |t| + 6 * WideCount(t)
  {
    if t != [] {
      assert |Escape(t[0])| <= 6 + (if t[0] >= 0x1_0000 then 6 else 0);
      EscapedSize(t[1..]);
    }
  }

  /** With at most 2648 characters above U+FFFF in its notes an accepted manifest is read back. */
  lemma SidecarFits(m: Manifest, trust: Trust, current: string, now: int)
    requires CheckManifest(m, trust, current, now) == None && WideCount(m.notes) <= 2648
    ensures SidecarOf(m).size <= MAX_MANIFEST
  {
    SizeIsTextSize(m);
    AcceptedSize(m, trust, current, now, |EscapeAll(m.notes)|);
    EscapedSize(m.notes);
  }

  /** As many characters above U+FFFF as notes may have. */
  function WideNotes(): (t: Codes)
    ensures |t| == 8192 && forall i :: 0 <= i < |t| ==> t[i] == 0x1f600
  {
    seq(8192, i => 0x1f600)
  }

  lemma {:induction false} WideEscapes(t: Codes)
    requires forall i :: 0 <= i < |t| ==> t[i] >= 0x1_0000
    ensures |EscapeAll(t)| == 12 * |t|
  {
    if t != [] {
      assert |Escape(t[0])| == 12;
      WideEscapes(t[1..]);
    }
  }

  /** Any accepted manifest, given these notes, is accepted still, fits into a file in plain UTF-8, and is
      not read back from its canonical text. */
  lemma WideNotesDoNotFit(m: Manifest, trust: Trust, current: string, now: int) returns (text: Codes)
    requires CheckManifest(m, trust, current, now) == None
    ensures var wide := m.(notes := WideNotes());
            && CheckManifest(wide, trust, current, now) == None
            && ReadText(text) == Some(ManifestDoc(wide)) && |MarkerScan.Utf8(text)| <= MAX_MANIFEST
            && SidecarOf(wide).size > MAX_MANIFEST
  {
    var wide := m.(notes := WideNotes());
    OtherNotesPass(m, trust, current, now, WideNotes());
    text := SpelledText(wide, wide.notes);
    DirectTextReads(wide);
    SpelledTextSize(wide, wide.notes);
    AcceptedSize(wide, trust, current, now, 8192);
    AtMostFourBytes(text);
    SizeIsTextSize(wide);
    WideEscapes(wide.notes);
    AcceptedSize(wide, trust, current, now, |EscapeAll(wide.notes)|);
  }

  lemma OtherNotesPass(m: Manifest, trust: Trust, current: string, now: int, notes: Codes)
    requires CheckManifest(m, trust, current, now) == None && PlainNotes(notes)
    ensures CheckManifest(m.(notes := notes), trust, current, now) == None
  {
  }

  /** An accepted manifest, for each trust. */
  lemma SomeManifest(trust: Trust) returns (m: Manifest)
    ensures CheckManifest(m, trust, "0.0.0", 1) == None && Carries([0], m) && m.notes == []
  {
    var b: Octets.Bytes := seq(64, i => 0);
    Base64Url.DecodeIffEncode(Base64Url.Encode(b), 64, b);
    m := Manifest(1, 1, "0.0.1", "windows-x64", 1, 2, "GrangerSetup.exe", 1, FileSha([0]), trust.thumbprint, [],
                  Base64Url.Encode(b), trust.key);
    var v, w := ProductVersion.Version(0, 0, 0), ProductVersion.Version(0, 0, 1);
    ProductVersion.ParseIffFormat("0.0.0", v);
    ProductVersion.ParseIffFormat("0.0.1", w);
    ThreeDigits();
  }

  lemma ThreeDigits()
    ensures ProductVersion.Format(ProductVersion.Version(0, 0, 0)) == "0.0.0"
    ensures ProductVersion.Format(ProductVersion.Version(0, 0, 1)) == "0.0.1"
  {
    assert Decimal(0) == "0" && Decimal(1) == "1";
    JoinedThree(["0", "0", "0"]);
    JoinedThree(["0", "0", "1"]);
  }
}
