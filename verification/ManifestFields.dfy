/** Which field of a manifest stands where in its canonical text. */
module ManifestFields {
  import opened CanonicalJson
  import opened CanonicalLimits
  import opened ManifestText

  const NAMES: seq<string> := ["artifact", "expiresAt", "issuedAt", "platform", "productVersion", "releaseNotes",
                               "sequence", "sha256", "signature", "size", "version", "windowsCertificateSha1"]

  function TextOf(s: string): Doc { Atom(Str(seq(|s|, i requires 0 <= i < |s| => s[i] as int))) }
  function NumberOf(n: int): Doc { Atom(Num(n)) }

  /** The values under those names, in order; the digest of the artifact stands for itself. */
  function ValuesOf(m: Manifest): seq<Doc> {
    [TextOf(m.artifact), NumberOf(m.expiresAt), NumberOf(m.issuedAt), TextOf(m.platform), TextOf(m.productVersion),
     Atom(Str(m.notes)), NumberOf(m.sequence), Atom(Str(seq(64, i => 48))), TextOf(m.signature),
     NumberOf(m.size), NumberOf(m.version), TextOf(m.thumbprint)]
  }

  lemma FieldIs(m: Manifest, i: nat)
    requires i < 12
    ensures ManifestDoc(m).pairs[i] == (seq(|NAMES[i]|, k requires 0 <= k < |NAMES[i]| => NAMES[i][k] as int), ValuesOf(m)[i])
  {
    NameIs(i);
    ValueIs(m, i);
  }

  lemma NameIs(i: nat)
    requires i < 12
    ensures ToCodes(FieldName(i)) == seq(|NAMES[i]|, k requires 0 <= k < |NAMES[i]| => NAMES[i][k] as int)
  {
    assert FieldName(i) == NAMES[i];
  }

  lemma TextIs(s: string)
    ensures TextDoc(s) == TextOf(s)
  {
  }

  lemma ValueIs(m: Manifest, i: nat)
    requires i < 12
    ensures FieldDoc(m, i) == ValuesOf(m)[i]
  {
    match i
    case 0 => TextIs(m.artifact);
    case 3 => TextIs(m.platform);
    case 4 => TextIs(m.productVersion);
    case 7 => assert Digits() == seq(64, k => 48);
    case 8 => TextIs(m.signature);
    case 11 => TextIs(m.thumbprint);
    case _ =>
  }

  /** The canonical text reads as these twelve fields with these values, surrogate pairs merged. */
  lemma CanonicalFields(m: Manifest, i: nat)
    requires i < 12
    ensures ReadText(CanonicalText(m)).Some?
    ensures var d := ReadText(CanonicalText(m)).value;
            && d.Fields? && |d.pairs| == 12
            && d.pairs[i] == (seq(|NAMES[i]|, k requires 0 <= k < |NAMES[i]| => NAMES[i][k] as int),
                              ValuesOf(m.(notes := Merge(m.notes)))[i])
  {
    SidecarReadsBack(m);
    FieldIs(AsRead(m), i);
  }
}
