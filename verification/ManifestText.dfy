/** A release manifest and its canonical text, which is hashed, signed and kept beside the artifact. */
module ManifestText {
  import opened Wrappers
  import opened Octets
  import opened CanonicalJson
  import opened CanonicalRoundTrip
  import opened CanonicalLimits

  /** SHA-256 of a file, injective by construction. */
  datatype FileDigest = FileSha(content: Bytes)

  /** A manifest with the right fields.  `signer` is the key under which its signature verifies. */
  datatype Manifest = Manifest(version: int, sequence: int, productVersion: string, platform: string,
                               issuedAt: int, expiresAt: int, artifact: string, size: int,
                               digest: FileDigest, thumbprint: string, notes: Codes, signature: string,
                               signer: int)

  // ----- The canonical text -------------------------------------------------------------------

  /** The names of the fields, in order. */
  function FieldName(i: nat): string
    requires i < 12
  {
    match i
    case 0 => "artifact"
    case 1 => "expiresAt"
    case 2 => "issuedAt"
    case 3 => "platform"
    case 4 => "productVersion"
    case 5 => "releaseNotes"
    case 6 => "sequence"
    case 7 => "sha256"
    case 8 => "signature"
    case 9 => "size"
    case 10 => "version"
    case _ => "windowsCertificateSha1"
  }

  const NOTES: nat := 5

  /** Stands for the 64 digits of a digest. */
  function Digits(): (t: Codes) ensures |t| == 64 { seq(64, i => 48) }

  function TextDoc(s: string): Doc { Atom(Str(ToCodes(s))) }

  function FieldDoc(m: Manifest, i: nat): (d: Doc)
    requires i < 12
    ensures d.Atom? && IsScalar(d.value)
  {
    match i
    case 0 => TextDoc(m.artifact)
    case 1 => Atom(Num(m.expiresAt))
    case 2 => Atom(Num(m.issuedAt))
    case 3 => TextDoc(m.platform)
    case 4 => TextDoc(m.productVersion)
    case 5 => Atom(Str(m.notes))
    case 6 => Atom(Num(m.sequence))
    case 7 => Atom(Str(Digits()))
    case 8 => TextDoc(m.signature)
    case 9 => Atom(Num(m.size))
    case 10 => Atom(Num(m.version))
    case _ => TextDoc(m.thumbprint)
  }

  function ManifestDoc(m: Manifest): (d: Doc)
    ensures Proper(d) && d.Fields? && |d.pairs| == 12
  {
    Fields(seq(12, i requires 0 <= i < 12 => (ToCodes(FieldName(i)), FieldDoc(m, i))))
  }

  /** canonical(value). */
  function CanonicalText(m: Manifest): Codes {
    Print(ManifestDoc(m), Compact)
  }

  /** The canonical text with what it says and the model keeps apart: the digest of the artifact, and
      the key under which the signature it holds verifies. */
  datatype Canonical = Canonical(text: Codes, file: FileDigest, signer: int)

  function CanonicalOf(m: Manifest): Canonical { Canonical(CanonicalText(m), m.digest, m.signer) }

  /** SHA-256 of the canonical text, injective by construction. */
  datatype ManifestDigest = ManifestSha(content: Canonical)

  function DigestOf(m: Manifest): ManifestDigest { ManifestSha(CanonicalOf(m)) }

  // ----- Manifest files -----------------------------------------------------------------------

  /** A file in bytes, and what it reads as. */
  datatype ManifestFile = ManifestFile(size: nat, manifest: Manifest)

  /** A manifest behind its canonical text: surrogate pairs are merged. */
  function AsRead(m: Manifest): Manifest { m.(notes := Merge(m.notes)) }

  /** The file that `canonical(value)` becomes. */
  function SidecarOf(m: Manifest): ManifestFile { ManifestFile(|CanonicalText(m)|, AsRead(m)) }

  // ----- What the digest binds ----------------------------------------------------------------

  /** sort_keys: the names are in order. */
  lemma NamesInOrder(i: nat)
    requires i < 11
    ensures Before(ToCodes(FieldName(i)), ToCodes(FieldName(i + 1)))
  {
    var a, b := ToCodes(FieldName(i)), ToCodes(FieldName(i + 1));
    assert a[0] == b[0] ==> a[1..][0] == a[1] && b[1..][0] == b[1];
    assert a[0] == b[0] && a[1] == b[1] ==> a[1..][1..][0] == a[2] && b[1..][1..][0] == b[2];
  }

  lemma StringIsPaired(s: string)
    ensures WellPaired(ToCodes(s)) && Merge(ToCodes(s)) == ToCodes(s)
  {
    MergeOfPaired(ToCodes(s));
  }

  lemma CodesDetermine(a: string, b: string)
    requires ToCodes(a) == ToCodes(b)
    ensures a == b
  {
    forall i | 0 <= i < |a| ensures a[i] == b[i] {
      assert ToCodes(a)[i] == ToCodes(b)[i];
    }
  }

  lemma DocDetermines(m: Manifest, n: Manifest)
    requires ManifestDoc(m) == ManifestDoc(n) && m.digest == n.digest && m.signer == n.signer
    ensures m == n
  {
    forall i | 0 <= i < 12 ensures FieldDoc(m, i) == FieldDoc(n, i) {
      assert ManifestDoc(m).pairs[i] == ManifestDoc(n).pairs[i];
    }
    TextsDetermine(m, n);
    assert FieldDoc(m, 1) == FieldDoc(n, 1) && FieldDoc(m, 2) == FieldDoc(n, 2) && FieldDoc(m, 5) == FieldDoc(n, 5);
    assert FieldDoc(m, 6) == FieldDoc(n, 6) && FieldDoc(m, 9) == FieldDoc(n, 9) && FieldDoc(m, 10) == FieldDoc(n, 10);
  }

  lemma TextsDetermine(m: Manifest, n: Manifest)
    requires forall i :: 0 <= i < 12 ==> FieldDoc(m, i) == FieldDoc(n, i)
    ensures m.artifact == n.artifact && m.platform == n.platform && m.productVersion == n.productVersion
    ensures m.signature == n.signature && m.thumbprint == n.thumbprint
  {
    assert FieldDoc(m, 0) == FieldDoc(n, 0) && FieldDoc(m, 3) == FieldDoc(n, 3) && FieldDoc(m, 4) == FieldDoc(n, 4);
    assert FieldDoc(m, 8) == FieldDoc(n, 8) && FieldDoc(m, 11) == FieldDoc(n, 11);
    CodesDetermine(m.artifact, n.artifact);
    CodesDetermine(m.platform, n.platform);
    CodesDetermine(m.productVersion, n.productVersion);
    CodesDetermine(m.signature, n.signature);
    CodesDetermine(m.thumbprint, n.thumbprint);
  }

  lemma TextStays(s: string)
    ensures Merged(TextDoc(s)) == TextDoc(s)
  {
    StringIsPaired(s);
  }

  lemma MergedField(m: Manifest, i: nat)
    requires i < 12
    ensures Merged(FieldDoc(m, i)) == FieldDoc(AsRead(m), i)
  {
    match i
    case 0 => TextStays(m.artifact);
    case 3 => TextStays(m.platform);
    case 4 => TextStays(m.productVersion);
    case 7 => MergeOfPaired(Digits());
    case 8 => TextStays(m.signature);
    case 11 => TextStays(m.thumbprint);
    case _ =>
  }

  lemma MergedManifest(m: Manifest)
    ensures Merged(ManifestDoc(m)) == ManifestDoc(AsRead(m))
  {
    var d := ManifestDoc(m);
    forall i | 0 <= i < 12
      ensures (Merge(d.pairs[i].0), Merged(d.pairs[i].1)) == ManifestDoc(AsRead(m)).pairs[i]
    {
      StringIsPaired(FieldName(i));
      MergedField(m, i);
    }
    assert Merged(d).pairs == ManifestDoc(AsRead(m)).pairs;
  }

  /** The sidecar is read back as the manifest with its surrogate pairs merged. */
  lemma SidecarReadsBack(m: Manifest)
    ensures ReadText(CanonicalText(m)) == Some(ManifestDoc(SidecarOf(m).manifest))
    ensures CanonicalText(SidecarOf(m).manifest) == CanonicalText(m)
    ensures DigestOf(SidecarOf(m).manifest) == DigestOf(m)
  {
    MergedManifest(m);
    ReadsAsMerged(ManifestDoc(m), Compact);
    MergingPrintsAlike(ManifestDoc(m), Compact);
  }

  /** Two manifests have one digest exactly when they are read back as the same one. */
  lemma SameDigestIff(m: Manifest, n: Manifest)
    ensures DigestOf(m) == DigestOf(n) <==> AsRead(m) == AsRead(n)
    ensures DigestOf(m) == DigestOf(n) ==> SidecarOf(m) == SidecarOf(n)
  {
    MergedManifest(m);
    MergedManifest(n);
    SamePrintIffSameMerge(ManifestDoc(m), ManifestDoc(n), Compact);
    if DigestOf(m) == DigestOf(n) { DocDetermines(AsRead(m), AsRead(n)); }
  }

  /** So equal digests mean equal manifests wherever the notes pair no surrogates. */
  lemma DigestBinds(m: Manifest, n: Manifest)
    requires WellPaired(m.notes) && WellPaired(n.notes)
    ensures DigestOf(m) == DigestOf(n) <==> m == n
  {
    SameDigestIff(m, n);
    MergeOfPaired(m.notes);
    MergeOfPaired(n.notes);
  }
}
