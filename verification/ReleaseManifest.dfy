/** Signed release manifests: the checks of `verify_manifest`, in its order. */
module ReleaseManifest {
  import opened Wrappers
  import opened Octets
  import opened ProductVersion
  import opened ManifestText
  import CanonicalJson
  import CanonicalLimits
  import Base64Url

  predicate IsHexDigit(c: char) {
    '0' <= c <= '9' || 'a' <= c <= 'f' || 'A' <= c <= 'F'
  }

  predicate IsThumbprint(s: string) {
    |s| == 40 && forall i :: 0 <= i < |s| ==> IsHexDigit(s[i])
  }

  type Thumbprint = s: string | IsThumbprint(s) witness "0000000000000000000000000000000000000000"

  datatype Trust = Trust(key: int, thumbprint: Thumbprint)

  datatype Error =
    | InvalidMetadata | InvalidSchema | InvalidSignatureEncoding | InvalidSignature | InvalidBounds
    | NotCurrentlyValid | WrongPlatform | InvalidProductVersion | DowngradeRejected
    | InvalidArtifactMetadata | ConsentRequired | TrustNotConfigured | UpdateBusy | LimitReached
    | RollbackOrEquivocation | SizeMismatch | HashMismatch | WindowsTrustFailed | ConsentOrTrustChanged
    | ManifestChanged | StateMismatch | RevisionExhausted

  const TWO63: int := 0x8000_0000_0000_0000
  const MAX_MANIFEST := 64 * 1024
  const MAX_ARTIFACT := 2 * 1024 * 1024 * 1024
  const MAX_VALIDITY := 31 * 24 * 60 * 60

  predicate PlainNotes(notes: CanonicalJson.Codes) {
    |notes| <= 8192 && forall i :: 0 <= i < |notes| ==> notes[i] >= 32 || notes[i] == 9 || notes[i] == 10
  }

  /** None when the manifest is accepted, otherwise the first error. */
  function CheckManifest(m: Manifest, trust: Trust, current: string, now: int): Option<Error> {
    if m.version != 1 then Some(InvalidSchema)
    else if Base64Url.Decode(m.signature, 64) == None then Some(InvalidSignatureEncoding)
    else if m.signer != trust.key then Some(InvalidSignature)
    else if !(1 <= m.sequence < TWO63 && 1 <= m.size <= MAX_ARTIFACT
              && 1 <= m.issuedAt < TWO63 && 1 <= m.expiresAt < TWO63) then Some(InvalidBounds)
    else if !(m.issuedAt <= now < m.expiresAt && 0 < m.expiresAt - m.issuedAt <= MAX_VALIDITY)
      then Some(NotCurrentlyValid)
    else if m.platform != "windows-x64" then Some(WrongPlatform)
    else CheckRelease(m, trust, current)
  }

  /** Version and artifact. */
  function CheckRelease(m: Manifest, trust: Trust, current: string): (bad: Option<Error>)
    ensures bad == None ==> Passed(m) && VersionLess(current, m.productVersion)
  {
    if Parse(m.productVersion) == None || Parse(current) == None then Some(InvalidProductVersion)
    else if !VersionLess(current, m.productVersion) then Some(DowngradeRejected)
    else if m.artifact != "GrangerSetup.exe" || m.thumbprint != trust.thumbprint
            || !PlainNotes(m.notes) then Some(InvalidArtifactMetadata)
    else None
  }

  /** The order of versions; only accepted texts are ever compared. */
  predicate VersionLess(a: string, b: string) {
    var x, y := Parse(a), Parse(b);
    x.Some? && y.Some? && Less(x.value, y.value)
  }

  /** `verify_manifest`: what `read_json` takes, and then the checks. */
  function CheckFile(f: ManifestFile, trust: Trust, current: string, now: int): Option<Error> {
    if f.size > MAX_MANIFEST then Some(InvalidMetadata) else CheckManifest(f.manifest, trust, current, now)
  }

  /** What an accepted manifest keeps, whatever the trust, the current version and the time. */
  predicate Passed(m: Manifest) {
    Parse(m.productVersion).Some? && PlainNotes(m.notes)
  }

  lemma AcceptedHasPassed(f: ManifestFile, trust: Trust, current: string, now: int)
    requires CheckFile(f, trust, current, now) == None
    ensures Passed(f.manifest) && 1 <= f.manifest.size
  {
  }

  lemma AcceptedIsNewer(m: Manifest, trust: Trust, current: string, now: int)
    requires CheckManifest(m, trust, current, now) == None
    ensures VersionLess(current, m.productVersion)
  {
    assert CheckRelease(m, trust, current) == None;
  }

  /** `{sequence:019d}-{digest}.exe`. */
  datatype Name = Name(sequence: int, digest: ManifestDigest)

  datatype HighWater = HighWater(sequence: int, digest: ManifestDigest, productVersion: string)

  datatype Pending = Pending(high: HighWater, artifact: Name, artifactDigest: FileDigest)

  function NameOf(m: Manifest): Name { Name(m.sequence, DigestOf(m)) }
  function HighOf(m: Manifest): HighWater { HighWater(m.sequence, DigestOf(m), m.productVersion) }
  function PendingOf(m: Manifest): Pending { Pending(HighOf(m), NameOf(m), m.digest) }

  predicate Carries(content: Bytes, m: Manifest) {
    |content| == m.size && FileSha(content) == m.digest
  }

  lemma {:induction false} MergeStaysPlain(t: CanonicalJson.Codes)
    requires forall i :: 0 <= i < |t| ==> t[i] >= 32 || t[i] == 9 || t[i] == 10
    ensures var u := CanonicalLimits.Merge(t);
            |u| <= |t| && forall i :: 0 <= i < |u| ==> u[i] >= 32 || u[i] == 9 || u[i] == 10
  {
    if t != [] {
      if |t| >= 2 && CanonicalJson.IsHigh(t[0]) && CanonicalJson.IsLow(t[1]) {
        MergeStaysPlain(t[2..]);
      } else {
        MergeStaysPlain(t[1..]);
      }
    }
  }

  /** Once its notes have passed, a manifest is judged alike in its own file and in its sidecar. */
  lemma JudgedAlike(m: Manifest, trust: Trust, current: string, now: int)
    requires PlainNotes(m.notes)
    ensures CheckManifest(AsRead(m), trust, current, now) == CheckManifest(m, trust, current, now)
  {
    MergeStaysPlain(m.notes);
  }

  lemma SidecarChecked(m: Manifest, trust: Trust, current: string, now: int)
    requires Passed(m)
    ensures CheckFile(SidecarOf(m), trust, current, now) == None <==>
              SidecarOf(m).size <= MAX_MANIFEST && CheckManifest(m, trust, current, now) == None
  {
    JudgedAlike(m, trust, current, now);
  }

  lemma SidecarNamedAlike(m: Manifest)
    ensures PendingOf(SidecarOf(m).manifest) == PendingOf(m)
  {
    SidecarReadsBack(m);
  }
}
