/** What `verify_manifest` accepts and which error it reports otherwise, as an ordered list of
    conditions in plain numbers. */
module ReleaseRules {
  import opened Wrappers
  import opened Checklist
  import opened Octets
  import opened ProductVersion
  import opened ManifestText
  import opened ReleaseManifest
  import CanonicalJson
  import Base64Url

  /** The encoding of 64 bytes. */
  ghost predicate SpellsSignature(s: string) {
    exists b: Bytes :: |b| == 64 && s == Base64Url.Encode(b)
  }

  predicate ReadableNotes(notes: CanonicalJson.Codes) {
    |notes| <= 8192 && forall c :: c in notes ==> c == 9 || c == 10 || c >= 32
  }

  ghost function HeaderChecks(f: ManifestFile, trust: Trust, now: int): seq<(bool, Error)> {
    var m := f.manifest;
    [(f.size <= 65536, InvalidMetadata),
     (m.version == 1, InvalidSchema),
     (SpellsSignature(m.signature), InvalidSignatureEncoding),
     (m.signer == trust.key, InvalidSignature),
     (m.sequence >= 1 && m.sequence <= 9223372036854775807 && m.size >= 1 && m.size <= 2147483648
      && m.issuedAt >= 1 && m.issuedAt <= 9223372036854775807
      && m.expiresAt >= 1 && m.expiresAt <= 9223372036854775807, InvalidBounds),
     (now >= m.issuedAt && now < m.expiresAt && m.expiresAt - m.issuedAt <= 2678400, NotCurrentlyValid)]
  }

  function ReleaseChecks(m: Manifest, trust: Trust, current: string): seq<(bool, Error)> {
    [(m.platform == "windows-x64", WrongPlatform),
     (Number(m.productVersion) >= 0 && Number(current) >= 0, InvalidProductVersion),
     (Number(m.productVersion) > Number(current), DowngradeRejected),
     (m.artifact == "GrangerSetup.exe" && m.thumbprint == trust.thumbprint && ReadableNotes(m.notes),
      InvalidArtifactMetadata)]
  }

  /** All that is asked of a manifest file, in this order. */
  ghost function FileChecks(f: ManifestFile, trust: Trust, current: string, now: int): seq<(bool, Error)> {
    HeaderChecks(f, trust, now) + ReleaseChecks(f.manifest, trust, current)
  }

  lemma SignatureIff(s: string)
    ensures Base64Url.Decode(s, 64).Some? <==> SpellsSignature(s)
  {
    if Base64Url.Decode(s, 64).Some? {
      Base64Url.DecodeIffEncode(s, 64, Base64Url.Decode(s, 64).value);
    } else if SpellsSignature(s) {
      var b: Bytes :| |b| == 64 && s == Base64Url.Encode(b);
      Base64Url.DecodeIffEncode(s, 64, b);
    }
  }

  /** The certificate is named by forty hexadecimal digits, small or capital. */
  lemma ThumbprintIff(s: string)
    ensures IsThumbprint(s) <==>
              |s| == 40 && forall c :: c in s ==>
                48 <= c as int <= 57 || 65 <= c as int <= 70 || 97 <= c as int <= 102
  {
    forall i | 0 <= i < |s|
      ensures IsHexDigit(s[i]) <==> 48 <= s[i] as int <= 57 || 65 <= s[i] as int <= 70 || 97 <= s[i] as int <= 102
    {
    }
    if forall c :: c in s ==> 48 <= c as int <= 57 || 65 <= c as int <= 70 || 97 <= c as int <= 102 {
      forall i | 0 <= i < |s| ensures IsHexDigit(s[i]) { assert s[i] in s; }
    }
  }

  lemma VersionsIff(s: string, t: string)
    ensures Parse(s).Some? <==> Number(s) >= 0
    ensures Number(s) >= 0 && Number(t) >= 0 ==> (VersionLess(s, t) <==> Number(s) < Number(t))
  {
    if Parse(s).Some? && Parse(t).Some? { LessIsNumber(s, t); }
  }

  lemma NotesIff(notes: CanonicalJson.Codes)
    ensures PlainNotes(notes) <==> ReadableNotes(notes)
  {
    if ReadableNotes(notes) {
      forall i | 0 <= i < |notes| ensures notes[i] >= 32 || notes[i] == 9 || notes[i] == 10 { assert notes[i] in notes; }
    }
  }

  lemma ReleaseFault(m: Manifest, trust: Trust, current: string)
    ensures (if m.platform != "windows-x64" then Some(WrongPlatform) else CheckRelease(m, trust, current))
            == FirstFault(ReleaseChecks(m, trust, current))
  {
    VersionsIff(current, m.productVersion);
    VersionsIff(m.productVersion, current);
    NotesIff(m.notes);
    FourChecks(ReleaseChecks(m, trust, current));
  }

  lemma HeaderFault(f: ManifestFile, trust: Trust, current: string, now: int)
    ensures CheckFile(f, trust, current, now)
            == if FirstFault(HeaderChecks(f, trust, now)).Some? then FirstFault(HeaderChecks(f, trust, now))
               else if f.manifest.platform != "windows-x64" then Some(WrongPlatform)
               else CheckRelease(f.manifest, trust, current)
  {
    SignatureIff(f.manifest.signature);
    BehindTwo(HeaderChecks(f, trust, now));
    FourChecks(HeaderChecks(f, trust, now)[2..]);
  }

  /** The verdict on a manifest file is that of the list. */
  lemma VerdictIsFirstFault(f: ManifestFile, trust: Trust, current: string, now: int)
    ensures CheckFile(f, trust, current, now) == FirstFault(FileChecks(f, trust, current, now))
  {
    HeaderFault(f, trust, current, now);
    ReleaseFault(f.manifest, trust, current);
    FirstFaultOfSum(HeaderChecks(f, trust, now), ReleaseChecks(f.manifest, trust, current));
  }
}
