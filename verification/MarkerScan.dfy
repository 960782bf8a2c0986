/** The private-marker scan of a release: files read in chunks, with an overlap carried along. */
module MarkerScan {
  import opened Chunks
  import opened Octets
  import opened CanonicalJson

  const OVERLAP: nat := 4096
  const CHUNK_SIZE: nat := 1024 * 1024

  // ----- Encodings ----------------------------------------------------------------------------

  /** One character in UTF-8 (RFC 3629, section 3). */
  function Utf8Char(c: Code): Bytes {
    if c < 0x80 then [c]
    else if c < 0x800 then [0xc0 + c / 64, 0x80 + c % 64]
    else if c < 0x1_0000 then [0xe0 + c / 4096, 0x80 + c / 64 % 64, 0x80 + c % 64]
    else [0xf0 + c / 64 / 4096, 0x80 + c / 4096 % 64, 0x80 + c / 64 % 64, 0x80 + c % 64]
  }

  function UnitBytes(u: int, bigEndian: bool): Bytes
    requires 0 <= u < 0x1_0000
  {
    if bigEndian then [u / 256, u % 256] else [u % 256, u / 256]
  }

  function Utf16Char(c: Code, bigEndian: bool): Bytes {
    if c < 0x1_0000 then UnitBytes(c, bigEndian)
    else UnitBytes(HighOf(c), bigEndian) + UnitBytes(LowOf(c), bigEndian)
  }

  function Utf8(t: Codes): Bytes {
    if t == [] then [] else Utf8Char(t[0]) + Utf8(t[1..])
  }

  function Utf16(t: Codes, bigEndian: bool): Bytes {
    if t == [] then [] else Utf16Char(t[0], bigEndian) + Utf16(t[1..], bigEndian)
  }

  /** A marker in UTF-16 takes at most twice its bytes in UTF-8. */
  lemma {:induction false} Utf16Size(t: Codes, bigEndian: bool)
    ensures |Utf16(t, bigEndian)| <= 2 * |Utf8(t)|
  {
    if t != [] { Utf16Size(t[1..], bigEndian); }
  }

  /** A byte string to look for, with the index of the marker it encodes. */
  datatype Needle = Needle(index: nat, bytes: Bytes)

  predicate Encodes(n: Needle, markers: seq<Codes>) {
    n.index < |markers|
    && n.bytes in {Utf8(markers[n.index]), Utf16(markers[n.index], false), Utf16(markers[n.index], true)}
  }

  /** _encoded_markers. */
  method EncodedMarkers(markers: seq<Codes>) returns (needles: seq<Needle>)
    ensures forall n :: n in needles <==> Encodes(n, markers)
  {
    needles := [];
    for k := 0 to |markers|
      invariant forall n :: n in needles <==> Encodes(n, markers) && n.index < k
    {
      needles := needles + [Needle(k, Utf8(markers[k])), Needle(k, Utf16(markers[k], false)),
                            Needle(k, Utf16(markers[k], true))];
    }
  }

  // ----- What a chunked scan can see ----------------------------------------------------------

  predicate OccursAt(m: Bytes, s: Bytes, p: nat) {
    p + |m| <= |s| && s[p..p + |m|] == m
  }

  predicate Contains(s: Bytes, m: Bytes) {
    exists p :: 0 <= p <= |s| && OccursAt(m, s, p)
  }

  function End(chunks: seq<Bytes>, k: nat): nat
    requires k <= |chunks|
  {
    |Concat(chunks[..k])|
  }

  /** Where the bytes carried into chunk `k` begin. */
  function CarryStart(chunks: seq<Bytes>, k: nat): nat
    requires k <= |chunks|
  {
    if End(chunks, k) < OVERLAP then 0 else End(chunks, k) - OVERLAP
  }

  /** The occurrence at `p` lies within chunk `k` and what was carried into it. */
  predicate SeenIn(chunks: seq<Bytes>, m: Bytes, p: nat, k: nat)
    requires k < |chunks|
  {
    CarryStart(chunks, k) <= p && p + |m| <= End(chunks, k + 1) && OccursAt(m, Concat(chunks), p)
  }

  predicate Visible(chunks: seq<Bytes>, m: Bytes) {
    exists k, p :: 0 <= k < |chunks| && 0 <= p <= |Concat(chunks)| && SeenIn(chunks, m, p, k)
  }

  function LastBytes(s: Bytes): Bytes {
    if |s| < OVERLAP then s else s[|s| - OVERLAP..]
  }

  lemma Window(before: Bytes, content: Bytes, whole: Bytes, start: nat)
    requires before + content <= whole && start == if |before| < OVERLAP then 0 else |before| - OVERLAP
    ensures LastBytes(before) + content == whole[start..|before| + |content|]
    ensures LastBytes(LastBytes(before) + content) == LastBytes(before + content)
  {
    var both := before + content;
    assert LastBytes(before) == before[start..];
    assert LastBytes(before) + content == both[start..];
    assert both == whole[..|both|];
  }

  /** The sample is a window of the file, and so is what is carried on. */
  lemma SampleIsWindow(chunks: seq<Bytes>, k: nat, carry: Bytes)
    requires k < |chunks| && carry == LastBytes(Concat(chunks[..k]))
    ensures End(chunks, k) <= End(chunks, k + 1) <= |Concat(chunks)|
    ensures carry + chunks[k] == Concat(chunks)[CarryStart(chunks, k)..End(chunks, k + 1)]
    ensures LastBytes(carry + chunks[k]) == LastBytes(Concat(chunks[..k + 1]))
  {
    ConcatAppend(chunks, k);
    ConcatPrefix(chunks, k + 1);
    Window(Concat(chunks[..k]), chunks[k], Concat(chunks), CarryStart(chunks, k));
  }

  lemma OccursInWindow(whole: Bytes, start: nat, end: nat, m: Bytes, p: nat)
    requires start <= p && p + |m| <= end <= |whole|
    ensures OccursAt(m, whole, p) <==> OccursAt(m, whole[start..end], p - start)
  {
    var inner, outer := whole[start..end][p - start..p - start + |m|], whole[p..p + |m|];
    assert forall i :: 0 <= i < |m| ==> inner[i] == outer[i];
    assert inner == outer;
  }

  lemma SampleShows(chunks: seq<Bytes>, k: nat, m: Bytes)
    requires k < |chunks| && End(chunks, k) <= End(chunks, k + 1) <= |Concat(chunks)|
    ensures Contains(Concat(chunks)[CarryStart(chunks, k)..End(chunks, k + 1)], m)
            <==> exists p :: 0 <= p <= |Concat(chunks)| && SeenIn(chunks, m, p, k)
  {
    var start, end, whole := CarryStart(chunks, k), End(chunks, k + 1), Concat(chunks);
    if Contains(whole[start..end], m) {
      var p :| 0 <= p <= |whole[start..end]| && OccursAt(m, whole[start..end], p);
      OccursInWindow(whole, start, end, m, start + p);
      assert SeenIn(chunks, m, start + p, k);
    }
    if exists p :: 0 <= p <= |whole| && SeenIn(chunks, m, p, k) {
      var p :| 0 <= p <= |whole| && SeenIn(chunks, m, p, k);
      OccursInWindow(whole, start, end, m, p);
    }
  }

  ghost predicate VisibleBefore(chunks: seq<Bytes>, m: Bytes, n: nat) {
    exists k, p :: 0 <= k < n && k < |chunks| && 0 <= p <= |Concat(chunks)| && SeenIn(chunks, m, p, k)
  }

  /** The marker part of `_scan_file`: an index is reported once, and exactly when one of its needles
      is visible to the chunked reading. */
  method ScanFile(chunks: seq<Bytes>, needles: seq<Needle>) returns (found: seq<nat>)
    ensures forall i, j :: 0 <= i < j < |found| ==> found[i] != found[j]
    ensures forall x :: x in found <==>
              exists i :: 0 <= i < |needles| && needles[i].index == x && Visible(chunks, needles[i].bytes)
  {
    found := [];
    var seen: set<nat> := {};
    var carry: Bytes := [];
    for k := 0 to |chunks|
      invariant carry == LastBytes(Concat(chunks[..k]))
      invariant forall x :: x in seen <==> x in found
      invariant forall i, j :: 0 <= i < j < |found| ==> found[i] != found[j]
      invariant forall x :: x in found <==>
                  exists i :: 0 <= i < |needles| && needles[i].index == x
                              && VisibleBefore(chunks, needles[i].bytes, k)
    {
      var sample := carry + chunks[k];
      SampleIsWindow(chunks, k, carry);
      found, seen := Report(sample, needles, found, seen);
      forall i | 0 <= i < |needles|
        ensures VisibleBefore(chunks, needles[i].bytes, k + 1)
                <==> VisibleBefore(chunks, needles[i].bytes, k) || Contains(sample, needles[i].bytes)
      {
        SampleShows(chunks, k, needles[i].bytes);
      }
      carry := LastBytes(sample);
    }
  }

  /** One sample: the markers in it that were not reported yet. */
  method Report(sample: Bytes, needles: seq<Needle>, before: seq<nat>, seenBefore: set<nat>)
    returns (found: seq<nat>, seen: set<nat>)
    requires forall x :: x in seenBefore <==> x in before
    requires forall i, j :: 0 <= i < j < |before| ==> before[i] != before[j]
    ensures forall x :: x in seen <==> x in found
    ensures forall i, j :: 0 <= i < j < |found| ==> found[i] != found[j]
    ensures forall x :: x in found <==>
              x in before
              || exists i :: 0 <= i < |needles| && needles[i].index == x && Contains(sample, needles[i].bytes)
  {
    found, seen := before, seenBefore;
    for n := 0 to |needles|
      invariant forall x :: x in seen <==> x in found
      invariant forall i, j :: 0 <= i < j < |found| ==> found[i] != found[j]
      invariant forall x :: x in found <==>
                  x in before
                  || exists i :: 0 <= i < n && needles[i].index == x && Contains(sample, needles[i].bytes)
    {
      var needle := needles[n];
      if needle.index !in seen && Contains(sample, needle.bytes) {
        found, seen := found + [needle.index], seen + {needle.index};
      }
    }
  }

  // ----- Exactly what is found ----------------------------------------------------------------

  lemma EndGrows(chunks: seq<Bytes>, k: nat)
    requires k < |chunks|
    ensures End(chunks, k + 1) == End(chunks, k) + |chunks[k]|
    ensures End(chunks, k + 1) <= |Concat(chunks)|
  {
    ConcatAppend(chunks, k);
    ConcatPrefix(chunks, k + 1);
  }

  /** Every byte position lies in one chunk. */
  lemma {:induction false} ChunkOf(chunks: seq<Bytes>, pos: nat, n: nat) returns (k: nat)
    requires n <= |chunks| && pos < End(chunks, n)
    ensures k < n && End(chunks, k) <= pos < End(chunks, k + 1)
  {
    EndGrows(chunks, n - 1);
    if pos < End(chunks, n - 1) { k := ChunkOf(chunks, pos, n - 1); } else { k := n - 1; }
  }

  lemma {:induction false} EndMonotone(chunks: seq<Bytes>, i: nat, j: nat)
    requires i <= j <= |chunks|
    ensures End(chunks, i) <= End(chunks, j)
  {
    if i < j {
      EndMonotone(chunks, i, j - 1);
      EndGrows(chunks, j - 1);
    }
  }

  /** An occurrence is seen exactly when it begins no more than the overlap before the chunk that
      holds its last byte. */
  lemma SeenIffNearItsLastChunk(chunks: seq<Bytes>, m: Bytes, p: nat, k: nat)
    requires m != [] && k < |chunks| && OccursAt(m, Concat(chunks), p)
    requires End(chunks, k) < p + |m| <= End(chunks, k + 1)
    ensures (exists l :: 0 <= l < |chunks| && SeenIn(chunks, m, p, l)) <==> End(chunks, k) - 4096 <= p
  {
    if End(chunks, k) - OVERLAP <= p {
      assert SeenIn(chunks, m, p, k);
    } else {
      forall l | 0 <= l < |chunks| ensures !SeenIn(chunks, m, p, l) {
        if l < k { EndMonotone(chunks, l + 1, k); } else { EndMonotone(chunks, k, l); }
      }
    }
  }

  /** Whatever the reads, needles of up to 4097 bytes are found exactly when the file has them. */
  lemma ShortNeedlesAreFound(chunks: seq<Bytes>, m: Bytes)
    requires 1 <= |m| <= 4097
    ensures Visible(chunks, m) <==> Contains(Concat(chunks), m)
  {
    if Contains(Concat(chunks), m) {
      var p :| 0 <= p <= |Concat(chunks)| && OccursAt(m, Concat(chunks), p);
      assert chunks[..|chunks|] == chunks;
      var k := ChunkOf(chunks, p + |m| - 1, |chunks|);
      assert SeenIn(chunks, m, p, k);
    }
  }

  /** So a marker of up to 2048 UTF-8 bytes is found in all three encodings. */
  lemma ModerateMarkersAreFound(chunks: seq<Bytes>, markers: seq<Codes>, n: Needle)
    requires Encodes(n, markers) && 1 <= |Utf8(markers[n.index])| <= 2048
    ensures Visible(chunks, n.bytes) <==> Contains(Concat(chunks), n.bytes)
  {
    Utf16Size(markers[n.index], false);
    Utf16Size(markers[n.index], true);
    Utf16NotEmpty(markers[n.index]);
    ShortNeedlesAreFound(chunks, n.bytes);
  }

  lemma Utf16NotEmpty(t: Codes)
    ensures t != [] <==> Utf8(t) != []
    ensures t != [] <==> Utf16(t, false) != []
    ensures t != [] <==> Utf16(t, true) != []
  {
  }

  // ----- Tightness ----------------------------------------------------------------------------

  /** Full reads of a megabyte, as a regular file delivers them. */
  function Reads(data: Bytes): (chunks: seq<Bytes>)
    ensures Concat(chunks) == data
  {
    if data == [] then []
    else if |data| <= CHUNK_SIZE then
      assert [data][1..] == [] && Concat([data][1..]) == [];
      [data]
    else
      var rest := Reads(data[CHUNK_SIZE..]);
      assert ([data[..CHUNK_SIZE]] + rest)[1..] == rest;
      [data[..CHUNK_SIZE]] + rest
  }

  lemma {:induction false} ReadsEnd(data: Bytes, k: nat)
    requires k <= |Reads(data)|
    ensures End(Reads(data), k) == if k * 1_048_576 <= |data| then k * 1_048_576 else |data|
  {
    var chunks := Reads(data);
    if k > 0 {
      var rest := chunks[1..];
      assert chunks[..k][1..] == rest[..k - 1];
      if |data| > CHUNK_SIZE {
        assert rest == Reads(data[CHUNK_SIZE..]);
        ReadsEnd(data[CHUNK_SIZE..], k - 1);
      }
    }
  }

  /** The padding that leaves the last byte of a needle of n + 1 bytes alone in its chunk. */
  function Padding(n: nat): (pad: nat)
    ensures (pad + n) % CHUNK_SIZE == 0
  {
    (CHUNK_SIZE - n % CHUNK_SIZE) % CHUNK_SIZE
  }

  lemma NotSeenBehindPadding(data: Bytes, m: Bytes, pad: nat, k: nat)
    requires |m| >= OVERLAP + 2 && pad == Padding(|m| - 1) && |data| == pad + |m|
    requires k < |Reads(data)|
    ensures !SeenIn(Reads(data), m, pad, k)
  {
    var q := (pad + |m| - 1) / CHUNK_SIZE;
    ReadsEnd(data, k);
    ReadsEnd(data, k + 1);
    assert |data| == q * CHUNK_SIZE + 1;
    if End(Reads(data), k + 1) == |data| { assert k >= q; }
  }

  lemma OnlyBehindPadding(m: Bytes, filler: Byte, pad: nat, p: nat)
    requires m != [] && m[0] != filler
    ensures var data := seq(pad, i => filler) + m; OccursAt(m, data, p) <==> p == pad
  {
  }

  /** The bound is tight even for full reads: for each longer needle there is a file that holds it
      and in which the scan does not see it. */
  lemma LongNeedleMissed(m: Bytes) returns (data: Bytes)
    requires |m| >= 4098
    ensures Contains(data, m) && !Visible(Reads(data), m)
  {
    var pad := Padding(|m| - 1);
    var filler: Byte := if m[0] == 0 then 1 else 0;
    data := seq(pad, i => filler) + m;
    OnlyBehindPadding(m, filler, pad, pad);
    var chunks := Reads(data);
    forall k, p | 0 <= k < |chunks| && 0 <= p <= |Concat(chunks)| ensures !SeenIn(chunks, m, p, k) {
      OnlyBehindPadding(m, filler, pad, p);
      if p == pad { NotSeenBehindPadding(data, m, pad, k); }
    }
  }

  // ----- Several files ------------------------------------------------------------------------

  datatype Source = Source(path: string, chunks: seq<Bytes>)

  datatype Finding = Finding(path: string, index: nat)

  datatype Summary = Summary(findings: seq<Finding>, filesScanned: nat, bytesScanned: nat, ok: bool)

  function TotalBytes(files: seq<Source>): nat {
    if files == [] then 0 else TotalBytes(files[..|files| - 1]) + |Concat(files[|files| - 1].chunks)|
  }

  ghost predicate Reported(files: seq<Source>, needles: seq<Needle>, f: Finding) {
    exists i, n :: 0 <= i < |files| && 0 <= n < |needles| && f == Finding(files[i].path, needles[n].index)
                   && Visible(files[i].chunks, needles[n].bytes)
  }

  /** The marker part of `scan_roots`. */
  method ScanRoots(files: seq<Source>, needles: seq<Needle>) returns (s: Summary)
    ensures s.filesScanned == |files| && s.bytesScanned == TotalBytes(files)
    ensures forall f :: f in s.findings <==> Reported(files, needles, f)
    ensures s.ok <==> forall f :: !Reported(files, needles, f)
  {
    var findings: seq<Finding> := [];
    var bytes := 0;
    for k := 0 to |files|
      invariant bytes == TotalBytes(files[..k])
      invariant forall f :: f in findings <==> Reported(files[..k], needles, f)
    {
      var found := ScanFile(files[k].chunks, needles);
      var here := seq(|found|, i requires 0 <= i < |found| => Finding(files[k].path, found[i]));
      assert forall f :: f in here <==> f.path == files[k].path && f.index in found by {
        forall f: Finding | f.path == files[k].path && f.index in found ensures f in here {
          var i :| 0 <= i < |found| && found[i] == f.index;
          assert here[i] == f;
        }
      }
      OneMoreFile(files, needles, k);
      findings := findings + here;
      bytes := bytes + |Concat(files[k].chunks)|;
      assert files[..k + 1][..k] == files[..k];
    }
    assert files[..|files|] == files;
    if findings != [] { assert findings[0] in findings; }
    return Summary(findings, |files|, bytes, findings == []);
  }

  lemma OneMoreFile(files: seq<Source>, needles: seq<Needle>, k: nat)
    requires k < |files|
    ensures forall f :: Reported(files[..k + 1], needles, f) <==>
              || Reported(files[..k], needles, f)
              || (f.path == files[k].path && exists n :: 0 <= n < |needles| && needles[n].index == f.index
                                                         && Visible(files[k].chunks, needles[n].bytes))
  {
  }
}
