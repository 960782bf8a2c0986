/** The three encodings that a marker is looked for in, byte by byte (RFC 3629, RFC 2781). */
module MarkerEncoding {
  import opened Chunks
  import opened Octets
  import opened CanonicalJson
  import opened MarkerScan

  predicate Continues(b: int) { 128 <= b < 192 }

  /** One character: itself below U+0080, otherwise a first byte that tells how many follow, and six bits in
      each of those. */
  predicate Utf8Of(b: seq<int>, c: Code) {
    if c < 128 then b == [c]
    else if c < 2048 then
      |b| == 2 && 192 <= b[0] < 224 && Continues(b[1]) && c == (b[0] - 192) * 64 + (b[1] - 128)
    else if c < 65536 then
      |b| == 3 && 224 <= b[0] < 240 && Continues(b[1]) && Continues(b[2])
      && c == (b[0] - 224) * 4096 + (b[1] - 128) * 64 + (b[2] - 128)
    else
      |b| == 4 && 240 <= b[0] < 248 && Continues(b[1]) && Continues(b[2]) && Continues(b[3])
      && c == (b[0] - 240) * 262144 + (b[1] - 128) * 4096 + (b[2] - 128) * 64 + (b[3] - 128)
  }

  /** A 16-bit unit in two bytes. */
  predicate UnitOf(b: seq<int>, unit: int, bigEndian: bool) {
    |b| == 2 && unit == if bigEndian then b[0] * 256 + b[1] else b[1] * 256 + b[0]
  }

  /** One unit, or above U+FFFF a high and a low surrogate. */
  ghost predicate Utf16Of(b: seq<int>, c: Code, bigEndian: bool) {
    if c < 65536 then UnitOf(b, c, bigEndian)
    else exists high: int, low: int :: PairOf(b, c, high, low, bigEndian)
  }

  predicate PairOf(b: seq<int>, c: Code, high: int, low: int, bigEndian: bool) {
    && |b| == 4 && UnitOf(b[..2], high, bigEndian) && UnitOf(b[2..], low, bigEndian)
    && 0xd800 <= high < 0xdc00 && 0xdc00 <= low < 0xe000
    && c == 65536 + (high - 0xd800) * 1024 + (low - 0xdc00)
  }

  ghost predicate EachUtf8(parts: seq<Bytes>, t: Codes) {
    |parts| == |t| && forall i :: 0 <= i < |t| ==> Utf8Of(parts[i], t[i])
  }

  ghost predicate EachUtf16(parts: seq<Bytes>, t: Codes, bigEndian: bool) {
    |parts| == |t| && forall i :: 0 <= i < |t| ==> Utf16Of(parts[i], t[i], bigEndian)
  }

  /** Six bits at a time. */
  lemma SixBits(c: int)
    requires c >= 0
    ensures c == c / 64 * 64 + c % 64
    ensures c / 64 == c / 4096 * 64 + c / 64 % 64 && c / 4096 == c / 262144 * 64 + c / 4096 % 64
    ensures c / 64 / 4096 == c / 262144
  {
  }

  lemma CharInUtf8(c: Code)
    ensures Utf8Of(Utf8Char(c), c)
  {
    SixBits(c);
    if c < 2048 {
    } else if c < 65536 {
      ThreeBytes(c);
    } else {
      FourBytes(c);
    }
  }

  lemma ThreeBytes(c: Code)
    requires 2048 <= c < 65536
    ensures Utf8Of([0xe0 + c / 4096, 0x80 + c / 64 % 64, 0x80 + c % 64], c)
  {
    SixBits(c);
  }

  lemma FourBytes(c: Code)
    requires c >= 65536
    ensures Utf8Of([0xf0 + c / 64 / 4096, 0x80 + c / 4096 % 64, 0x80 + c / 64 % 64, 0x80 + c % 64], c)
  {
    SixBits(c);
  }

  lemma UnitInBytes(u: int, bigEndian: bool)
    requires 0 <= u < 65536
    ensures UnitOf(UnitBytes(u, bigEndian), u, bigEndian)
  {
  }

  lemma CharInUtf16(c: Code, bigEndian: bool)
    ensures Utf16Of(Utf16Char(c, bigEndian), c, bigEndian)
  {
    if c < 65536 {
      UnitInBytes(c, bigEndian);
    } else {
      var high, low := HighOf(c), LowOf(c);
      var a, b := UnitBytes(high, bigEndian), UnitBytes(low, bigEndian);
      UnitInBytes(high, bigEndian);
      UnitInBytes(low, bigEndian);
      assert (a + b)[..2] == a && (a + b)[2..] == b;
      assert PairOf(a + b, c, high, low, bigEndian);
    }
  }

  /** A text is encoded character by character. */
  lemma {:induction false} TextInUtf8(t: Codes) returns (parts: seq<Bytes>)
    ensures EachUtf8(parts, t) && Utf8(t) == Concat(parts)
  {
    if t == [] {
      parts := [];
    } else {
      var rest := TextInUtf8(t[1..]);
      CharInUtf8(t[0]);
      parts := [Utf8Char(t[0])] + rest;
      assert parts[1..] == rest;
    }
  }

  lemma {:induction false} TextInUtf16(t: Codes, bigEndian: bool) returns (parts: seq<Bytes>)
    ensures EachUtf16(parts, t, bigEndian) && Utf16(t, bigEndian) == Concat(parts)
  {
    if t == [] {
      parts := [];
    } else {
      var rest := TextInUtf16(t[1..], bigEndian);
      CharInUtf16(t[0], bigEndian);
      parts := [Utf16Char(t[0], bigEndian)] + rest;
      assert parts[1..] == rest;
    }
  }

  /** The needles of a marker are its text in UTF-8 and in either order of UTF-16, and nothing else. */
  lemma NeedlesAre(n: Needle, markers: seq<Codes>) returns (parts: seq<Bytes>)
    requires Encodes(n, markers)
    ensures n.index < |markers| && n.bytes == Concat(parts)
    ensures var t := markers[n.index]; EachUtf8(parts, t) || EachUtf16(parts, t, false) || EachUtf16(parts, t, true)
  {
    var t := markers[n.index];
    if n.bytes == Utf8(t) {
      parts := TextInUtf8(t);
    } else if n.bytes == Utf16(t, false) {
      parts := TextInUtf16(t, false);
    } else {
      parts := TextInUtf16(t, true);
    }
  }
}
