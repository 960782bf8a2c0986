/** `_decode`: unpadded base64url (RFC 4648 sections 3.5 and 5), accepted only in its one
    canonical spelling. */
module Base64Url {
  import opened Wrappers
  import opened Octets

  type Sextet = d: int | 0 <= d < 64

  predicate InAlphabet(c: char) {
    'A' <= c <= 'Z' || 'a' <= c <= 'z' || '0' <= c <= '9' || c == '-' || c == '_'
  }

  function Letter(d: Sextet): (c: char)
    ensures InAlphabet(c)
  {
    if d < 26 then ('A' as int + d) as char
    else if d < 52 then ('a' as int + d - 26) as char
    else if d < 62 then ('0' as int + d - 52) as char
    else if d == 62 then '-'
    else '_'
  }

  function Value(c: char): (d: Sextet)
    requires InAlphabet(c)
    ensures Letter(d) == c
  {
    if 'A' <= c <= 'Z' then c as int - 'A' as int
    else if 'a' <= c <= 'z' then c as int - 'a' as int + 26
    else if '0' <= c <= '9' then c as int - '0' as int + 52
    else if c == '-' then 62
    else 63
  }

  function Letters(d: seq<Sextet>): (t: string)
    ensures |t| == |d| && forall i :: 0 <= i < |t| ==> t[i] == Letter(d[i]) && InAlphabet(t[i])
  {
    if d == [] then "" else [Letter(d[0])] + Letters(d[1..])
  }

  function Values(t: string): (d: seq<Sextet>)
    requires forall i :: 0 <= i < |t| ==> InAlphabet(t[i])
    ensures |d| == |t| && forall i :: 0 <= i < |d| ==> d[i] == Value(t[i])
  {
    if t == "" then [] else [Value(t[0])] + Values(t[1..])
  }

  lemma ValuesOfLetters(d: seq<Sextet>)
    ensures Values(Letters(d)) == d
  {
  }

  /** Bytes to six-bit groups; left-over bits of the last group are zero. */
  function Pack(b: Bytes): (d: seq<Sextet>)
    ensures |d| % 4 != 1 && (d == [] <==> b == [])
  {
    if b == [] then []
    else if |b| == 1 then [b[0] / 4, b[0] % 4 * 16]
    else if |b| == 2 then [b[0] / 4, b[0] % 4 * 16 + b[1] / 16, b[1] % 16 * 4]
    else [b[0] / 4, b[0] % 4 * 16 + b[1] / 16, b[1] % 16 * 4 + b[2] / 64, b[2] % 64] + Pack(b[3..])
  }

  /** Six-bit groups to bytes: left-over bits are dropped unseen, a single left-over group is an
      error. */
  function Unpack(d: seq<Sextet>): Option<Bytes> {
    if d == [] then Some([])
    else if |d| == 1 then None
    else
      var x: int, y: int := d[0], d[1];
      var first: Byte := x * 4 + y / 16;
      if |d| == 2 then Some([first])
      else
        var z: int := d[2];
        var second: Byte := y % 16 * 16 + z / 4;
        if |d| == 3 then Some([first, second])
        else
          var w: int := d[3];
          var third: Byte := z % 4 * 64 + w;
          var rest := Unpack(d[4..]);
          if rest == None then None else Some([first, second, third] + rest.value)
  }

  /** urlsafe_b64encode without its padding. */
  function Encode(b: Bytes): string { Letters(Pack(b)) }

  /** urlsafe_b64decode of the padded text. */
  function RawDecode(t: string): Option<Bytes>
    requires forall i :: 0 <= i < |t| ==> InAlphabet(t[i])
  {
    Unpack(Values(t))
  }

  /** The source's `_decode`: right letters, right length, and re-encoding gives the text back. */
  function Decode(t: string, size: nat): Option<Bytes> {
    if t == "" || exists i :: 0 <= i < |t| && !InAlphabet(t[i]) then None
    else
      var b := RawDecode(t);
      if b == None || |b.value| != size || Encode(b.value) != t then None else b
  }

  lemma Bits(a: Byte, b: Byte, c: Byte)
    ensures a / 4 * 4 + (a % 4 * 16 + b / 16) / 16 == a
    ensures (a % 4 * 16 + b / 16) % 16 * 16 + (b % 16 * 4 + c / 64) / 4 == b
    ensures (b % 16 * 4 + c / 64) % 4 * 64 + c % 64 == c
    ensures a % 4 * 16 / 16 == a % 4 && b % 16 * 4 / 4 == b % 16
  {
  }

  lemma {:induction false} UnpackOfPack(b: Bytes)
    ensures Unpack(Pack(b)) == Some(b)
  {
    if |b| == 1 {
      Bits(b[0], 0, 0);
      assert b == [b[0]];
    } else if |b| == 2 {
      Bits(b[0], b[1], 0);
      assert b == [b[0], b[1]];
    } else if |b| >= 3 {
      Bits(b[0], b[1], b[2]);
      UnpackOfPack(b[3..]);
      assert Pack(b)[4..] == Pack(b[3..]);
      assert b == [b[0], b[1], b[2]] + b[3..];
    }
  }

  /** Each byte string of the required size has exactly one accepted text, its encoding; every other
      text is rejected.  So decoding and encoding are inverse on what is accepted. */
  lemma DecodeIffEncode(t: string, size: nat, b: Bytes)
    ensures Decode(t, size) == Some(b) <==> size >= 1 && |b| == size && t == Encode(b)
  {
    ValuesOfLetters(Pack(b));
    UnpackOfPack(b);
  }

  /** The last group of an encoding carries no left-over bits. */
  lemma {:induction false} LastGroup(b: Bytes)
    ensures var d := Pack(b);
            && (|d| % 4 == 2 ==> d[|d| - 1] % 16 == 0)
            && (|d| % 4 == 3 ==> d[|d| - 1] % 4 == 0)
  {
    if |b| >= 3 { LastGroup(b[3..]); }
  }

  lemma {:induction false} UnpackTotal(d: seq<Sextet>)
    ensures Unpack(d).Some? <==> |d| % 4 != 1
  {
    if |d| >= 4 { UnpackTotal(d[4..]); }
  }

  /** Non-zero left-over bits, which plain base64 decoding ignores, are refused at every length. */
  lemma LeftoverBitsRefused(t: string, size: nat)
    requires forall i :: 0 <= i < |t| ==> InAlphabet(t[i])
    requires (|t| % 4 == 2 && Value(t[|t| - 1]) % 16 != 0) || (|t| % 4 == 3 && Value(t[|t| - 1]) % 4 != 0)
    ensures Decode(t, size) == None && RawDecode(t).Some?
  {
    UnpackTotal(Values(t));
    if Decode(t, size).Some? {
      var b := Decode(t, size).value;
      LastGroup(b);
      ValuesOfLetters(Pack(b));
    }
  }
}
