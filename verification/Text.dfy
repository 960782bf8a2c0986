/** Splitting on a separator, joining, and decimal numerals. */
module Text {

  /** `s` cut at every `c`; always at least one piece, none of which contains `c`. */
  function Split<T(==)>(s: seq<T>, c: T): (parts: seq<seq<T>>)
    ensures |parts| >= 1
    ensures forall i :: 0 <= i < |parts| ==> c !in parts[i]
    ensures Join(parts, c) == s
  {
    if s == [] then [[]]
    else
      var rest := Split(s[1..], c);
      if s[0] == c then
        assert [[]] + rest != [[]] && ([[]] + rest)[1..] == rest;
        [[]] + rest
      else
        assert ([[s[0]] + rest[0]] + rest[1..])[1..] == rest[1..];
        [[s[0]] + rest[0]] + rest[1..]
  }

  function Join<T>(parts: seq<seq<T>>, c: T): seq<T>
    requires |parts| >= 1
  {
    if |parts| == 1 then parts[0] else parts[0] + [c] + Join(parts[1..], c)
  }

  /** Splitting undoes joining of pieces that do not contain the separator. */
  lemma {:induction false} SplitOfJoin<T>(parts: seq<seq<T>>, c: T)
    requires |parts| >= 1 && forall i :: 0 <= i < |parts| ==> c !in parts[i]
    ensures Split(Join(parts, c), c) == parts
    decreases |parts|, |parts[0]|
  {
    var p := parts[0];
    var s := Join(parts, c);
    if p != [] {
      var smaller := [p[1..]] + parts[1..];
      assert smaller[1..] == parts[1..];
      assert s[1..] == Join(smaller, c);
      SplitOfJoin(smaller, c);
      assert s[0] == p[0] && s[0] in p;
      assert [p[0]] + p[1..] == p;
      assert [p] + parts[1..] == parts;
    } else if |parts| > 1 {
      assert s[1..] == Join(parts[1..], c);
      SplitOfJoin(parts[1..], c);
      assert [p] + parts[1..] == parts;
    } else {
      assert parts == [p];
    }
  }

  lemma {:induction false} JoinAppend<T>(a: seq<seq<T>>, b: seq<seq<T>>, c: T)
    requires a != [] && b != []
    ensures Join(a + b, c) == Join(a, c) + [c] + Join(b, c)
  {
    if |a| == 1 {
      assert (a + b)[1..] == b;
    } else {
      assert (a + b)[1..] == a[1..] + b;
      JoinAppend(a[1..], b, c);
    }
  }

  predicate Apart<T(==)>(parts: seq<seq<T>>, c: T) {
    forall i :: 0 <= i < |parts| ==> c !in parts[i]
  }

  lemma JoinInjective<T>(a: seq<seq<T>>, b: seq<seq<T>>, c: T)
    requires a != [] && b != [] && Apart(a, c) && Apart(b, c) && Join(a, c) == Join(b, c)
    ensures a == b
  {
    SplitOfJoin(a, c);
    SplitOfJoin(b, c);
  }

  /** The textual test "starts with a and the separator" is nesting of the lists of pieces. */
  lemma StartsWithIsNesting<T>(a: seq<seq<T>>, b: seq<seq<T>>, c: T)
    requires a != [] && b != [] && Apart(a, c) && Apart(b, c)
    ensures Join(a, c) + [c] <= Join(b, c) <==> a < b
  {
    if a < b {
      assert b == a + b[|a|..];
      JoinAppend(a, b[|a|..], c);
    } else if Join(a, c) + [c] <= Join(b, c) {
      var rest := Join(b, c)[|Join(a, c)| + 1..];
      var more := Split(rest, c);
      JoinAppend(a, more, c);
      assert Join(b, c) == Join(a, c) + [c] + rest;
      assert Apart(a + more, c);
      JoinInjective(a + more, b, c);
    }
  }

  predicate IsDigit(ch: char) { '0' <= ch <= '9' }

  /** ASCII white space. */
  predicate IsBlank(c: char) { c == ' ' || '\t' <= c <= '\r' }

  /** Lower case, of ASCII letters only. */
  function LowerChar(c: char): char {
    if 'A' <= c <= 'Z' then (c as int + 32) as char else c
  }

  function Lower(s: string): (l: string)
    ensures |l| == |s|
  {
    seq(|s|, i requires 0 <= i < |s| => LowerChar(s[i]))
  }

  function DigitChar(d: nat): (ch: char)
    requires d < 10
    ensures IsDigit(ch) && ch as int - '0' as int == d
  {
    ('0' as int + d) as char
  }

  function DigitValue(ch: char): (d: nat)
    requires IsDigit(ch)
    ensures d < 10 && DigitChar(d) == ch
  {
    ch as int - '0' as int
  }

  /** The usual decimal numeral, without leading zeros. */
  function Decimal(n: nat): (s: string)
    ensures |s| >= 1 && forall i :: 0 <= i < |s| ==> IsDigit(s[i])
  {
    if n < 10 then [DigitChar(n)] else Decimal(n / 10) + [DigitChar(n % 10)]
  }

  predicate AllDigits(s: string) {
    forall i :: 0 <= i < |s| ==> IsDigit(s[i])
  }

  function Numeral(s: string): nat
    requires AllDigits(s)
  {
    if s == [] then 0 else 10 * Numeral(s[..|s| - 1]) + DigitValue(s[|s| - 1])
  }

  /** Digits without a superfluous leading zero. */
  predicate IsPlain(s: string) {
    |s| >= 1 && AllDigits(s) && (s[0] == '0' ==> |s| == 1)
  }

  lemma {:induction false} NumeralOfDecimal(n: nat)
    ensures Numeral(Decimal(n)) == n && IsPlain(Decimal(n)) && (n > 0 ==> Decimal(n)[0] != '0')
  {
    if n >= 10 {
      NumeralOfDecimal(n / 10);
      var s := Decimal(n);
      assert s[..|s| - 1] == Decimal(n / 10);
    }
  }

  lemma {:induction false} DecimalOfNumeral(s: string)
    requires IsPlain(s)
    ensures Decimal(Numeral(s)) == s && (s[0] != '0' ==> Numeral(s) > 0)
  {
    var init := s[..|s| - 1];
    if |s| > 1 {
      DecimalOfNumeral(init);
      assert Numeral(s) / 10 == Numeral(init);
      assert s == init + [s[|s| - 1]];
    } else {
      assert Numeral(init) == 0;
    }
  }

  function Pow10(n: nat): (p: nat)
    ensures p >= 1
  {
    if n == 0 then 1 else 10 * Pow10(n - 1)
  }

  /** A plain numeral has at most `k` digits exactly when its value is below 10^k. */
  lemma {:induction false} NumeralBound(s: string, k: nat)
    requires IsPlain(s) && k >= 1
    ensures |s| <= k <==> Numeral(s) < Pow10(k)
  {
    var init := s[..|s| - 1];
    if |s| == 1 {
      assert Numeral(init) == 0;
      assert Pow10(k) == 10 * Pow10(k - 1);
    } else {
      DecimalOfNumeral(init);
      if k == 1 {
        assert Numeral(init) > 0;
        assert Pow10(1) == 10 * Pow10(0);
      } else {
        NumeralBound(init, k - 1);
        assert Pow10(k) == 10 * Pow10(k - 1);
      }
    }
  }
}
