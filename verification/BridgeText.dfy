/** Text operations of the bridge parser: two notions of white space, trimming, tokens and lines. */
module BridgeText {
  import opened Text

  /** QChar::isSpace, which `trimmed()` uses: Unicode white space.  `\s` of the regular expressions is
      ASCII white space only. */
  predicate IsSpace(c: char) {
    || IsBlank(c) || c == '\U{85}' || c == '\U{a0}' || c == '\U{1680}' || '\U{2000}' <= c <= '\U{200a}'
    || c == '\U{2028}' || c == '\U{2029}' || c == '\U{202f}' || c == '\U{205f}' || c == '\U{3000}'
  }

  predicate IsBreak(c: char) { c == '\n' || c == '\r' }

  predicate HasBreak(s: string) { exists i :: 0 <= i < |s| && IsBreak(s[i]) }

  predicate HasText(s: string) { exists i :: 0 <= i < |s| && !IsSpace(s[i]) }

  predicate AllSpace(s: string) { forall i :: 0 <= i < |s| ==> IsSpace(s[i]) }

  function TrimStart(s: string): (t: string)
    ensures |t| <= |s|
  {
    if s != [] && IsSpace(s[0]) then TrimStart(s[1..]) else s
  }

  function TrimEnd(s: string): (t: string)
    ensures |t| <= |s|
  {
    if s != [] && IsSpace(s[|s| - 1]) then TrimEnd(s[..|s| - 1]) else s
  }

  function Trim(s: string): (t: string)
    ensures |t| <= |s|
  {
    TrimEnd(TrimStart(s))
  }

  /** Neither end is white space. */
  predicate IsTrim(s: string) {
    s == [] || (!IsSpace(s[0]) && !IsSpace(s[|s| - 1]))
  }

  lemma Front(s: string, a: string, b: string)
    requires s != [] && s[1..] == a + b
    ensures s == [s[0]] + a + b
  {
  }

  lemma {:induction false} TrimStartSplits(s: string) returns (pre: string)
    ensures s == pre + TrimStart(s) && AllSpace(pre)
    ensures TrimStart(s) != [] ==> !IsSpace(TrimStart(s)[0])
  {
    if s != [] && IsSpace(s[0]) {
      var p := TrimStartSplits(s[1..]);
      pre := [s[0]] + p;
      Front(s, p, TrimStart(s[1..]));
    } else {
      pre := [];
    }
  }

  lemma {:induction false} TrimEndSplits(s: string) returns (post: string)
    ensures s == TrimEnd(s) + post && AllSpace(post)
    ensures TrimEnd(s) != [] ==> !IsSpace(TrimEnd(s)[|TrimEnd(s)| - 1])
  {
    if s != [] && IsSpace(s[|s| - 1]) {
      post := TrimEndSplits(s[..|s| - 1]);
      post := post + [s[|s| - 1]];
      assert s == s[..|s| - 1] + [s[|s| - 1]];
    } else {
      post := [];
    }
  }

  /** The trimmed text is a piece of the text with white space only around it. */
  lemma TrimSplits(s: string) returns (pre: string, post: string)
    ensures s == pre + Trim(s) + post && AllSpace(pre) && AllSpace(post)
    ensures IsTrim(Trim(s))
  {
    pre := TrimStartSplits(s);
    post := TrimEndSplits(TrimStart(s));
    if Trim(s) != [] { assert Trim(s)[0] == TrimStart(s)[0]; }
  }

  lemma TrimOfTrim(s: string)
    requires IsTrim(s)
    ensures Trim(s) == s
  {
  }

  // ----- Tokens -------------------------------------------------------------------------------

  predicate NoBlank(s: string) { forall i :: 0 <= i < |s| ==> !IsBlank(s[i]) }

  function SkipBlanks(s: string): (t: string)
    ensures |t| <= |s| && (t != [] ==> !IsBlank(t[0]))
  {
    if s != [] && IsBlank(s[0]) then SkipBlanks(s[1..]) else s
  }

  /** The longest start without blanks, and what is behind it. */
  function Word(s: string): string {
    if s != [] && !IsBlank(s[0]) then [s[0]] + Word(s[1..]) else []
  }

  function BehindWord(s: string): (t: string)
    ensures |t| <= |s| && (t != [] ==> IsBlank(t[0]))
    ensures s != [] && !IsBlank(s[0]) ==> |t| < |s|
  {
    if s != [] && !IsBlank(s[0]) then BehindWord(s[1..]) else s
  }

  /** bridgeTokens: the maximal runs of non-blanks. */
  function Tokens(s: string): seq<string>
    decreases |s|
  {
    var t := SkipBlanks(s);
    if t == [] then [] else [Word(t)] + Tokens(BehindWord(t))
  }

  lemma {:induction false} WordSplits(s: string)
    ensures s == Word(s) + BehindWord(s) && NoBlank(Word(s))
  {
    if s != [] && !IsBlank(s[0]) {
      WordSplits(s[1..]);
      Front(s, Word(s[1..]), BehindWord(s[1..]));
    }
  }

  lemma {:induction false} SkipSplits(s: string) returns (pre: string)
    ensures s == pre + SkipBlanks(s)
  {
    if s != [] && IsBlank(s[0]) {
      var p := SkipSplits(s[1..]);
      pre := [s[0]] + p;
      Front(s, p, SkipBlanks(s[1..]));
    } else {
      pre := [];
    }
  }

  lemma {:induction false} WordInFront(w: string, more: string)
    requires NoBlank(w) && (more != [] ==> IsBlank(more[0]))
    ensures Word(w + more) == w && BehindWord(w + more) == more
  {
    if w == [] {
      assert w + more == more;
    } else {
      assert (w + more)[1..] == w[1..] + more;
      WordInFront(w[1..], more);
      assert [w[0]] + w[1..] == w;
    }
  }

  lemma TokensInFront(w: string, more: string)
    requires w != [] && NoBlank(w) && (more != [] ==> IsBlank(more[0]))
    ensures Tokens(w + more) == [w] + Tokens(more)
  {
    WordInFront(w, more);
    assert (w + more)[0] == w[0];
  }

  // ----- Lines --------------------------------------------------------------------------------

  /** Split at \r\n, \n or \r. */
  function Lines(s: string): (ls: seq<string>)
    ensures |ls| >= 1
  {
    if s == [] then [""]
    else if s[0] == '\r' && |s| > 1 && s[1] == '\n' then [""] + Lines(s[2..])
    else if IsBreak(s[0]) then [""] + Lines(s[1..])
    else var rest := Lines(s[1..]); [[s[0]] + rest[0]] + rest[1..]
  }

  function CountText(ls: seq<string>): nat {
    if ls == [] then 0 else (if HasText(ls[0]) then 1 else 0) + CountText(ls[1..])
  }

  function TextLines(s: string): nat { CountText(Lines(s)) }

  lemma {:induction false} OneLine(s: string)
    requires !HasBreak(s)
    ensures Lines(s) == [s] && TextLines(s) <= 1
  {
    if s != [] {
      assert !IsBreak(s[0]);
      forall i | 0 <= i < |s[1..]| ensures !IsBreak(s[1..][i]) { assert s[1..][i] == s[i + 1]; }
      OneLine(s[1..]);
      assert [s[1..]][1..] == [] && [s[0]] + s[1..] == s;
    }
    assert [s][1..] == [] && CountText([s]) <= 1;
  }

  /** A first line in front does not lower the count. */
  lemma CountFront(c: char, ls: seq<string>)
    requires |ls| >= 1
    ensures var t := [[c] + ls[0]] + ls[1..];
            && CountText(t) >= CountText(ls)
            && (!IsSpace(c) && !HasText(ls[0]) ==> CountText(t) == CountText(ls) + 1)
            && (!IsSpace(c) ==> HasText(t[0]))
  {
    var t := [[c] + ls[0]] + ls[1..];
    assert t[1..] == ls[1..];
    assert t[0][0] == c;
    if HasText(ls[0]) {
      var i :| 0 <= i < |ls[0]| && !IsSpace(ls[0][i]);
      assert t[0][i + 1] == ls[0][i];
    }
  }

  lemma CountEmptyFront(ls: seq<string>)
    ensures CountText([""] + ls) == CountText(ls)
  {
  }

  lemma {:induction false} TextCounts(s: string)
    requires HasText(s)
    ensures TextLines(s) >= 1
  {
    var i :| 0 <= i < |s| && !IsSpace(s[i]);
    if s[0] == '\r' && |s| > 1 && s[1] == '\n' {
      assert s[2..][i - 2] == s[i];
      TextCounts(s[2..]);
      CountEmptyFront(Lines(s[2..]));
    } else if IsBreak(s[0]) {
      assert s[1..][i - 1] == s[i];
      TextCounts(s[1..]);
      CountEmptyFront(Lines(s[1..]));
    } else {
      CountFront(s[0], Lines(s[1..]));
      if IsSpace(s[0]) {
        assert s[1..][i - 1] == s[i];
        TextCounts(s[1..]);
      }
    }
  }

  /** The first line of `x + break` is made of characters of x. */
  lemma {:induction false} FirstLineWithin(x: string, c: char, y: string)
    requires IsBreak(c) && !HasText(x)
    ensures !HasText(Lines(x + [c] + y)[0])
  {
    var s := x + [c] + y;
    if x != [] && !IsBreak(x[0]) {
      assert s[1..] == x[1..] + [c] + y;
      forall i | 0 <= i < |x[1..]| ensures IsSpace(x[1..][i]) { assert x[1..][i] == x[i + 1]; }
      FirstLineWithin(x[1..], c, y);
      assert s[0] == x[0] && IsSpace(x[0]);
    }
  }

  function Bit(b: bool): nat { if b then 1 else 0 }

  /** Text on both sides of a break makes two lines of text. */
  lemma {:induction false} CountAroundBreak(x: string, c: char, y: string)
    requires IsBreak(c)
    ensures TextLines(x + [c] + y) >= Bit(HasText(x)) + Bit(HasText(y))
    decreases |x|
  {
    var s := x + [c] + y;
    if x == [] {
      AfterBreak(c, y);
      assert s == [c] + y;
    } else if x[0] == '\r' && (if |x| > 1 then x[1] else c) == '\n' {
      CountEmptyFront(Lines(s[2..]));
      if |x| == 1 {
        assert s[2..] == y;
        if HasText(y) { TextCounts(y); }
      } else {
        assert s[2..] == x[2..] + [c] + y;
        TextBehind(x, 2);
        CountAroundBreak(x[2..], c, y);
      }
    } else if IsBreak(x[0]) {
      CountEmptyFront(Lines(s[1..]));
      assert s[1..] == x[1..] + [c] + y;
      TextBehind(x, 1);
      CountAroundBreak(x[1..], c, y);
    } else {
      assert s[1..] == x[1..] + [c] + y;
      CountFront(s[0], Lines(s[1..]));
      CountAroundBreak(x[1..], c, y);
      if !HasText(x[1..]) { FirstLineWithin(x[1..], c, y); }
      if IsSpace(x[0]) { TextBehind(x, 1); }
    }
  }

  lemma TextBehind(x: string, n: nat)
    requires n <= |x| && forall i :: 0 <= i < n ==> IsSpace(x[i])
    ensures HasText(x) <==> HasText(x[n..])
  {
  }

  lemma AfterBreak(c: char, y: string)
    requires IsBreak(c)
    ensures TextLines([c] + y) >= Bit(HasText(y))
  {
    var s := [c] + y;
    if HasText(y) {
      if c == '\r' && y[0] == '\n' {
        TextBehind(y, 1);
        assert s[2..] == y[1..];
        TextCounts(y[1..]);
        CountEmptyFront(Lines(s[2..]));
      } else {
        assert s[1..] == y;
        TextCounts(y);
        CountEmptyFront(Lines(s[1..]));
      }
    }
  }

  lemma BreakInside(s: string, i: nat, b: nat, j: nat)
    requires i < b < j < |s| && !IsSpace(s[i]) && !IsSpace(s[j]) && IsBreak(s[b])
    ensures TextLines(s) >= 2
  {
    var x, y := s[..b], s[b + 1..];
    assert s == x + [s[b]] + y;
    assert x[i] == s[i] && y[j - b - 1] == s[j];
    CountAroundBreak(x, s[b], y);
  }

  lemma PieceHasNoBreak(pre: string, s: string, post: string)
    ensures !HasBreak(pre + s + post) ==> !HasBreak(s)
  {
    var all := pre + s + post;
    if HasBreak(s) {
      var k :| 0 <= k < |s| && IsBreak(s[k]);
      assert all[|pre| + k] == s[k];
    }
  }

  /** Input with at most one line of text has no break left once it is trimmed. */
  lemma TrimmedHasNoBreak(s: string)
    requires TextLines(s) <= 1
    ensures !HasBreak(Trim(s))
  {
    var pre, post := TrimSplits(s);
    var t := Trim(s);
    if HasBreak(t) {
      var k :| 0 <= k < |t| && IsBreak(t[k]);
      BreakBetween(pre, t, post, k);
    }
  }

  lemma BreakBetween(pre: string, t: string, post: string, k: nat)
    requires k < |t| && IsTrim(t) && IsBreak(t[k])
    ensures TextLines(pre + t + post) >= 2
  {
    var s := pre + t + post;
    var n := |pre|;
    assert s[n] == t[0] && s[n + k] == t[k] && s[n + |t| - 1] == t[|t| - 1];
    assert IsSpace(t[k]);
    BreakInside(s, n, n + k, n + |t| - 1);
  }
}
