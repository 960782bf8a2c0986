/** The language of bridge lines, told without the parser: characters by their code points, pieces of a
    text by what they are put together to. */
module BridgeGrammar {
  import opened Text
  import opened BridgeText
  import opened BridgeLine

  // ----- Characters ---------------------------------------------------------------------------

  predicate Digit(c: char) { 48 <= c as int <= 57 }
  predicate Letter(c: char) { 65 <= c as int <= 90 || 97 <= c as int <= 122 }
  predicate Hexadecimal(c: char) { Digit(c) || 65 <= c as int <= 70 || 97 <= c as int <= 102 }

  /** Space, tab, line feed, vertical tab, form feed, carriage return. */
  predicate Blank(c: char) { c as int == 32 || 9 <= c as int <= 13 }

  const WIDE_SPACES: set<int> := {0x85, 0xa0, 0x1680, 0x2028, 0x2029, 0x202f, 0x205f, 0x3000}

  predicate Space(c: char) { Blank(c) || c as int in WIDE_SPACES || 0x2000 <= c as int <= 0x200a }

  lemma CharactersAgree(c: char)
    ensures IsDigit(c) == Digit(c) && IsLetter(c) == Letter(c) && IsHexDigit(c) == Hexadecimal(c)
    ensures IsBlank(c) == Blank(c) && IsSpace(c) == Space(c)
    ensures IsAlnum(c) == (Letter(c) || Digit(c))
  {
  }

  // ----- Trimmed texts, tokens and lines ------------------------------------------------------

  /** `t` is `s` without the white space around it. */
  ghost predicate Trims(s: string, t: string) {
    && (exists front, back :: s == front + t + back && (forall c :: c in front + back ==> Space(c)))
    && (t != "" ==> !Space(t[0]) && !Space(t[|t| - 1]))
  }

  lemma TrimTrims(s: string)
    ensures Trims(s, Trim(s))
  {
    var front, back := TrimSplits(s);
    forall c | c in front + back ensures Space(c) {
      CharactersAgree(c);
      assert c in front || c in back;
    }
    if Trim(s) != "" {
      CharactersAgree(Trim(s)[0]);
      CharactersAgree(Trim(s)[|Trim(s)| - 1]);
    }
  }

  /** The tokens of a text are its longest pieces without blanks, in order. */
  ghost predicate Cuts(s: string, tokens: seq<string>)
    decreases |tokens|
  {
    if tokens == [] then forall c :: c in s ==> Blank(c)
    else exists gap, rest :: CutsFirst(s, gap, tokens[0], rest) && Cuts(rest, tokens[1..])
  }

  predicate CutsFirst(s: string, gap: string, token: string, rest: string) {
    && s == gap + token + rest && (forall c :: c in gap ==> Blank(c))
    && token != "" && (forall c :: c in token ==> !Blank(c)) && (rest != "" ==> Blank(rest[0]))
  }

  lemma {:induction false} SkipsBlanks(s: string) returns (gap: string)
    ensures s == gap + SkipBlanks(s) && forall c :: c in gap ==> Blank(c)
  {
    if s != "" && IsBlank(s[0]) {
      var g := SkipsBlanks(s[1..]);
      gap := [s[0]] + g;
      CharactersAgree(s[0]);
    } else {
      gap := "";
    }
  }

  lemma {:induction false} TokensCut(s: string)
    ensures Cuts(s, Tokens(s))
    decreases |s|
  {
    var gap := SkipsBlanks(s);
    var t := SkipBlanks(s);
    if t != "" {
      var w, rest := Word(t), BehindWord(t);
      WordSplits(t);
      TokensCut(rest);
      CharactersAgree(t[0]);
      forall c | c in w ensures !Blank(c) { CharactersAgree(c); }
      if rest != "" { CharactersAgree(rest[0]); }
      assert s == gap + w + rest;
      assert CutsFirst(s, gap, w, rest);
      assert Tokens(s) == [w] + Tokens(rest);
      assert CutsFirst(s, gap, Tokens(s)[0], rest) && Cuts(rest, Tokens(s)[1..]);
    } else {
      assert s == gap;
    }
  }

  /** Text, a line break, and text again. */
  ghost predicate SeveralLines(s: string) {
    exists i, b, j :: Around(s, i, b, j)
  }

  predicate Around(s: string, i: nat, b: nat, j: nat) {
    i < b < j < |s| && !Space(s[i]) && s[b] as int in {10, 13} && !Space(s[j])
  }

  lemma {:induction false} TextInLines(s: string)
    requires TextLines(s) >= 1
    ensures HasText(s)
  {
    if s == "" {
      assert false;
    } else if s[0] == '\r' && |s| > 1 && s[1] == '\n' {
      CountEmptyFront(Lines(s[2..]));
      TextInLines(s[2..]);
    } else if IsBreak(s[0]) {
      CountEmptyFront(Lines(s[1..]));
      TextInLines(s[1..]);
    } else {
      var rest := Lines(s[1..]);
      assert Lines(s)[1..] == rest[1..];
      if IsSpace(s[0]) {
        if HasText(Lines(s)[0]) { assert HasText(rest[0]); }
        TextInLines(s[1..]);
      }
    }
  }

  /** Text in a later line stands behind a break. */
  lemma {:induction false} TextBehindBreak(s: string) returns (b: nat, j: nat)
    requires CountText(Lines(s)[1..]) >= 1
    ensures b < j < |s| && IsBreak(s[b]) && !IsSpace(s[j])
  {
    if s == "" {
      assert false;
    } else if IsBreak(s[0]) {
      var skipped: nat := if s[0] == '\r' && |s| > 1 && s[1] == '\n' then 2 else 1;
      assert Lines(s)[1..] == Lines(s[skipped..]);
      TextInLines(s[skipped..]);
      var k :| 0 <= k < |s[skipped..]| && !IsSpace(s[skipped..][k]);
      b, j := 0, k + skipped;
    } else {
      assert Lines(s)[1..] == Lines(s[1..])[1..];
      b, j := TextBehindBreak(s[1..]);
      b, j := b + 1, j + 1;
    }
  }

  lemma {:induction false} TwoLinesApart(s: string) returns (i: nat, b: nat, j: nat)
    requires TextLines(s) >= 2
    ensures i < b < j < |s| && !IsSpace(s[i]) && IsBreak(s[b]) && !IsSpace(s[j])
  {
    if s == "" {
      assert false;
    } else if IsBreak(s[0]) {
      var skipped: nat := if s[0] == '\r' && |s| > 1 && s[1] == '\n' then 2 else 1;
      assert Lines(s) == [""] + Lines(s[skipped..]);
      CountEmptyFront(Lines(s[skipped..]));
      i, b, j := TwoLinesApart(s[skipped..]);
      i, b, j := i + skipped, b + skipped, j + skipped;
    } else {
      var rest := Lines(s[1..]);
      assert Lines(s)[0] == [s[0]] + rest[0] && Lines(s)[1..] == rest[1..];
      if CountText(rest) >= 2 {
        i, b, j := TwoLinesApart(s[1..]);
        i, b, j := i + 1, b + 1, j + 1;
      } else {
        assert HasText(Lines(s)[0]) && CountText(rest[1..]) == 1 && !HasText(rest[0]);
        assert !IsSpace(s[0]);
        b, j := TextBehindBreak(s[1..]);
        i, b, j := 0, b + 1, j + 1;
      }
    }
  }

  /** More than one line with text is text on both sides of a break. */
  lemma SeveralLinesIff(s: string)
    ensures TextLines(s) > 1 <==> SeveralLines(s)
  {
    if TextLines(s) > 1 {
      var i, b, j := TwoLinesApart(s);
      CharactersAgree(s[i]);
      CharactersAgree(s[j]);
      assert Around(s, i, b, j);
    }
    if SeveralLines(s) {
      var i: nat, b: nat, j: nat :| Around(s, i, b, j);
      CharactersAgree(s[i]);
      CharactersAgree(s[j]);
      BreakInside(s, i, b, j);
    }
  }

  // ----- Beginnings of lines ------------------------------------------------------------------

  /** The letters of `l`, each small or capital. */
  predicate InAnyCase(s: string, l: string) {
    |s| == |l| && forall i :: 0 <= i < |l| ==> s[i] as int in {l[i] as int, l[i] as int - 32}
  }

  /** A line that begins with the word Bridge and a blank. */
  ghost predicate BeginsWithBridge(s: string) {
    exists word, rest :: s == word + rest && InAnyCase(word, "bridge") && rest != "" && Blank(rest[0])
  }

  /** What is behind that word and the blanks after it. */
  ghost predicate BehindBridge(s: string, rest: string) {
    exists word, gap ::
      && s == word + gap + rest && InAnyCase(word, "bridge") && gap != ""
      && (forall c :: c in gap ==> Blank(c)) && (rest != "" ==> !Blank(rest[0]))
  }

  lemma BridgeWordIff(w: string)
    ensures |w| == 6 && IsBridgeWord(w) <==> InAnyCase(w, "bridge")
  {
    if InAnyCase(w, "bridge") {
      assert Lower(w) == "bridge";
    }
    if |w| == 6 && IsBridgeWord(w) {
      forall i | 0 <= i < 6 ensures w[i] as int in {"bridge"[i] as int, "bridge"[i] as int - 32} {
        assert Lower(w)[i] == "bridge"[i];
      }
    }
  }

  lemma BridgeStartIff(s: string)
    ensures StartsWithBridge(s) <==> BeginsWithBridge(s)
  {
    if StartsWithBridge(s) {
      BridgeWordIff(s[..6]);
      CharactersAgree(s[6]);
      assert s == s[..6] + s[6..];
    }
    if BeginsWithBridge(s) {
      var word, rest :| s == word + rest && InAnyCase(word, "bridge") && rest != "" && Blank(rest[0]);
      BridgeWordIff(word);
      CharactersAgree(rest[0]);
      assert s[..6] == word && s[6] == rest[0];
    }
  }

  /** The line without white space around it and without the word Bridge in front. */
  ghost predicate Stripped(line: string, clean: string) {
    exists c :: Trims(line, c)
      && if BeginsWithBridge(c) then exists rest :: BehindBridge(c, rest) && Trims(rest, clean) else clean == c
  }

  lemma StripStrips(line: string)
    ensures Stripped(line, StripBridgePrefix(line))
  {
    var c := Trim(line);
    TrimTrims(line);
    BridgeStartIff(c);
    if StartsWithBridge(c) {
      var gap := SkipsBlanks(c[6..]);
      var rest := SkipBlanks(c[6..]);
      BridgeWordIff(c[..6]);
      if rest != "" { CharactersAgree(rest[0]); }
      assert c == c[..6] + gap + rest;
      assert gap != "" by { assert c[6..][0] == c[6]; }
      assert BehindBridge(c, rest);
      TrimTrims(rest);
    }
  }

  /** The line without its first token. */
  ghost predicate WithoutFirst(line: string, t: string) {
    exists token, gap, rest :: FirstAndRest(line, token, gap, rest) && Trims(rest, t)
  }

  predicate FirstAndRest(line: string, token: string, gap: string, rest: string) {
    && line == token + gap + rest && token != "" && gap != "" && (forall c :: c in token ==> !Blank(c))
    && (forall c :: c in gap ==> Blank(c)) && (rest != "" ==> !Blank(rest[0]))
  }

  lemma DropDrops(line: string)
    requires Word(line) != "" && BehindWord(line) != ""
    ensures WithoutFirst(line, LineWithoutFirstToken(line))
  {
    var token := Word(line);
    WordSplits(line);
    var gap := SkipsBlanks(BehindWord(line));
    var rest := SkipBlanks(BehindWord(line));
    forall c | c in token ensures !Blank(c) { CharactersAgree(c); }
    if rest != "" { CharactersAgree(rest[0]); }
    assert line == token + gap + rest;
    assert FirstAndRest(line, token, gap, rest);
    TrimTrims(rest);
  }
}
