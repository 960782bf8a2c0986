/** Parsing a bridge line again, alone and out of a torrc file. */
module BridgeTheorems {
  import opened Wrappers
  import opened BridgeText
  import opened BridgeLine
  import opened Text

  // ----- Tokens behind the first --------------------------------------------------------------

  lemma {:induction false} TrimStartInFront(w: string, more: string)
    requires TrimStart(w) != []
    ensures TrimStart(w + more) == TrimStart(w) + more
  {
    if IsSpace(w[0]) {
      assert (w + more)[1..] == w[1..] + more;
      TrimStartInFront(w[1..], more);
    }
  }

  lemma LastStays(s: string)
    ensures TrimStart(s) != [] ==> TrimStart(s)[|TrimStart(s)| - 1] == s[|s| - 1]
  {
  }

  /** Without white space at its end a text is only trimmed at its start. */
  lemma TrimOfWords(w: string, more: string)
    requires TrimStart(w) != [] && !IsSpace((w + more)[|w + more| - 1])
    ensures Trim(w + more) == TrimStart(w) + more
  {
    TrimStartInFront(w, more);
    LastStays(w + more);
  }

  lemma TrimStartOfWord(w: string)
    requires NoBlank(w)
    ensures NoBlank(TrimStart(w))
    ensures Trim(w) != [] ==> TrimStart(w) != [] && TrimStart(w)[0] == Trim(w)[0]
  {
    var pre := TrimStartSplits(w);
    var t := TrimStart(w);
    forall i | 0 <= i < |t| ensures !IsBlank(t[i]) { assert t[i] == w[|pre| + i]; }
    var post := TrimEndSplits(t);
  }

  lemma SameEnd(clean: string, w: string, tail: string, blanks: string, u: string)
    requires clean == w + tail && tail == blanks + u && u != []
    ensures u[|u| - 1] == clean[|clean| - 1]
  {
  }

  /** A line of two or more tokens: the first, the second, and what follows. */
  lemma SecondToken(clean: string) returns (second: string, more: string)
    requires IsTrim(clean) && |Tokens(clean)| >= 2
    ensures Tokens(clean) == [Word(clean)] + ([second] + Tokens(more))
    ensures second != [] && NoBlank(second) && (more != [] ==> IsBlank(more[0]))
    ensures !IsSpace((second + more)[|second + more| - 1])
    ensures LineWithoutFirstToken(clean) == Trim(second + more)
  {
    WordSplits(clean);
    var tail := BehindWord(clean);
    assert SkipBlanks(clean) == clean;
    var blanks := SkipSplits(tail);
    var u := SkipBlanks(tail);
    assert u != [];
    SameEnd(clean, Word(clean), tail, blanks, u);
    WordSplits(u);
    second, more := Word(u), BehindWord(u);
  }

  /** Dropping the first token keeps the others, but for Unicode space in front of the second. */
  lemma TokensBehindFirst(clean: string)
    requires IsTrim(clean) && |Tokens(clean)| >= 2 && Trim(Tokens(clean)[1]) != []
    ensures Tokens(LineWithoutFirstToken(clean)) == [TrimStart(Tokens(clean)[1])] + Tokens(clean)[2..]
    ensures LineWithoutFirstToken(clean) != []
    ensures LineWithoutFirstToken(clean)[0] == Trim(Tokens(clean)[1])[0]
  {
    var second, more := SecondToken(clean);
    SplitTokens(Tokens(clean), Word(clean), second, Tokens(more));
    TrimStartOfWord(second);
    TrimOfWords(second, more);
    TokensInFront(TrimStart(second), more);
  }

  lemma SplitTokens(tokens: seq<string>, first: string, second: string, rest: seq<string>)
    requires tokens == [first] + ([second] + rest)
    ensures tokens[1] == second && tokens[2..] == rest
  {
  }

  // ----- The line of a profile ----------------------------------------------------------------

  lemma NoBreakInTail(front: string, s: string)
    requires !HasBreak(front + s)
    ensures !HasBreak(s)
  {
    PieceHasNoBreak(front, s, "");
    assert front + s + "" == front + s;
  }

  lemma NoBreakBehind(front: string, s: string)
    requires !HasBreak(front + s)
    ensures !HasBreak(Trim(SkipBlanks(s))) && IsTrim(Trim(SkipBlanks(s)))
  {
    var blanks := SkipSplits(s);
    var pre, post := TrimSplits(SkipBlanks(s));
    NoBreakInTail(front, s);
    NoBreakInTail(blanks, SkipBlanks(s));
    PieceHasNoBreak(pre, Trim(SkipBlanks(s)), post);
  }

  lemma StrippedIsTrim(line: string)
    requires TextLines(line) <= 1
    ensures IsTrim(StripBridgePrefix(line)) && !HasBreak(StripBridgePrefix(line))
  {
    var clean := Trim(line);
    TrimmedHasNoBreak(line);
    var pre, post := TrimSplits(line);
    if StartsWithBridge(clean) {
      assert clean == clean[..6] + clean[6..];
      NoBreakBehind(clean[..6], clean[6..]);
    }
  }

  lemma RestIsTrim(clean: string)
    requires !HasBreak(clean) && IsTrim(clean)
    ensures IsTrim(LineWithoutFirstToken(clean)) && !HasBreak(LineWithoutFirstToken(clean))
  {
    WordSplits(clean);
    NoBreakBehind(Word(clean), BehindWord(clean));
    TrimOfTrim(clean);
  }

  /** A stored line is a single one without surrounding white space. */
  lemma LineIsOneLine(h: Host, line: string)
    requires Parse(h, line).Ok?
    ensures var stored := Parse(h, line).value.line; !HasBreak(stored) && IsTrim(stored)
  {
    StrippedIsTrim(line);
    RestIsTrim(StripBridgePrefix(line));
  }

  // ----- Addresses again ----------------------------------------------------------------------

  lemma SplitIgnoresOuterSpace(a: string)
    ensures SplitAddress(TrimStart(a)) == SplitAddress(a)
  {
  }

  lemma FirstOfTrim(s: string)
    requires s != [] && !IsSpace(s[0])
    ensures Trim(s) != [] && Trim(s)[0] == s[0]
  {
    assert TrimStart(s) == s;
    var post := TrimEndSplits(s);
    assert Trim(s) == [] ==> s == post;
  }

  /** A valid host does not begin with a hash, so neither does its address. */
  lemma AddressIsNoComment(h: Host, a: string)
    requires SplitAddress(a).Ok? && ValidHost(h, SplitAddress(a).value.0)
    ensures Trim(a) != [] && Trim(a)[0] != '#'
  {
    var clean := Trim(a);
    var pre, post := TrimSplits(a);
    if clean[0] != '[' {
      var host := SplitAddress(a).value.0;
      assert host[0] == clean[0];
      FirstOfTrim(host);
      HostStart(h, host);
    }
  }

  lemma HostStart(h: Host, host: string)
    requires ValidHost(h, host)
    ensures Trim(host)[0] != '#'
  {
  }

  // ----- Transports ---------------------------------------------------------------------------

  predicate IsLowerAscii(s: string) {
    forall i :: 0 <= i < |s| ==> 'a' <= s[i] <= 'z' || IsDigit(s[i]) || s[i] == '-'
  }

  lemma KnownIsPlain(key: string)
    requires key in KNOWN
    ensures IsLowerAscii(key) && IsTrim(key)
  {
    if key == "webtunnel" || key == "snowflake" {
    } else if key == "meek" || key == "meek-lite" {
    } else {
    }
  }

  lemma LowerOfPlain(h: Host, s: string)
    requires Sane(h) && IsLowerAscii(s)
    ensures h.lower(s) == s
  {
  }

  lemma KnownIsCanonical(key: string)
    requires key in KNOWN
    ensures Canonical(key) == key
  {
  }

  lemma KeyOfKnown(h: Host, key: string)
    requires Sane(h) && key in KNOWN
    ensures TransportKey(h, key) == key
  {
    KnownIsPlain(key);
    KnownIsCanonical(key);
    TrimOfTrim(key);
    LowerOfPlain(h, key);
  }

  lemma TrimTwice(s: string)
    ensures Trim(Trim(s)) == Trim(s)
  {
    var pre, post := TrimSplits(s);
    TrimOfTrim(Trim(s));
  }

  /** Only a token that means vanilla is stored as such. */
  lemma VanillaIsNormal(h: Host, token: string)
    requires Sane(h)
    ensures var t := NormalizeTransport(h, token); TransportKey(h, t) == "vanilla" ==> t == "vanilla"
  {
    TrimTwice(token);
    var key := TransportKey(h, Trim(token));
    if key in KNOWN { KeyOfKnown(h, key); }
  }

  // ----- Parsing a stored line again ----------------------------------------------------------

  ghost predicate SameBridge(p: Profile, q: Profile) {
    p.transport == q.transport && p.line == q.line && p.facts == q.facts
  }

  /** The facts depend on the address token through host and port only. */
  lemma FactsBySplit(h: Host, transport: string, a: string, b: string, rest: seq<string>)
    requires SplitAddress(a) == SplitAddress(b)
    ensures ParseFacts(h, transport, a, rest) == ParseFacts(h, transport, b, rest)
  {
  }

  lemma FactsNeedHost(h: Host, transport: string, a: string, rest: seq<string>)
    requires ParseFacts(h, transport, a, rest).Ok?
    ensures SplitAddress(a).Ok? && ValidHost(h, SplitAddress(a).value.0)
  {
  }

  ghost predicate KeptOrDropped(s: Shape, clean: string, parts: seq<string>) {
    || s.line == clean
    || (|parts| >= 2 && s == Shape("vanilla", LineWithoutFirstToken(clean), parts[1], parts[2..]))
  }

  lemma ShapeFromCases(h: Host, isAddress: bool, transport: string, clean: string, parts: seq<string>)
    requires parts != [] && ShapeFrom(h, isAddress, transport, clean, parts).Ok?
    requires TransportKey(h, transport) == "vanilla" ==> transport == "vanilla"
    ensures KeptOrDropped(ShapeFrom(h, isAddress, transport, clean, parts).value, clean, parts)
  {
  }

  /** Either the line is kept, or a token meaning vanilla was dropped in front of the address. */
  lemma ShapeCases(h: Host, clean: string, parts: seq<string>)
    requires Sane(h) && ShapeOf(h, clean, parts).Ok?
    ensures KeptOrDropped(ShapeOf(h, clean, parts).value, clean, parts)
  {
    VanillaIsNormal(h, parts[0]);
    ShapeFromCases(h, SplitAddress(parts[0]).Ok?, NormalizeTransport(h, parts[0]), clean, parts);
  }

  lemma BehindDroppedToken(h: Host, clean: string, parts: seq<string>)
    requires IsTrim(clean) && parts == Tokens(clean) && |parts| >= 2
    requires SplitAddress(parts[1]).Ok? && ValidHost(h, SplitAddress(parts[1]).value.0)
    ensures var rest := LineWithoutFirstToken(clean);
            rest != "" && rest[0] != '#' && Tokens(rest) == [TrimStart(parts[1])] + parts[2..]
    ensures SplitAddress(TrimStart(parts[1])) == SplitAddress(parts[1])
  {
    AddressIsNoComment(h, parts[1]);
    TokensBehindFirst(clean);
    SplitIgnoresOuterSpace(parts[1]);
  }

  lemma AddressFirst(h: Host, line: string, address: string, rest: seq<string>)
    requires SplitAddress(address).Ok?
    ensures ShapeOf(h, line, [address] + rest) == Ok(Shape("vanilla", line, address, rest))
  {
  }

  ghost predicate ReadsAgain(h: Host, p: Profile) {
    && p.line != "" && p.line[0] != '#'
    && ParseTokens(h, p.line, Tokens(p.line)).Ok?
    && SameBridge(p, ParseTokens(h, p.line, Tokens(p.line)).value)
  }

  lemma DroppedLineAgain(h: Host, clean: string, s: Shape, f: Facts)
    requires IsTrim(clean) && |Tokens(clean)| >= 2
    requires s == Shape("vanilla", LineWithoutFirstToken(clean), Tokens(clean)[1], Tokens(clean)[2..])
    requires ParseFacts(h, s.transport, s.address, s.rest) == Ok(f)
    ensures ReadsAgain(h, Profile("vanilla", clean, s.line, s.address, f))
  {
    FactsNeedHost(h, s.transport, s.address, s.rest);
    BehindDroppedToken(h, clean, Tokens(clean));
    AddressFirst(h, s.line, TrimStart(s.address), s.rest);
    FactsBySplit(h, "vanilla", TrimStart(s.address), s.address, s.rest);
  }

  lemma KeptLineAgain(h: Host, clean: string)
    requires clean != "" && clean[0] != '#' && ParseTokens(h, clean, Tokens(clean)).Ok?
    requires ParseTokens(h, clean, Tokens(clean)).value.line == clean
    ensures ReadsAgain(h, ParseTokens(h, clean, Tokens(clean)).value)
  {
  }

  lemma ProfileOf(h: Host, clean: string, parts: seq<string>) returns (s: Shape, f: Facts)
    requires ParseTokens(h, clean, parts).Ok?
    ensures ShapeOf(h, clean, parts) == Ok(s) && ParseFacts(h, s.transport, s.address, s.rest) == Ok(f)
    ensures ParseTokens(h, clean, parts).value == Profile(s.transport, clean, s.line, s.address, f)
  {
    s := ShapeOf(h, clean, parts).value;
    f := ParseFacts(h, s.transport, s.address, s.rest).value;
  }

  /** A stored line, with whatever prefix taken off, yields the same bridge again. */
  lemma StoredLineAgain(h: Host, clean: string)
    requires Sane(h) && IsTrim(clean) && clean != "" && clean[0] != '#'
    requires ParseTokens(h, clean, Tokens(clean)).Ok?
    ensures ReadsAgain(h, ParseTokens(h, clean, Tokens(clean)).value)
  {
    var s, f := ProfileOf(h, clean, Tokens(clean));
    ShapeCases(h, clean, Tokens(clean));
    if s.line == clean { KeptLineAgain(h, clean); } else { DroppedLineAgain(h, clean, s, f); }
  }

  lemma ParsedReadsAgain(h: Host, line: string)
    requires Sane(h) && Parse(h, line).Ok?
    ensures ReadsAgain(h, Parse(h, line).value)
  {
    StrippedIsTrim(line);
    StoredLineAgain(h, StripBridgePrefix(line));
  }

  // ----- When the stored line means the same --------------------------------------------------

  lemma BridgeWordFirst(line: string)
    requires StartsWithBridge(line)
    ensures Word(line) == line[..6] && BehindWord(line) == line[6..] && NoBlank(line[..6])
  {
    var w := line[..6];
    forall i | 0 <= i < 6 ensures !IsBlank(w[i]) { assert LowerChar(w[i]) == Lower(w)[i] == "bridge"[i]; }
    WordInFront(w, line[6..]);
    assert w + line[6..] == line;
  }

  lemma BridgeWordLetters(w: string)
    requires IsBridgeWord(w)
    ensures |w| == 6 && AllLetters(w)
  {
    assert |Lower(w)| == 6;
    forall i | 0 <= i < 6 ensures IsLetter(w[i]) { assert LowerChar(w[i]) == Lower(w)[i] == "bridge"[i]; }
  }

  predicate AllLetters(w: string) {
    forall i :: 0 <= i < |w| ==> IsLetter(w[i])
  }

  lemma LettersAreTrim(w: string)
    requires AllLetters(w)
    ensures Trim(w) == w
  {
  }

  lemma LettersAreNoAddress(w: string)
    requires w != "" && AllLetters(w) && Trim(w) == w
    ensures SplitAddress(w).Err?
  {
  }

  lemma LowerOfBridgeWord(h: Host, w: string)
    requires Sane(h) && IsBridgeWord(w)
    ensures h.lower(w) == "bridge"
  {
    BridgeWordLetters(w);
  }

  lemma BridgeIsUnknown(h: Host, w: string)
    requires Trim(w) == w && h.lower(w) == "bridge"
    ensures TransportKey(h, w) !in KNOWN
  {
  }

  lemma UnknownToken(h: Host, t: string)
    requires Trim(t) == t && TransportKey(h, t) !in KNOWN && IsTransportToken(t)
    ensures NormalizeTransport(h, t) == t
  {
  }

  /** The word is taken for a transport of its own, never for vanilla. */
  lemma BridgeWordTransport(h: Host, w: string)
    requires Sane(h) && IsBridgeWord(w)
    ensures SplitAddress(w).Err? && |NormalizeTransport(h, w)| == 6
  {
    LowerOfBridgeWord(h, w);
    BridgeWordLetters(w);
    WordOfLetters(h, w);
  }

  lemma WordOfLetters(h: Host, w: string)
    requires |w| == 6 && AllLetters(w) && h.lower(w) == "bridge"
    ensures SplitAddress(w).Err? && NormalizeTransport(h, w) == w
  {
    LettersAreTrim(w);
    LettersAreNoAddress(w);
    BridgeIsUnknown(h, w);
    UnknownToken(h, w);
  }

  lemma FirstToken(line: string)
    requires line != "" && IsTrim(line)
    ensures Tokens(line) != [] && Tokens(line)[0] == Word(line)
  {
  }

  lemma NoAddressNoVanilla(h: Host, line: string, parts: seq<string>)
    requires parts != [] && SplitAddress(parts[0]).Err? && |NormalizeTransport(h, parts[0])| == 6
    requires ParseTokens(h, line, parts).Ok?
    ensures |ParseTokens(h, line, parts).value.transport| == 6
    ensures |parts| >= 2 && SplitAddress(parts[1]).Ok? && ValidHost(h, SplitAddress(parts[1]).value.0)
  {
  }

  lemma AddressMeansVanilla(h: Host, line: string, parts: seq<string>)
    requires parts != [] && SplitAddress(parts[0]).Ok?
    ensures ParseTokens(h, line, parts).Ok? ==> ParseTokens(h, line, parts).value.transport == "vanilla"
  {
  }

  /** What `parseLine` makes of a line depends on its stripped form. */
  lemma ParseByStripped(h: Host, line: string, clean: string)
    requires TextLines(line) <= 1 && StripBridgePrefix(line) == clean && clean != "" && clean[0] != '#'
    ensures Parse(h, line) == ParseTokens(h, clean, Tokens(clean))
  {
  }

  lemma StripIsDrop(line: string)
    requires IsTrim(line) && StartsWithBridge(line)
    ensures StripBridgePrefix(line) == LineWithoutFirstToken(line)
    ensures line != "" && Tokens(line) != [] && IsBridgeWord(Tokens(line)[0])
  {
    TrimOfTrim(line);
    FirstToken(line);
    BridgeWordFirst(line);
  }

  /** With the word in front, what is parsed again starts at the address. */
  lemma BridgeWordIsEaten(h: Host, line: string)
    requires Sane(h) && !HasBreak(line) && IsTrim(line) && StartsWithBridge(line)
    requires ParseTokens(h, line, Tokens(line)).Ok?
    ensures |ParseTokens(h, line, Tokens(line)).value.transport| == 6
    ensures Parse(h, line).Ok? ==> Parse(h, line).value.transport == "vanilla"
  {
    var parts := Tokens(line);
    StripIsDrop(line);
    BridgeWordTransport(h, parts[0]);
    NoAddressNoVanilla(h, line, parts);
    BehindDroppedToken(h, line, parts);
    OneLine(line);
    ParseByStripped(h, line, LineWithoutFirstToken(line));
    AddressMeansVanilla(h, LineWithoutFirstToken(line), [TrimStart(parts[1])] + parts[2..]);
  }

  lemma PlainLineParses(h: Host, line: string)
    requires !HasBreak(line) && IsTrim(line) && !StartsWithBridge(line) && line != "" && line[0] != '#'
    ensures Parse(h, line) == ParseTokens(h, line, Tokens(line))
  {
    OneLine(line);
    TrimOfTrim(line);
    ParseByStripped(h, line, line);
  }

  /** An accepted line, stored and parsed again, gives the same transport, host, port, fingerprint and
      options exactly when its first token is not the word `Bridge`. */
  lemma ReparseIff(h: Host, line: string)
    requires Sane(h) && Parse(h, line).Ok?
    ensures var p := Parse(h, line).value;
            (Parse(h, p.line).Ok? && SameBridge(p, Parse(h, p.line).value)) <==> !StartsWithBridge(p.line)
  {
    var p := Parse(h, line).value;
    ParsedReadsAgain(h, line);
    LineIsOneLine(h, line);
    if StartsWithBridge(p.line) {
      BridgeWordIsEaten(h, p.line);
    } else {
      PlainLineParses(h, p.line);
    }
  }

  // ----- The torrc file -----------------------------------------------------------------------

  const BRIDGE := "Bridge "

  lemma PrefixIsStripped(line: string)
    requires IsTrim(line) && line != ""
    ensures StripBridgePrefix(BRIDGE + line) == line
  {
    var s := BRIDGE + line;
    assert s[|s| - 1] == line[|line| - 1];
    TrimOfTrim(s);
    assert s[..6] == "Bridge" && Lower("Bridge") == "bridge";
    assert s[6..] == " " + line && (" " + line)[1..] == line;
    assert SkipBlanks(line) == line;
    TrimOfTrim(line);
  }

  lemma PrefixedIsOneLine(line: string)
    requires !HasBreak(line)
    ensures TextLines(BRIDGE + line) <= 1
  {
    var s := BRIDGE + line;
    forall i | 0 <= i < |s| ensures !IsBreak(s[i]) {
      if i >= 7 { assert s[i] == line[i - 7]; }
    }
    OneLine(s);
  }

  lemma ExampleTokens()
    ensures Tokens("Bridge a:1") == ["Bridge", "a:1"]
  {
    ExampleAddress();
    TokensInFront("Bridge", " a:1");
    assert "Bridge" + " a:1" == "Bridge a:1";
  }

  lemma ExampleAddress()
    ensures Tokens(" a:1") == ["a:1"]
  {
    assert " a:1"[1..] == "a:1" && SkipBlanks(" a:1") == SkipBlanks("a:1") == "a:1";
    TokensInFront("a:1", "");
    assert "a:1" + "" == "a:1";
    assert Tokens(" a:1") == Tokens("a:1");
  }

  lemma ExampleSplit(a: string)
    requires a == "a:1"
    ensures SplitAddress(a) == Ok(("a", "1"))
  {
    TrimOfTrim(a);
    assert LastIndexOf(a, ':') == 1 && a[..1] == "a" && a[2..] == "1";
  }

  lemma ExampleHost(h: Host, host: string)
    requires host == "a"
    ensures ValidHost(h, host)
  {
  }

  lemma ExampleFacts(h: Host, transport: string)
    requires h.toInt("1") == Some(1) && TransportKey(h, transport) == "bridge"
    ensures ParseFacts(h, transport, "a:1", []) == Ok(Facts("a", "1", "", NO_OPTIONS))
  {
    ExampleSplit("a:1");
    ExampleHost(h, "a");
  }

  lemma ShapeOfUnknown(h: Host, clean: string, first: string, second: string)
    requires SplitAddress(first).Err? && NormalizeTransport(h, first) == first && first != ""
    requires TransportKey(h, first) == "bridge"
    ensures ShapeOf(h, clean, [first, second]) == Ok(Shape(first, clean, second, []))
  {
    assert [first, second][2..] == [];
  }

  lemma LettersOfBridge(w: string)
    requires w == "Bridge"
    ensures IsBridgeWord(w) && |w| == 6 && AllLetters(w)
  {
  }

  lemma ExampleWord(h: Host, w: string)
    requires Sane(h) && w == "Bridge"
    ensures SplitAddress(w).Err? && NormalizeTransport(h, w) == w && TransportKey(h, w) == "bridge"
  {
    LettersOfBridge(w);
    LowerOfBridgeWord(h, w);
    WordAsTransport(h, w);
  }

  lemma WordAsTransport(h: Host, w: string)
    requires |w| == 6 && AllLetters(w) && h.lower(w) == "bridge"
    ensures SplitAddress(w).Err? && NormalizeTransport(h, w) == w && TransportKey(h, w) == "bridge"
  {
    WordOfLetters(h, w);
    LettersAreTrim(w);
    KeyOfBridgeWord(h, w);
  }

  lemma KeyOfBridgeWord(h: Host, w: string)
    requires Trim(w) == w && h.lower(w) == "bridge"
    ensures TransportKey(h, w) == "bridge"
  {
  }

  lemma FromShape(h: Host, clean: string, parts: seq<string>, s: Shape, f: Facts)
    requires ShapeOf(h, clean, parts) == Ok(s) && ParseFacts(h, s.transport, s.address, s.rest) == Ok(f)
    ensures ParseTokens(h, clean, parts) == Ok(Profile(s.transport, clean, s.line, s.address, f))
  {
  }

  lemma ExampleLine(line: string)
    requires line == "Bridge a:1"
    ensures IsTrim(line) && !HasBreak(line) && StartsWithBridge(line)
  {
  }

  /** An accepted line that does not: stored as `Bridge a:1`, it would be read as a vanilla bridge. */
  lemma BridgeTokenIsLost(h: Host, line: string)
    requires Sane(h) && h.toInt("1") == Some(1) && line == "Bridge a:1"
    ensures Parse(h, BRIDGE + line)
            == Ok(Profile("Bridge", line, line, "a:1", Facts("a", "1", "", NO_OPTIONS)))
    ensures StartsWithBridge(line)
  {
    ExampleLine(line);
    PrefixIsStripped(line);
    PrefixedIsOneLine(line);
    ParseByStripped(h, BRIDGE + line, line);
    ExampleTokens();
    ExampleWord(h, "Bridge");
    ShapeOfUnknown(h, line, "Bridge", "a:1");
    ExampleFacts(h, "Bridge");
    FromShape(h, line, ["Bridge", "a:1"], Shape("Bridge", line, "a:1", []), Facts("a", "1", "", NO_OPTIONS));
  }

  /** Behind its keyword a stored line is read as the same bridge, whatever its transport. */
  lemma PrefixedAgain(h: Host, line: string)
    requires Sane(h) && Parse(h, line).Ok?
    ensures var p := Parse(h, line).value;
            Parse(h, BRIDGE + p.line).Ok? && SameBridge(p, Parse(h, BRIDGE + p.line).value)
  {
    var p := Parse(h, line).value;
    ParsedReadsAgain(h, line);
    LineIsOneLine(h, line);
    PrefixIsStripped(p.line);
    PrefixedIsOneLine(p.line);
    ParseByStripped(h, BRIDGE + p.line, p.line);
  }
}
