/** The reader undoes the canonical printer, exactly on documents whose texts pair no surrogates. */
module CanonicalRoundTrip {
  import opened Wrappers
  import opened Text
  import opened CanonicalJson

  /** No high surrogate is directly followed by a low one: such a pair is the escaped spelling of a
      single character, and readers take it for that. */
  predicate WellPaired(t: Codes) {
    forall i :: 0 <= i < |t| - 1 ==> !(IsHigh(t[i]) && IsLow(t[i + 1]))
  }

  predicate Paired(d: Doc) {
    match d
    case Atom(v) => v.Str? ==> WellPaired(v.text)
    case List(items) => forall i :: 0 <= i < |items| ==> Paired(items[i])
    case Fields(pairs) => forall i :: 0 <= i < |pairs| ==> WellPaired(pairs[i].0) && Paired(pairs[i].1)
  }

  predicate AllSpace(s: Codes) { forall i :: 0 <= i < |s| ==> IsSpace(s[i]) }

  /** Lines end in white space. */
  predicate Blank(l: Layout) {
    l.Indented? ==> AllSpace(l.eol)
  }

  /** What may follow a value inside a printed document. */
  predicate Closes(rest: Codes) {
    rest == [] || IsSpace(rest[0]) || rest[0] == COMMA || rest[0] == RBRACKET || rest[0] == RBRACE
  }

  // ----- Strings ------------------------------------------------------------------------------

  lemma HexRoundTrip(d: int)
    requires 0 <= d < 16
    ensures HexValue(Hex(d)) == Some(d) && Hex(d) >= 48
  {
  }

  lemma FourDigits(u: nat)
    ensures HexDigits(u, 4)
            == [Hex(u / 16 / 16 / 16 % 16), Hex(u / 16 / 16 % 16), Hex(u / 16 % 16), Hex(u % 16)]
  {
    assert HexDigits(u / 16 / 16 / 16, 1) == [Hex(u / 16 / 16 / 16 % 16)];
    assert HexDigits(u / 16 / 16, 2) == [Hex(u / 16 / 16 / 16 % 16), Hex(u / 16 / 16 % 16)];
  }

  lemma UnitRoundTrip(u: int, rest: Codes)
    requires 0 <= u < 0x1_0000
    ensures (Unit(u) + rest)[2..] == HexDigits(u, 4) + rest && (Unit(u) + rest)[6..] == rest
    ensures ReadUnit((Unit(u) + rest)[2..]) == Some(u)
  {
    assert (Unit(u) + rest)[2..] == HexDigits(u, 4) + rest;
    DigitsRoundTrip(u, rest);
  }

  lemma ReadFourDigits(a: int, b: int, c: int, d: int, rest: Codes)
    requires 0 <= a < 16 && 0 <= b < 16 && 0 <= c < 16 && 0 <= d < 16
    ensures ReadUnit([Hex(a), Hex(b), Hex(c), Hex(d)] + rest) == Some(4096 * a + 256 * b + 16 * c + d)
  {
    HexRoundTrip(a);
    HexRoundTrip(b);
    HexRoundTrip(c);
    HexRoundTrip(d);
    var s := [Hex(a), Hex(b), Hex(c), Hex(d)] + rest;
    assert s[0] == Hex(a) && s[1] == Hex(b) && s[2] == Hex(c) && s[3] == Hex(d);
  }

  lemma Places(u: int)
    requires 0 <= u < 0x1_0000
    ensures 4096 * (u / 16 / 16 / 16 % 16) + 256 * (u / 16 / 16 % 16) + 16 * (u / 16 % 16) + u % 16 == u
  {
  }

  lemma DigitsRoundTrip(u: int, rest: Codes)
    requires 0 <= u < 0x1_0000
    ensures ReadUnit(HexDigits(u, 4) + rest) == Some(u)
  {
    Places(u);
    FourDigits(u);
    ReadFourDigits(u / 16 / 16 / 16 % 16, u / 16 / 16 % 16, u / 16 % 16, u % 16, rest);
  }

  /** The escaped low surrogate that a reader would join to a high one before it. */
  predicate StartsWithLowEscape(s: Codes) {
    |s| >= 6 && s[0] == BACKSLASH && s[1] == 117
    && ReadUnit(s[2..]).Some? && IsLow(ReadUnit(s[2..]).value)
  }

  /** Escapes are whole: what starts like one has four digits. */
  predicate EscapesWhole(s: Codes) {
    |s| >= 2 && s[0] == BACKSLASH && s[1] == 117 ==> ReadUnit(s[2..]).Some?
  }

  lemma ReadEscaped(c: Code, rest: Codes)
    requires IsHigh(c) ==> !StartsWithLowEscape(rest) && EscapesWhole(rest)
    ensures Escape(c) != [] && Escape(c)[0] != QUOTE
    ensures ReadChar(Escape(c) + rest) == Some((c, rest))
  {
    if c >= 0x1_0000 {
      ReadPair(c, rest);
    } else if Escape(c) == Unit(c) {
      ReadUnitEscape(c, rest);
    } else if |Escape(c)| == 2 {
      assert (Escape(c) + rest)[2..] == rest;
    } else {
      assert (Escape(c) + rest)[1..] == rest;
    }
  }

  lemma ReadPair(c: Code, rest: Codes)
    requires c >= 0x1_0000
    ensures ReadChar(Unit(HighOf(c)) + Unit(LowOf(c)) + rest) == Some((c, rest))
  {
    var h, l := HighOf(c), LowOf(c);
    var s := Unit(h) + Unit(l) + rest;
    assert s == Unit(h) + (Unit(l) + rest);
    UnitRoundTrip(h, Unit(l) + rest);
    UnitRoundTrip(l, rest);
    assert s[6..] == Unit(l) + rest && s[8..] == s[6..][2..] && s[12..] == s[6..][6..];
    assert s[6] == Unit(l)[0] && s[7] == Unit(l)[1];
    assert (h - 0xd800) * 1024 + (l - 0xdc00) == c - 0x1_0000;
  }

  lemma ReadUnitEscape(c: Code, rest: Codes)
    requires c < 0x1_0000
    requires IsHigh(c) ==> !StartsWithLowEscape(rest) && EscapesWhole(rest)
    ensures ReadChar(Unit(c) + rest) == Some((c, rest))
  {
    var s := Unit(c) + rest;
    UnitRoundTrip(c, rest);
    if IsHigh(c) && |s| >= 8 && s[6] == BACKSLASH && s[7] == 117 {
      assert rest[0] == s[6] && rest[1] == s[7];
      assert s[8..] == rest[2..];
    }
  }

  lemma EscapedSplit(t: Codes, rest: Codes)
    requires t != []
    ensures EscapeAll(t) + rest == Escape(t[0]) + (EscapeAll(t[1..]) + rest)
  {
  }

  /** How an escaped text begins. */
  lemma EscapedStart(t: Codes, rest: Codes)
    requires rest != [] && rest[0] == QUOTE
    ensures EscapesWhole(EscapeAll(t) + rest)
    ensures t == [] || !IsLow(t[0]) ==> !StartsWithLowEscape(EscapeAll(t) + rest)
  {
    if t == [] {
      assert EscapeAll(t) + rest == rest;
    } else {
      EscapedSplit(t, rest);
      EscapeStart(t[0], EscapeAll(t[1..]) + rest);
    }
  }

  lemma UnitStart(u: int, more: Codes)
    requires 0 <= u < 0x1_0000
    ensures EscapesWhole(Unit(u) + more)
    ensures !IsLow(u) ==> !StartsWithLowEscape(Unit(u) + more)
  {
    UnitRoundTrip(u, more);
  }

  lemma EscapeStart(c: Code, more: Codes)
    ensures EscapesWhole(Escape(c) + more)
    ensures !IsLow(c) ==> !StartsWithLowEscape(Escape(c) + more)
  {
    var s := Escape(c) + more;
    if c >= 0x1_0000 {
      assert s == Unit(HighOf(c)) + (Unit(LowOf(c)) + more);
      UnitStart(HighOf(c), Unit(LowOf(c)) + more);
    } else if Escape(c) == Unit(c) {
      UnitStart(c, more);
    } else if |Escape(c)| == 2 {
      assert s[1] == Escape(c)[1] && Escape(c)[1] != 117;
    } else {
      assert s[0] == c && c != BACKSLASH;
    }
  }

  lemma CharStep(s: Codes, c: Code, more: Codes)
    requires s != [] && s[0] != QUOTE && ReadChar(s) == Some((c, more))
    ensures ReadChars(s) ==
              var rest := ReadChars(more);
              if rest == None then None else Some(([c] + rest.value.0, rest.value.1))
  {
  }

  lemma {:induction false} ReadEscapedAll(t: Codes, rest: Codes)
    requires WellPaired(t) && rest != [] && rest[0] == QUOTE
    ensures ReadChars(EscapeAll(t) + rest) == Some((t, rest[1..]))
  {
    if t == [] {
      assert EscapeAll(t) + rest == rest;
    } else {
      var more := EscapeAll(t[1..]) + rest;
      EscapedSplit(t, rest);
      EscapedStart(t[1..], rest);
      ReadEscaped(t[0], more);
      CharStep(Escape(t[0]) + more, t[0], more);
      ReadEscapedAll(t[1..], rest);
      assert [t[0]] + t[1..] == t;
    }
  }

  // ----- Numbers ------------------------------------------------------------------------------

  lemma {:induction false} DigitsEnd(d: Codes, rest: Codes)
    requires forall i :: 0 <= i < |d| ==> IsDigitCode(d[i])
    requires rest != [] ==> !IsDigitCode(rest[0])
    ensures DigitCount(d + rest) == |d|
  {
    if d != [] {
      assert (d + rest)[1..] == d[1..] + rest;
      DigitsEnd(d[1..], rest);
    }
  }

  lemma ReadDecimal(n: nat, rest: Codes)
    requires Closes(rest)
    ensures ReadNat(ToCodes(Decimal(n)) + rest) == Some((n, rest))
  {
    var d := ToCodes(Decimal(n));
    var s := d + rest;
    DigitsEnd(d, rest);
    NumeralOfDecimal(n);
    assert s[0] == d[0];
    assert s[..|d|] == d && s[|d|..] == rest;
    assert ToDigits(d) == Decimal(n);
  }

  /** A scalar that starts with a digit or a minus sign is read as a number. */
  lemma NumberDispatch(s: Codes)
    requires s != [] && (IsDigitCode(s[0]) || s[0] == MINUS)
    ensures ReadScalar(s) ==
              var n := ReadNat(if s[0] == MINUS then s[1..] else s);
              if n == None then None
              else Some((Num(if s[0] == MINUS then 0 - n.value.0 else n.value.0), n.value.1))
  {
  }

  lemma ScalarOfDigits(d: Codes, n: nat, rest: Codes)
    requires d != [] && IsDigitCode(d[0]) && ReadNat(d + rest) == Some((n, rest))
    ensures ReadScalar(d + rest) == Some((Num(n), rest))
  {
    NumberDispatch(d + rest);
  }

  lemma ScalarOfMinus(d: Codes, n: nat, rest: Codes)
    requires ReadNat(d + rest) == Some((n, rest))
    ensures ReadScalar([MINUS] + d + rest) == Some((Num(0 - n), rest))
  {
    var m := [MINUS] + d + rest;
    assert m[1..] == d + rest && m[0] == MINUS;
    NumberDispatch(m);
  }

  lemma ReadPrintedInt(n: int, rest: Codes)
    requires Closes(rest)
    ensures ReadScalar(PrintInt(n) + rest) == Some((Num(n), rest))
  {
    var m: nat := if n < 0 then -n else n;
    assert IsDigit(Decimal(m)[0]);
    ReadDecimal(m, rest);
    if n < 0 { ScalarOfMinus(ToCodes(Decimal(m)), m, rest); } else { ScalarOfDigits(ToCodes(Decimal(m)), m, rest); }
  }

  // ----- White space --------------------------------------------------------------------------

  lemma {:induction false} SkipSpace(g: Codes, s: Codes)
    requires AllSpace(g) && (s != [] ==> !IsSpace(s[0]))
    ensures Skip(g + s) == s
  {
    if g == [] {
      assert g + s == s;
    } else {
      assert (g + s)[1..] == g[1..] + s;
      SkipSpace(g[1..], s);
    }
  }

  lemma GapIsSpace(l: Layout)
    requires Blank(l)
    ensures AllSpace(Gap(l)) && Blank(Deeper(l))
  {
  }

  // ----- Documents ----------------------------------------------------------------------------

  lemma PrintStart(d: Doc, l: Layout)
    requires Proper(d)
    ensures Print(d, l) != [] && !IsSpace(Print(d, l)[0])
    ensures Print(d, l)[0] != RBRACKET && Print(d, l)[0] != RBRACE
    ensures d.Atom? ==> Print(d, l)[0] != LBRACKET && Print(d, l)[0] != LBRACE
  {
    if d.Atom? && d.value.Num? {
      var m: nat := if d.value.n < 0 then -d.value.n else d.value.n;
      assert IsDigit(Decimal(m)[0]) && ToCodes(Decimal(m))[0] == Decimal(m)[0] as int;
    }
  }

  lemma ReadPrintedStr(t: Codes, rest: Codes)
    requires WellPaired(t)
    ensures (PrintStr(t) + rest)[0] == QUOTE
    ensures ReadChars((PrintStr(t) + rest)[1..]) == Some((t, rest))
    ensures ReadScalar(PrintStr(t) + rest) == Some((Str(t), rest))
  {
    ReadEscapedAll(t, [QUOTE] + rest);
    assert ([QUOTE] + rest)[1..] == rest;
    assert (PrintStr(t) + rest)[1..] == EscapeAll(t) + ([QUOTE] + rest);
  }

  lemma ReadLiteral(v: Json, rest: Codes)
    requires v.Null? || v.Bool?
    ensures ReadScalar(PrintScalar(v) + rest) == Some((v, rest))
  {
  }

  lemma ReadPrintedScalar(v: Json, rest: Codes)
    requires IsScalar(v) && (v.Str? ==> WellPaired(v.text)) && Closes(rest)
    ensures ReadScalar(PrintScalar(v) + rest) == Some((v, rest))
  {
    match v
    case Str(t) => ReadPrintedStr(t, rest);
    case Num(n) => ReadPrintedInt(n, rest);
    case _ => ReadLiteral(v, rest);
  }

  lemma {:induction false} ReadPrinted(d: Doc, l: Layout, rest: Codes)
    requires Proper(d) && Paired(d) && Blank(l) && Closes(rest)
    ensures ReadDoc(Print(d, l) + rest) == Some((d, rest))
    decreases d, 2
  {
    PrintStart(d, l);
    assert (Print(d, l) + rest)[0] == Print(d, l)[0];
    match d
    case Atom(v) => ReadPrintedScalar(v, rest);
    case List(items) => ReadPrintedList(d, l, rest);
    case Fields(pairs) => ReadPrintedObject(d, l, rest);
  }

  lemma Enclosed(open: Code, inner: Codes, gap: Codes, close: Code, rest: Codes)
    ensures [open] + inner + gap + [close] + rest == [open] + (inner + (gap + ([close] + rest)))
  {
  }

  lemma ReadPrintedList(d: Doc, l: Layout, rest: Codes)
    requires Proper(d) && Paired(d) && Blank(l) && d.List?
    ensures ReadDoc(Print(d, l) + rest) == Some((d, rest))
    decreases d, 1
  {
    if d.items == [] {
      assert Print(d, l) + rest == [LBRACKET] + ([RBRACKET] + rest);
      ListDispatch([RBRACKET] + rest);
      assert ([RBRACKET] + rest)[1..] == rest;
    } else {
      var body := PrintItems(d, 0, Deeper(l)) + (Gap(l) + ([RBRACKET] + rest));
      Enclosed(LBRACKET, PrintItems(d, 0, Deeper(l)), Gap(l), RBRACKET, rest);
      GapIsSpace(l);
      ReadPrintedItems(d, 0, Deeper(l), Gap(l), rest);
      ListDispatch(body);
      assert d.items[0..] == d.items;
    }
  }

  lemma ListDispatch(body: Codes)
    ensures ReadDoc([LBRACKET] + body) == ReadList(Skip(body))
  {
    assert ([LBRACKET] + body)[1..] == body;
  }

  /** The reader behind the white space in front of an item. */
  lemma ItemsStart(d: Doc, i: nat, l: Layout, more: Codes) returns (tail: Codes)
    requires Proper(d) && d.List? && i < |d.items| && Blank(l)
    ensures tail == (if i + 1 == |d.items| then more else [COMMA] + (PrintItems(d, i + 1, l) + more))
    ensures Skip(PrintItems(d, i, l) + more) == Print(d.items[i], l) + tail
    ensures (Print(d.items[i], l) + tail)[0] == Print(d.items[i], l)[0] != RBRACKET
  {
    PrintStart(d.items[i], l);
    GapIsSpace(l);
    tail := if i + 1 == |d.items| then more else [COMMA] + (PrintItems(d, i + 1, l) + more);
    assert PrintItems(d, i, l) + more == Gap(l) + (Print(d.items[i], l) + tail);
    SkipSpace(Gap(l), Print(d.items[i], l) + tail);
  }

  lemma LastItem(s: Codes, item: Doc, gap: Codes, rest: Codes)
    requires AllSpace(gap) && ReadDoc(s) == Some((item, gap + ([RBRACKET] + rest)))
    ensures ReadItems(s) == Some(([item], rest))
  {
    SkipSpace(gap, [RBRACKET] + rest);
    assert ([RBRACKET] + rest)[1..] == rest;
  }

  lemma OneMoreItem(s: Codes, item: Doc, more: Codes, items: seq<Doc>, rest: Codes)
    requires ReadDoc(s) == Some((item, [COMMA] + more)) && ReadItems(Skip(more)) == Some((items, rest))
    ensures ReadItems(s) == Some(([item] + items, rest))
  {
    assert Skip([COMMA] + more) == [COMMA] + more && ([COMMA] + more)[1..] == more;
  }

  lemma LastItemRead(d: Doc, l: Layout, gap: Codes, rest: Codes)
    requires Proper(d) && d.List? && d.items != [] && AllSpace(gap)
    requires var item := d.items[|d.items| - 1];
             var tail := gap + ([RBRACKET] + rest);
             ReadDoc(Print(item, l) + tail) == Some((item, tail))
    ensures var item := d.items[|d.items| - 1];
            ReadItems(Print(item, l) + (gap + ([RBRACKET] + rest))) == Some((d.items[|d.items| - 1..], rest))
  {
    var item := d.items[|d.items| - 1];
    LastItem(Print(item, l) + (gap + ([RBRACKET] + rest)), item, gap, rest);
    assert d.items[|d.items| - 1..] == [item];
  }

  lemma NextItemRead(d: Doc, i: nat, l: Layout, more: Codes, rest: Codes)
    requires Proper(d) && d.List? && i + 1 < |d.items|
    requires ReadDoc(Print(d.items[i], l) + ([COMMA] + more)) == Some((d.items[i], [COMMA] + more))
    requires ReadItems(Skip(more)) == Some((d.items[i + 1..], rest))
    ensures ReadItems(Print(d.items[i], l) + ([COMMA] + more)) == Some((d.items[i..], rest))
  {
    OneMoreItem(Print(d.items[i], l) + ([COMMA] + more), d.items[i], more, d.items[i + 1..], rest);
    ItemsFrom(d.items, i);
  }

  lemma ItemsFrom(items: seq<Doc>, i: nat)
    requires i < |items|
    ensures items[i..] == [items[i]] + items[i + 1..]
  {
  }

  lemma ReadPrintedItems(d: Doc, i: nat, l: Layout, gap: Codes, rest: Codes)
    requires Proper(d) && Paired(d) && Blank(l) && d.List? && i < |d.items| && AllSpace(gap)
    ensures var s := Skip(PrintItems(d, i, l) + (gap + ([RBRACKET] + rest)));
            s != [] && s[0] != RBRACKET && ReadItems(s) == Some((d.items[i..], rest))
    decreases d, 0, |d.items| - i
  {
    var more := gap + ([RBRACKET] + rest);
    var tail := ItemsStart(d, i, l, more);
    assert Closes(tail);
    ReadPrinted(d.items[i], l, tail);
    if i + 1 == |d.items| {
      LastItemRead(d, l, gap, rest);
    } else {
      ReadPrintedItems(d, i + 1, l, gap, rest);
      NextItemRead(d, i, l, PrintItems(d, i + 1, l) + more, rest);
    }
  }

  lemma ReadPrintedObject(d: Doc, l: Layout, rest: Codes)
    requires Proper(d) && Paired(d) && Blank(l) && d.Fields?
    ensures ReadDoc(Print(d, l) + rest) == Some((d, rest))
    decreases d, 1
  {
    if d.pairs == [] {
      assert Print(d, l) + rest == [LBRACE] + ([RBRACE] + rest);
      ObjectDispatch([RBRACE] + rest);
      assert ([RBRACE] + rest)[1..] == rest;
    } else {
      var body := PrintPairs(d, 0, Deeper(l)) + (Gap(l) + ([RBRACE] + rest));
      Enclosed(LBRACE, PrintPairs(d, 0, Deeper(l)), Gap(l), RBRACE, rest);
      GapIsSpace(l);
      ReadPrintedPairs(d, 0, Deeper(l), Gap(l), rest);
      ObjectDispatch(body);
      assert d.pairs[0..] == d.pairs;
    }
  }

  lemma ObjectDispatch(body: Codes)
    ensures ReadDoc([LBRACE] + body) == ReadObject(Skip(body))
  {
    assert ([LBRACE] + body)[1..] == body;
  }

  lemma PairsStart(d: Doc, i: nat, l: Layout, more: Codes) returns (tail: Codes)
    requires Proper(d) && d.Fields? && i < |d.pairs| && Blank(l)
    ensures tail == (if i + 1 == |d.pairs| then more else [COMMA] + (PrintPairs(d, i + 1, l) + more))
    ensures Skip(PrintPairs(d, i, l) + more)
            == PrintStr(d.pairs[i].0) + (ColonOf(l) + (Print(d.pairs[i].1, l) + tail))
    ensures Skip(PrintPairs(d, i, l) + more)[0] == QUOTE
  {
    GapIsSpace(l);
    tail := if i + 1 == |d.pairs| then more else [COMMA] + (PrintPairs(d, i + 1, l) + more);
    var s := PrintStr(d.pairs[i].0) + (ColonOf(l) + (Print(d.pairs[i].1, l) + tail));
    assert PrintPairs(d, i, l) + more == Gap(l) + s by {
      Regroup(PrintStr(d.pairs[i].0), ColonOf(l), Print(d.pairs[i].1, l), tail);
      assert PrintPairs(d, i, l) + more == Gap(l) + (PrintPair(d, i, l) + tail) by { PairsSplit(d, i, l, more); }
    }
    SkipSpace(Gap(l), s);
  }

  lemma Regroup(a: Codes, b: Codes, c: Codes, e: Codes)
    ensures a + b + c + e == a + (b + (c + e))
  {
  }

  lemma PairsSplit(d: Doc, i: nat, l: Layout, more: Codes)
    requires Proper(d) && d.Fields? && i < |d.pairs|
    ensures var tail := if i + 1 == |d.pairs| then more else [COMMA] + (PrintPairs(d, i + 1, l) + more);
            PrintPairs(d, i, l) + more == Gap(l) + (PrintPair(d, i, l) + tail)
  {
    var p := PrintPair(d, i, l);
    if i + 1 == |d.pairs| {
      assert Gap(l) + p + [] + more == Gap(l) + (p + more);
    } else {
      Regroup(Gap(l), p, [COMMA] + PrintPairs(d, i + 1, l), more);
      CommaSplit(PrintPairs(d, i + 1, l), more);
    }
  }

  lemma CommaSplit(a: Codes, more: Codes)
    ensures [COMMA] + a + more == [COMMA] + (a + more)
  {
  }

  lemma KeyStep(k: Codes, l: Layout, value: Codes)
    requires WellPaired(k) && value != [] && !IsSpace(value[0])
    ensures ReadKey(PrintStr(k) + (ColonOf(l) + value)) == Some((k, value))
  {
    ReadPrintedStr(k, ColonOf(l) + value);
    var s := ColonOf(l) + value;
    assert Skip(s) == s && s[0] == COLON;
    if l.Compact? {
      assert s[1..] == value && Skip(value) == value;
    } else {
      assert s[1..] == [32] + value;
      SkipSpace([32], value);
    }
  }

  lemma PairKey(k: Codes, v: Doc, l: Layout, tail: Codes)
    requires Proper(v) && WellPaired(k)
    ensures ReadKey(PrintStr(k) + (ColonOf(l) + (Print(v, l) + tail))) == Some((k, Print(v, l) + tail))
  {
    PrintStart(v, l);
    KeyStep(k, l, Print(v, l) + tail);
  }

  /** What ReadPairs makes of the last pair, and of one before others. */
  lemma LastPair(s: Codes, k: Codes, value: Codes, v: Doc, gap: Codes, rest: Codes)
    requires ReadKey(s) == Some((k, value)) && AllSpace(gap)
    requires ReadDoc(value) == Some((v, gap + ([RBRACE] + rest)))
    ensures ReadPairs(s) == Some(([(k, v)], rest))
  {
    SkipSpace(gap, [RBRACE] + rest);
    assert ([RBRACE] + rest)[1..] == rest;
  }

  lemma OneMorePair(s: Codes, k: Codes, value: Codes, v: Doc, more: Codes, pairs: seq<(Codes, Doc)>, rest: Codes)
    requires ReadKey(s) == Some((k, value)) && ReadDoc(value) == Some((v, [COMMA] + more))
    requires ReadPairs(Skip(more)) == Some((pairs, rest))
    ensures ReadPairs(s) == Some(([(k, v)] + pairs, rest))
  {
    assert Skip([COMMA] + more) == [COMMA] + more && ([COMMA] + more)[1..] == more;
  }

  lemma LastPairRead(k: Codes, v: Doc, l: Layout, gap: Codes, rest: Codes)
    requires Proper(v) && WellPaired(k) && AllSpace(gap)
    requires var tail := gap + ([RBRACE] + rest); ReadDoc(Print(v, l) + tail) == Some((v, tail))
    ensures ReadPairs(PrintStr(k) + (ColonOf(l) + (Print(v, l) + (gap + ([RBRACE] + rest))))) == Some(([(k, v)], rest))
  {
    var value := Print(v, l) + (gap + ([RBRACE] + rest));
    PairKey(k, v, l, gap + ([RBRACE] + rest));
    LastPair(PrintStr(k) + (ColonOf(l) + value), k, value, v, gap, rest);
  }

  lemma NextPairRead(k: Codes, v: Doc, l: Layout, more: Codes, pairs: seq<(Codes, Doc)>, rest: Codes)
    requires Proper(v) && WellPaired(k)
    requires ReadDoc(Print(v, l) + ([COMMA] + more)) == Some((v, [COMMA] + more))
    requires ReadPairs(Skip(more)) == Some((pairs, rest))
    ensures ReadPairs(PrintStr(k) + (ColonOf(l) + (Print(v, l) + ([COMMA] + more)))) == Some(([(k, v)] + pairs, rest))
  {
    var value := Print(v, l) + ([COMMA] + more);
    PairKey(k, v, l, [COMMA] + more);
    OneMorePair(PrintStr(k) + (ColonOf(l) + value), k, value, v, more, pairs, rest);
  }

  lemma PairsFrom(d: Doc, i: nat)
    requires d.Fields? && i < |d.pairs|
    ensures d.pairs[i..] == [(d.pairs[i].0, d.pairs[i].1)] + d.pairs[i + 1..]
  {
    assert d.pairs[i] == (d.pairs[i].0, d.pairs[i].1);
  }

  lemma LastPairAt(d: Doc, i: nat, l: Layout, gap: Codes, rest: Codes)
    requires Proper(d) && Paired(d) && d.Fields? && i + 1 == |d.pairs| && AllSpace(gap)
    requires var tail := gap + ([RBRACE] + rest);
             ReadDoc(Print(d.pairs[i].1, l) + tail) == Some((d.pairs[i].1, tail))
    ensures var value := Print(d.pairs[i].1, l) + (gap + ([RBRACE] + rest));
            ReadPairs(PrintStr(d.pairs[i].0) + (ColonOf(l) + value)) == Some((d.pairs[i..], rest))
  {
    LastPairRead(d.pairs[i].0, d.pairs[i].1, l, gap, rest);
    PairsFrom(d, i);
    assert d.pairs[i..] == [(d.pairs[i].0, d.pairs[i].1)];
  }

  lemma NextPairAt(d: Doc, i: nat, l: Layout, more: Codes, rest: Codes)
    requires Proper(d) && Paired(d) && d.Fields? && i + 1 < |d.pairs|
    requires ReadDoc(Print(d.pairs[i].1, l) + ([COMMA] + more)) == Some((d.pairs[i].1, [COMMA] + more))
    requires ReadPairs(Skip(more)) == Some((d.pairs[i + 1..], rest))
    ensures var value := Print(d.pairs[i].1, l) + ([COMMA] + more);
            ReadPairs(PrintStr(d.pairs[i].0) + (ColonOf(l) + value)) == Some((d.pairs[i..], rest))
  {
    NextPairRead(d.pairs[i].0, d.pairs[i].1, l, more, d.pairs[i + 1..], rest);
    PairsFrom(d, i);
  }

  lemma ReadPrintedPairs(d: Doc, i: nat, l: Layout, gap: Codes, rest: Codes)
    requires Proper(d) && Paired(d) && Blank(l) && d.Fields? && i < |d.pairs| && AllSpace(gap)
    ensures var s := Skip(PrintPairs(d, i, l) + (gap + ([RBRACE] + rest)));
            s != [] && s[0] == QUOTE && ReadPairs(s) == Some((d.pairs[i..], rest))
    decreases d, 0, |d.pairs| - i
  {
    var more := gap + ([RBRACE] + rest);
    var tail := PairsStart(d, i, l, more);
    assert Closes(tail);
    ReadPrinted(d.pairs[i].1, l, tail);
    if i + 1 == |d.pairs| {
      LastPairAt(d, i, l, gap, rest);
    } else {
      ReadPrintedPairs(d, i + 1, l, gap, rest);
      NextPairAt(d, i, l, PrintPairs(d, i + 1, l) + more, rest);
    }
  }

  /** A printed document is read back as it was, in either layout. */
  lemma TextReadsBack(d: Doc, l: Layout)
    requires Proper(d) && Paired(d) && Blank(l)
    ensures ReadText(Print(d, l)) == Some(d)
  {
    PrintStart(d, l);
    ReadPrinted(d, l, []);
    assert Print(d, l) + [] == Print(d, l);
  }
}
