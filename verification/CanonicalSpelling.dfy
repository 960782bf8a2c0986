/** What json.dumps writes, told character by character (RFC 8259) and without the printer: the layout,
    numbers, and which escape each character of a text gets. */
module CanonicalSpelling {
  import opened Wrappers
  import opened Text
  import opened Chunks
  import opened CanonicalJson

  // ----- Texts --------------------------------------------------------------------------------

  /** Hexadecimal digits are lower case. */
  predicate LowerHex(c: int) { 48 <= c <= 57 || 97 <= c <= 102 }

  function DigitOf(c: int): int { if c <= 57 then c - 48 else c - 87 }

  /** Backslash, u, and the UTF-16 unit in four digits. */
  predicate SpellsUnit(e: Codes, unit: int) {
    && |e| == 6 && e[0] == 92 && e[1] == 117
    && LowerHex(e[2]) && LowerHex(e[3]) && LowerHex(e[4]) && LowerHex(e[5])
    && unit == 4096 * DigitOf(e[2]) + 256 * DigitOf(e[3]) + 16 * DigitOf(e[4]) + DigitOf(e[5])
  }

  /** Quotation mark, backslash, backspace, form feed, line feed, carriage return and tab have an escape
      of two characters. */
  const SHORT: map<int, int> := map[34 := 34, 92 := 92, 8 := 98, 12 := 102, 10 := 110, 13 := 114, 9 := 116]

  /** The other printable ASCII characters stand for themselves; what is neither is spelled by its UTF-16
      units, a character above U+FFFF by the surrogates it is made of. */
  ghost predicate SpellsChar(e: Codes, c: Code) {
    if c in SHORT then e == [92, SHORT[c]]
    else if 32 <= c <= 126 then e == [c]
    else if c <= 0xffff then SpellsUnit(e, c)
    else exists high: int, low: int :: SpellsPair(e, c, high, low)
  }

  predicate SpellsPair(e: Codes, c: Code, high: int, low: int) {
    && |e| == 12 && SpellsUnit(e[..6], high) && SpellsUnit(e[6..], low)
    && 0xd800 <= high <= 0xdbff && 0xdc00 <= low <= 0xdfff
    && c == 0x1_0000 + 1024 * (high - 0xd800) + (low - 0xdc00)
  }

  ghost predicate SpellsEach(parts: seq<Codes>, t: Codes) {
    |parts| == |t| && forall i :: 0 <= i < |t| ==> SpellsChar(parts[i], t[i])
  }

  ghost predicate SpellsText(e: Codes, t: Codes) {
    exists parts: seq<Codes> :: SpellsEach(parts, t) && e == Concat(parts)
  }

  lemma FourDigits(u: nat)
    requires u < 0x1_0000
    ensures Unit(u) == [92, 117, Hex(u / 4096), Hex(u / 256 % 16), Hex(u / 16 % 16), Hex(u % 16)]
  {
    assert HexDigits(u / 4096, 1) == [Hex(u / 4096 % 16)];
    assert HexDigits(u / 256, 2) == HexDigits(u / 256 / 16, 1) + [Hex(u / 256 % 16)];
    assert HexDigits(u / 16, 3) == HexDigits(u / 16 / 16, 2) + [Hex(u / 16 % 16)];
  }

  lemma HexIsLower(d: int)
    requires 0 <= d < 16
    ensures LowerHex(Hex(d)) && DigitOf(Hex(d)) == d
  {
  }

  lemma Places(u: nat)
    requires u < 0x1_0000
    ensures u / 4096 < 16 && u == 4096 * (u / 4096) + 256 * (u / 256 % 16) + 16 * (u / 16 % 16) + u % 16
  {
  }

  lemma UnitIsSpelled(u: nat)
    requires u < 0x1_0000
    ensures SpellsUnit(Unit(u), u)
  {
    FourDigits(u);
    Places(u);
    HexIsLower(u / 4096);
    HexIsLower(u / 256 % 16);
    HexIsLower(u / 16 % 16);
    HexIsLower(u % 16);
  }

  lemma SplitPair(a: Codes, b: Codes)
    requires |a| == 6
    ensures (a + b)[..6] == a && (a + b)[6..] == b
  {
  }

  lemma PairSum(c: Code)
    requires c >= 0x1_0000
    ensures 0xd800 <= HighOf(c) <= 0xdbff && 0xdc00 <= LowOf(c) <= 0xdfff
    ensures c == 0x1_0000 + 1024 * (HighOf(c) - 0xd800) + (LowOf(c) - 0xdc00)
  {
  }

  lemma PairIsSpelled(c: Code)
    requires c >= 0x1_0000
    ensures SpellsPair(Escape(c), c, HighOf(c), LowOf(c))
  {
    var e, high, low := Escape(c), Unit(HighOf(c)), Unit(LowOf(c));
    UnitIsSpelled(HighOf(c));
    UnitIsSpelled(LowOf(c));
    SplitPair(high, low);
    assert e == high + low;
    PairSum(c);
  }

  lemma CharIsSpelled(c: Code)
    ensures SpellsChar(Escape(c), c)
  {
    if c >= 0x1_0000 {
      PairIsSpelled(c);
    } else if c !in SHORT && !(32 <= c <= 126) {
      UnitIsSpelled(c);
    }
  }

  lemma {:induction false} TextIsSpelled(t: Codes) returns (parts: seq<Codes>)
    ensures SpellsEach(parts, t) && EscapeAll(t) == Concat(parts)
  {
    if t == [] {
      parts := [];
    } else {
      var rest := TextIsSpelled(t[1..]);
      parts := [Escape(t[0])] + rest;
      CharIsSpelled(t[0]);
      assert parts[1..] == rest;
    }
  }

  // ----- Numbers ------------------------------------------------------------------------------

  function Positional(s: Codes): int {
    if s == [] then 0 else 10 * Positional(s[..|s| - 1]) + s[|s| - 1] - 48
  }

  /** Decimal digits without a superfluous zero in front. */
  predicate SpellsNat(s: Codes, n: nat) {
    && s != [] && (forall i :: 0 <= i < |s| ==> 48 <= s[i] <= 57)
    && (s[0] == 48 ==> |s| == 1) && Positional(s) == n
  }

  predicate SpellsInt(s: Codes, n: int) {
    if n >= 0 then SpellsNat(s, n) else s != [] && s[0] == 45 && SpellsNat(s[1..], 0 - n)
  }

  lemma {:induction false} PositionalIsNumeral(s: string)
    requires AllDigits(s)
    ensures Positional(ToCodes(s)) == Numeral(s)
  {
    if s != [] {
      PositionalIsNumeral(s[..|s| - 1]);
      assert ToCodes(s)[..|s| - 1] == ToCodes(s[..|s| - 1]);
    }
  }

  lemma NatIsSpelled(n: nat)
    ensures SpellsNat(ToCodes(Decimal(n)), n)
  {
    var s := Decimal(n);
    NumeralOfDecimal(n);
    assert IsPlain(s);
    PositionalIsNumeral(s);
    forall i | 0 <= i < |s| ensures 48 <= ToCodes(s)[i] <= 57 { assert IsDigit(s[i]); }
  }

  lemma IntIsSpelled(n: int)
    ensures SpellsInt(PrintInt(n), n)
  {
    NatIsSpelled(if n < 0 then -n else n);
    if n < 0 { assert PrintInt(n)[1..] == ToCodes(Decimal(-n)); }
  }

  // ----- Documents ----------------------------------------------------------------------------

  ghost predicate SpellsQuoted(s: Codes, t: Codes) {
    |s| >= 2 && s[0] == 34 && s[|s| - 1] == 34 && SpellsText(s[1..|s| - 1], t)
  }

  ghost predicate SpellsScalar(s: Codes, v: Json)
    requires IsScalar(v)
  {
    match v
    case Null => s == [110, 117, 108, 108]
    case Bool(flag) => s == if flag then [116, 114, 117, 101] else [102, 97, 108, 115, 101]
    case Num(n) => SpellsInt(s, n)
    case Str(t) => SpellsQuoted(s, t)
  }

  function Blanks(n: nat): Codes { seq(n, i => 32) }

  /** With line ends, every item and closing bracket has its own line, two spaces deeper at each level;
      without, nothing stands between them. */
  function LineStart(eol: Option<Codes>, depth: nat): Codes {
    if eol == None then [] else eol.value + Blanks(2 * depth)
  }

  function Colon(eol: Option<Codes>): Codes {
    if eol == None then [58] else [58, 32]
  }

  /** Bracket, items with a comma between them, bracket. */
  predicate Encloses(s: Codes, open: Code, parts: seq<Codes>, close: Code, eol: Option<Codes>, depth: nat) {
    if parts == [] then s == [open, close]
    else s == [open] + Join(parts, 44) + LineStart(eol, depth) + [close]
  }

  /** One item on its line. */
  ghost predicate SpellsItem(part: Codes, d: Doc, eol: Option<Codes>, depth: nat)
    requires Proper(d)
    decreases d, 3
  {
    exists value: Codes :: part == LineStart(eol, depth) + value && Spells(value, d, eol, depth)
  }

  /** One field on its line. */
  ghost predicate SpellsField(part: Codes, name: Codes, d: Doc, eol: Option<Codes>, depth: nat)
    requires Proper(d)
    decreases d, 3
  {
    exists key: Codes, value: Codes ::
      && part == LineStart(eol, depth) + key + Colon(eol) + value
      && SpellsQuoted(key, name) && Spells(value, d, eol, depth)
  }

  ghost predicate SpellsItems(parts: seq<Codes>, d: Doc, eol: Option<Codes>, depth: nat)
    requires Proper(d) && d.List?
    decreases d, 1
  {
    |parts| == |d.items| && forall i :: 0 <= i < |parts| ==> SpellsItem(parts[i], d.items[i], eol, depth)
  }

  ghost predicate SpellsFields(parts: seq<Codes>, d: Doc, eol: Option<Codes>, depth: nat)
    requires Proper(d) && d.Fields?
    decreases d, 1
  {
    && |parts| == |d.pairs|
    && forall i :: 0 <= i < |parts| ==> SpellsField(parts[i], d.pairs[i].0, d.pairs[i].1, eol, depth)
  }

  ghost predicate Spells(s: Codes, d: Doc, eol: Option<Codes>, depth: nat)
    requires Proper(d)
    decreases d, 2
  {
    match d
    case Atom(v) => SpellsScalar(s, v)
    case List(_) =>
      exists parts: seq<Codes> :: SpellsItems(parts, d, eol, depth + 1) && Encloses(s, 91, parts, 93, eol, depth)
    case Fields(_) =>
      exists parts: seq<Codes> :: SpellsFields(parts, d, eol, depth + 1) && Encloses(s, 123, parts, 125, eol, depth)
  }

  function EolOf(l: Layout): Option<Codes> {
    match l
    case Compact => None
    case Indented(_, eol) => Some(eol)
  }

  lemma QuotedIsSpelled(t: Codes)
    ensures SpellsQuoted(PrintStr(t), t)
  {
    var parts := TextIsSpelled(t);
    assert PrintStr(t)[1..|PrintStr(t)| - 1] == EscapeAll(t);
  }

  lemma ScalarIsSpelled(v: Json)
    requires IsScalar(v)
    ensures SpellsScalar(PrintScalar(v), v)
  {
    match v
    case Num(n) => IntIsSpelled(n);
    case Str(t) => QuotedIsSpelled(t);
    case _ =>
  }

  /** `depth` counts the brackets around, which only an indented layout shows. */
  predicate At(l: Layout, depth: nat) {
    l.Indented? ==> l.depth == depth
  }

  lemma GapIsLineStart(l: Layout, depth: nat)
    requires At(l, depth)
    ensures Gap(l) == LineStart(EolOf(l), depth) && ColonOf(l) == Colon(EolOf(l))
    ensures At(Deeper(l), depth + 1) && EolOf(Deeper(l)) == EolOf(l)
  {
    assert Spaces(2 * depth) == Blanks(2 * depth);
  }

  lemma OneMorePart(part: Codes, rest: seq<Codes>, more: Codes)
    requires rest != [] ==> more == Join(rest, 44)
    ensures Join([part] + rest, 44) == if rest == [] then part else part + ([44] + more)
  {
    assert ([part] + rest)[1..] == rest;
  }

  function ItemParts(d: Doc, l: Layout, i: nat): (parts: seq<Codes>)
    requires Proper(d) && d.List? && i <= |d.items|
    ensures |parts| == |d.items| - i
  {
    seq(|d.items| - i, k requires 0 <= k < |d.items| - i => Gap(l) + Print(d.items[i + k], l))
  }

  lemma ItemsAreJoined(d: Doc, i: nat, l: Layout)
    requires Proper(d) && d.List? && i < |d.items|
    ensures PrintItems(d, i, l) == Join(ItemParts(d, l, i), 44)
    decreases |d.items| - i
  {
    var part, rest := Gap(l) + Print(d.items[i], l), ItemParts(d, l, i + 1);
    assert ItemParts(d, l, i) == [part] + rest;
    var more: Codes := [];
    if i + 1 < |d.items| {
      ItemsAreJoined(d, i + 1, l);
      more := PrintItems(d, i + 1, l);
    }
    OneMorePart(part, rest, more);
  }

  function FieldParts(d: Doc, l: Layout, i: nat): (parts: seq<Codes>)
    requires Proper(d) && d.Fields? && i <= |d.pairs|
    ensures |parts| == |d.pairs| - i
  {
    seq(|d.pairs| - i, k requires 0 <= k < |d.pairs| - i => Gap(l) + PrintPair(d, i + k, l))
  }

  lemma FieldsAreJoined(d: Doc, i: nat, l: Layout)
    requires Proper(d) && d.Fields? && i < |d.pairs|
    ensures PrintPairs(d, i, l) == Join(FieldParts(d, l, i), 44)
    decreases |d.pairs| - i
  {
    var part, rest := Gap(l) + PrintPair(d, i, l), FieldParts(d, l, i + 1);
    assert FieldParts(d, l, i) == [part] + rest;
    var more: Codes := [];
    if i + 1 < |d.pairs| {
      FieldsAreJoined(d, i + 1, l);
      more := PrintPairs(d, i + 1, l);
    }
    OneMorePart(part, rest, more);
  }

  lemma FieldIsSpelled(d: Doc, i: nat, l: Layout, depth: nat)
    requires Proper(d) && d.Fields? && i < |d.pairs| && At(l, depth)
    requires Spells(Print(d.pairs[i].1, l), d.pairs[i].1, EolOf(l), depth)
    ensures SpellsField(Gap(l) + PrintPair(d, i, l), d.pairs[i].0, d.pairs[i].1, EolOf(l), depth)
  {
    GapIsLineStart(l, depth);
    var key, value := PrintStr(d.pairs[i].0), Print(d.pairs[i].1, l);
    QuotedIsSpelled(d.pairs[i].0);
    assert Gap(l) + PrintPair(d, i, l) == LineStart(EolOf(l), depth) + key + Colon(EolOf(l)) + value;
  }

  lemma BracketsEnclose(d: Doc, l: Layout, depth: nat)
    requires Proper(d) && At(l, depth)
    ensures d.List? ==> Encloses(Print(d, l), 91, ItemParts(d, Deeper(l), 0), 93, EolOf(l), depth)
    ensures d.Fields? ==> Encloses(Print(d, l), 123, FieldParts(d, Deeper(l), 0), 125, EolOf(l), depth)
  {
    GapIsLineStart(l, depth);
    if d.List? && d.items != [] { ItemsAreJoined(d, 0, Deeper(l)); }
    if d.Fields? && d.pairs != [] { FieldsAreJoined(d, 0, Deeper(l)); }
  }

  lemma AllItemsSpelled(d: Doc, l: Layout, depth: nat)
    requires Proper(d) && d.List? && At(l, depth)
    ensures SpellsItems(ItemParts(d, l, 0), d, EolOf(l), depth)
    decreases d, 0
  {
    GapIsLineStart(l, depth);
    forall k | 0 <= k < |d.items| ensures SpellsItem(ItemParts(d, l, 0)[k], d.items[k], EolOf(l), depth) {
      PrintIsSpelled(d.items[k], l, depth);
    }
  }

  lemma AllFieldsSpelled(d: Doc, l: Layout, depth: nat)
    requires Proper(d) && d.Fields? && At(l, depth)
    ensures SpellsFields(FieldParts(d, l, 0), d, EolOf(l), depth)
    decreases d, 0
  {
    forall k | 0 <= k < |d.pairs|
      ensures SpellsField(FieldParts(d, l, 0)[k], d.pairs[k].0, d.pairs[k].1, EolOf(l), depth)
    {
      PrintIsSpelled(d.pairs[k].1, l, depth);
      FieldIsSpelled(d, k, l, depth);
    }
  }

  /** Everything the printer writes is spelled this way. */
  lemma {:induction false} PrintIsSpelled(d: Doc, l: Layout, depth: nat)
    requires Proper(d) && At(l, depth)
    ensures Spells(Print(d, l), d, EolOf(l), depth)
    decreases d, 1
  {
    GapIsLineStart(l, depth);
    BracketsEnclose(d, l, depth);
    match d
    case Atom(v) => ScalarIsSpelled(v);
    case List(_) => AllItemsSpelled(d, Deeper(l), depth + 1);
    case Fields(_) => AllFieldsSpelled(d, Deeper(l), depth + 1);
  }

  // ----- The order of names -------------------------------------------------------------------

  /** Code point by code point, a beginning before what it begins. */
  ghost predicate Precedes(a: Codes, b: Codes) {
    exists k :: 0 <= k <= |a| && k < |b| && a[..k] == b[..k] && (k == |a| || a[k] < b[k])
  }

  lemma {:induction false} BeforeIsPrecedes(a: Codes, b: Codes)
    ensures Before(a, b) <==> Precedes(a, b)
  {
    if a != [] && b != [] && a[0] == b[0] {
      BeforeIsPrecedes(a[1..], b[1..]);
      if Precedes(a[1..], b[1..]) {
        var k :| 0 <= k <= |a[1..]| && k < |b[1..]| && a[1..][..k] == b[1..][..k] && (k == |a[1..]| || a[1..][k] < b[1..][k]);
        assert a[..k + 1] == [a[0]] + a[1..][..k] && b[..k + 1] == [b[0]] + b[1..][..k];
      }
      if Precedes(a, b) {
        var k :| 0 <= k <= |a| && k < |b| && a[..k] == b[..k] && (k == |a| || a[k] < b[k]);
        assert k > 0;
        assert a[1..][..k - 1] == a[..k][1..] && b[1..][..k - 1] == b[..k][1..];
      }
    } else {
      if Before(a, b) { assert a[..0] == b[..0]; }
      if Precedes(a, b) {
        var k :| 0 <= k <= |a| && k < |b| && a[..k] == b[..k] && (k == |a| || a[k] < b[k]);
        if k > 0 { assert a[..k][0] == b[..k][0]; }
      }
    }
  }

  /** sort_keys: each object lists its own fields, each once, in the order of their names. */
  lemma WrittenInOrder(v: Json)
    requires v.Obj?
    ensures Written(v).Fields?
    ensures forall i, j :: 0 <= i < j < |Written(v).pairs| ==> Precedes(Written(v).pairs[i].0, Written(v).pairs[j].0)
    ensures forall k :: k in v.fields <==> exists i :: 0 <= i < |Written(v).pairs| && Written(v).pairs[i].0 == k
  {
    var keys, pairs := Sorted(v.fields.Keys), Written(v).pairs;
    NamesWritten(v);
    forall i, j | 0 <= i < j < |keys| ensures Precedes(keys[i], keys[j]) { BeforeIsPrecedes(keys[i], keys[j]); }
    forall k | k in v.fields ensures exists i :: 0 <= i < |pairs| && pairs[i].0 == k {
      var i :| 0 <= i < |keys| && keys[i] == k;
      assert pairs[i].0 == k;
    }
    forall i | 0 <= i < |pairs| ensures pairs[i].0 in v.fields { assert keys[i] in keys; }
  }

  lemma NamesWritten(v: Json)
    requires v.Obj?
    ensures Written(v).Fields? && |Written(v).pairs| == |Sorted(v.fields.Keys)|
    ensures forall i :: 0 <= i < |Written(v).pairs| ==> Written(v).pairs[i].0 == Sorted(v.fields.Keys)[i]
  {
    assert Written(v) == Fields(WrittenPairs(v, Sorted(v.fields.Keys)));
  }

  /** json.dumps with sorted keys and minimal separators is spelled this way. */
  lemma CanonicalIsSpelled(v: Json)
    ensures Spells(Canonical(v), Written(v), None, 0)
  {
    PrintIsSpelled(Written(v), Compact, 0);
  }
}
