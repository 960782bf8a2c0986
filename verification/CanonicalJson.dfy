/** json.dumps with sorted keys and ASCII escapes - minimal separators or indented - and the
    duplicate-rejecting reader of `read_json`, over documents without floating-point numbers.

    Text is a sequence of code points, surrogates included: that is what Python strings hold. */
module CanonicalJson {
  import opened Wrappers
  import opened Text

  type Code = c: int | 0 <= c < 0x11_0000
  type Codes = seq<Code>

  datatype Json =
    | Null
    | Bool(flag: bool)
    | Num(n: int)
    | Str(text: Codes)
    | Arr(items: seq<Json>)
    | Obj(fields: map<Codes, Json>)

  /** A document as it stands in a text: the fields of an object in order, repetitions included. */
  datatype Doc =
    | Atom(value: Json)
    | List(items: seq<Doc>)
    | Fields(pairs: seq<(Codes, Doc)>)

  const QUOTE: Code := 34
  const BACKSLASH: Code := 92
  const COMMA: Code := 44
  const COLON: Code := 58
  const LBRACKET: Code := 91
  const RBRACKET: Code := 93
  const LBRACE: Code := 123
  const RBRACE: Code := 125
  const MINUS: Code := 45

  predicate IsHigh(c: Code) { 0xd800 <= c <= 0xdbff }
  predicate IsLow(c: int) { 0xdc00 <= c <= 0xdfff }

  // ----- Key order ----------------------------------------------------------------------------

  predicate Before(a: Codes, b: Codes) {
    b != [] && (a == [] || a[0] < b[0] || (a[0] == b[0] && Before(a[1..], b[1..])))
  }

  lemma {:induction false} BeforeTotal(a: Codes, b: Codes)
    ensures Before(a, b) || a == b || Before(b, a)
    ensures !(Before(a, b) && Before(b, a)) && !Before(a, a)
  {
    if a != [] && b != [] {
      BeforeTotal(a[1..], b[1..]);
      if a[0] == b[0] && a[1..] == b[1..] { assert a == [a[0]] + a[1..] == b; }
    }
    if a != [] { BeforeTotal(a[1..], a[1..]); }
  }

  lemma {:induction false} BeforeTransitive(a: Codes, b: Codes, c: Codes)
    requires Before(a, b) && Before(b, c)
    ensures Before(a, c)
  {
    if a != [] && a[0] == b[0] == c[0] {
      BeforeTransitive(a[1..], b[1..], c[1..]);
    }
  }

  ghost predicate IsLeast(k: Codes, keys: set<Codes>) {
    k in keys && forall j :: j in keys ==> j == k || Before(k, j)
  }

  lemma LeastExists(keys: set<Codes>)
    requires keys != {}
    ensures exists k :: IsLeast(k, keys)
  {
    var a :| a in keys;
    if keys == {a} {
      assert IsLeast(a, keys);
    } else {
      var rest := keys - {a};
      LeastExists(rest);
      var b :| IsLeast(b, rest);
      BeforeTotal(a, b);
      forall j | j in rest && j != b ensures Before(a, b) ==> Before(a, j) {
        if Before(a, b) { BeforeTransitive(a, b, j); }
      }
      assert IsLeast(a, keys) || IsLeast(b, keys);
    }
  }

  /** sorted(keys). */
  ghost function Sorted(keys: set<Codes>): (ks: seq<Codes>)
    ensures forall k :: k in ks <==> k in keys
    ensures forall i, j :: 0 <= i < j < |ks| ==> Before(ks[i], ks[j])
  {
    if keys == {} then []
    else
      LeastExists(keys);
      var k :| IsLeast(k, keys);
      [k] + Sorted(keys - {k})
  }

  // ----- Printing -----------------------------------------------------------------------------

  function ToCodes(s: string): (t: Codes)
    ensures |t| == |s|
  {
    seq(|s|, i requires 0 <= i < |s| => s[i] as int)
  }

  function Hex(d: int): Code
    requires 0 <= d < 16
  {
    if d < 10 then 48 + d else 87 + d
  }

  /** The last `n` hexadecimal digits of `u`. */
  function HexDigits(u: nat, n: nat): (t: Codes)
    ensures |t| == n && forall i :: 0 <= i < n ==> t[i] < 128
  {
    if n == 0 then [] else HexDigits(u / 16, n - 1) + [Hex(u % 16)]
  }

  /** A six-character escape; the input is one UTF-16 unit. */
  function Unit(u: int): (t: Codes)
    requires 0 <= u < 0x1_0000
    ensures |t| == 6
  {
    [BACKSLASH, 117] + HexDigits(u, 4)
  }

  function HighOf(c: Code): int requires c >= 0x1_0000 { 0xd800 + (c - 0x1_0000) / 1024 }
  function LowOf(c: Code): int requires c >= 0x1_0000 { 0xdc00 + (c - 0x1_0000) % 1024 }

  function Escape(c: Code): Codes {
    if c == 34 then [BACKSLASH, 34]
    else if c == 92 then [BACKSLASH, 92]
    else if c == 10 then [BACKSLASH, 110]
    else if c == 13 then [BACKSLASH, 114]
    else if c == 9 then [BACKSLASH, 116]
    else if c == 12 then [BACKSLASH, 102]
    else if c == 8 then [BACKSLASH, 98]
    else if 32 <= c <= 126 then [c]
    else if c < 0x1_0000 then Unit(c)
    else Unit(HighOf(c)) + Unit(LowOf(c))
  }

  function EscapeAll(t: Codes): Codes {
    if t == [] then [] else Escape(t[0]) + EscapeAll(t[1..])
  }

  function PrintStr(t: Codes): Codes {
    [QUOTE] + EscapeAll(t) + [QUOTE]
  }

  function PrintInt(n: int): Codes {
    if n < 0 then [MINUS] + ToCodes(Decimal(-n)) else ToCodes(Decimal(n))
  }

  const NULL: Codes := [110, 117, 108, 108]
  const TRUE: Codes := [116, 114, 117, 101]
  const FALSE: Codes := [102, 97, 108, 115, 101]

  /** With minimal separators, or one item a line, two spaces deeper than what holds it. */
  datatype Layout = Compact | Indented(depth: nat, eol: Codes)

  function Spaces(n: nat): (t: Codes)
    ensures |t| == n && forall i :: 0 <= i < n ==> t[i] == 32
  {
    seq(n, i => 32)
  }

  /** What stands in front of an item, and in front of the closing bracket of what it holds. */
  function Gap(l: Layout): Codes {
    match l
    case Compact => []
    case Indented(depth, eol) => eol + Spaces(2 * depth)
  }

  function Deeper(l: Layout): Layout {
    match l
    case Compact => l
    case Indented(depth, eol) => Indented(depth + 1, eol)
  }

  function ColonOf(l: Layout): Codes {
    if l.Compact? then [COLON] else [COLON, 32]
  }

  predicate IsScalar(v: Json) { !v.Arr? && !v.Obj? }

  /** Lists and objects are no atoms. */
  predicate Proper(d: Doc) {
    match d
    case Atom(v) => IsScalar(v)
    case List(items) => forall i :: 0 <= i < |items| ==> Proper(items[i])
    case Fields(pairs) => forall i :: 0 <= i < |pairs| ==> Proper(pairs[i].1)
  }

  function PrintScalar(v: Json): Codes
    requires IsScalar(v)
  {
    match v
    case Null => NULL
    case Bool(b) => if b then TRUE else FALSE
    case Num(n) => PrintInt(n)
    case Str(t) => PrintStr(t)
  }

  function Print(d: Doc, l: Layout): Codes
    requires Proper(d)
    decreases d, 0
  {
    match d
    case Atom(v) => PrintScalar(v)
    case List(items) =>
      if items == [] then [LBRACKET, RBRACKET]
      else [LBRACKET] + PrintItems(d, 0, Deeper(l)) + Gap(l) + [RBRACKET]
    case Fields(pairs) =>
      if pairs == [] then [LBRACE, RBRACE]
      else [LBRACE] + PrintPairs(d, 0, Deeper(l)) + Gap(l) + [RBRACE]
  }

  function PrintItems(d: Doc, i: nat, l: Layout): Codes
    requires Proper(d) && d.List? && i < |d.items|
    decreases d, 0, |d.items| - i
  {
    Gap(l) + Print(d.items[i], l) + (if i + 1 == |d.items| then [] else [COMMA] + PrintItems(d, i + 1, l))
  }

  function PrintPair(d: Doc, i: nat, l: Layout): Codes
    requires Proper(d) && d.Fields? && i < |d.pairs|
    decreases d, 0, 0
  {
    PrintStr(d.pairs[i].0) + ColonOf(l) + Print(d.pairs[i].1, l)
  }

  function PrintPairs(d: Doc, i: nat, l: Layout): Codes
    requires Proper(d) && d.Fields? && i < |d.pairs|
    decreases d, 0, |d.pairs| - i
  {
    Gap(l) + PrintPair(d, i, l) + (if i + 1 == |d.pairs| then [] else [COMMA] + PrintPairs(d, i + 1, l))
  }

  // ----- Documents and values -----------------------------------------------------------------

  /** sort_keys: the fields of every object in the order of their names. */
  ghost function Written(v: Json): (d: Doc)
    ensures Proper(d)
    decreases v, 1
  {
    match v
    case Arr(items) => List(seq(|items|, i requires 0 <= i < |items| => Written(items[i])))
    case Obj(fields) => Fields(WrittenPairs(v, Sorted(fields.Keys)))
    case _ => Atom(v)
  }

  ghost function WrittenPairs(v: Json, keys: seq<Codes>): (ps: seq<(Codes, Doc)>)
    requires v.Obj? && forall k :: k in keys ==> k in v.fields
    ensures |ps| == |keys|
    ensures forall i :: 0 <= i < |ps| ==> ps[i].0 == keys[i] && Proper(ps[i].1)
    decreases v, 0, |keys|
  {
    if keys == [] then [] else [(keys[0], Written(v.fields[keys[0]]))] + WrittenPairs(v, keys[1..])
  }

  ghost function Canonical(v: Json): Codes {
    Print(Written(v), Compact)
  }

  // ----- Reading ------------------------------------------------------------------------------

  predicate IsSpace(c: Code) { c == 32 || c == 9 || c == 10 || c == 13 }

  function Skip(s: Codes): (r: Codes)
    ensures |r| <= |s|
  {
    if s != [] && IsSpace(s[0]) then Skip(s[1..]) else s
  }

  predicate IsDigitCode(c: Code) { 48 <= c <= 57 }

  function HexValue(c: Code): (r: Option<int>)
    ensures r.Some? ==> 0 <= r.value < 16
  {
    if 48 <= c <= 57 then Some(c - 48)
    else if 97 <= c <= 102 then Some(c - 87)
    else if 65 <= c <= 70 then Some(c - 55)
    else None
  }

  /** Four hexadecimal digits. */
  function ReadUnit(s: Codes): (r: Option<int>)
    ensures r.Some? ==> |s| >= 4 && 0 <= r.value < 0x1_0000
  {
    if |s| < 4 then None
    else
      var a, b, c, d := HexValue(s[0]), HexValue(s[1]), HexValue(s[2]), HexValue(s[3]);
      if a.Some? && b.Some? && c.Some? && d.Some?
      then Some(4096 * a.value + 256 * b.value + 16 * c.value + d.value)
      else None
  }

  function SimpleEscape(c: Code): Option<Code> {
    if c == 34 || c == 92 || c == 47 then Some(c)
    else if c == 98 then Some(8)
    else if c == 102 then Some(12)
    else if c == 110 then Some(10)
    else if c == 114 then Some(13)
    else if c == 116 then Some(9)
    else None
  }

  /** One character of a string body and what follows it.  An escaped high surrogate swallows an
      escaped low surrogate right behind it. */
  function ReadChar(s: Codes): (r: Option<(Code, Codes)>)
    requires s != []
    ensures r.Some? ==> |r.value.1| < |s|
  {
    if s[0] < 32 then None
    else if s[0] != BACKSLASH then Some((s[0], s[1..]))
    else if |s| < 2 then None
    else if s[1] != 117 then
      var e := SimpleEscape(s[1]);
      if e.Some? then Some((e.value, s[2..])) else None
    else
      var u := ReadUnit(s[2..]);
      if u == None then None
      else if IsHigh(u.value) && |s| >= 8 && s[6] == BACKSLASH && s[7] == 117 then
        var l := ReadUnit(s[8..]);
        if l == None then None
        else if IsLow(l.value)
          then Some((0x1_0000 + (u.value - 0xd800) * 1024 + (l.value - 0xdc00), s[12..]))
          else Some((u.value, s[6..]))
      else Some((u.value, s[6..]))
  }

  /** A string body up to its closing quote. */
  function ReadChars(s: Codes): (r: Option<(Codes, Codes)>)
    ensures r.Some? ==> |r.value.1| < |s|
  {
    if s == [] then None
    else if s[0] == QUOTE then Some(([], s[1..]))
    else
      var c := ReadChar(s);
      if c == None then None
      else
        var rest := ReadChars(c.value.1);
        if rest == None then None else Some(([c.value.0] + rest.value.0, rest.value.1))
  }

  function DigitCount(s: Codes): (n: nat)
    ensures n <= |s| && forall i :: 0 <= i < n ==> IsDigitCode(s[i])
    ensures n < |s| ==> !IsDigitCode(s[n])
  {
    if s != [] && IsDigitCode(s[0]) then 1 + DigitCount(s[1..]) else 0
  }

  function ToDigits(t: Codes): (s: string)
    requires forall i :: 0 <= i < |t| ==> IsDigitCode(t[i])
    ensures |s| == |t| && AllDigits(s) && forall i :: 0 <= i < |t| ==> s[i] as int == t[i]
  {
    if t == [] then [] else assert IsDigitCode(t[0]); [t[0] as char] + ToDigits(t[1..])
  }

  /** A number without fraction or exponent; one with either is a float and not read here. */
  function ReadNat(s: Codes): (r: Option<(nat, Codes)>)
    ensures r.Some? ==> |r.value.1| < |s|
  {
    var k := DigitCount(s);
    if k == 0 then None
    else
      var n := if s[0] == 48 then 1 else k;
      if n < |s| && s[n] in {46, 69, 101} then None
      else Some((Numeral(ToDigits(s[..n])), s[n..]))
  }

  /** A string, a literal or a number. */
  function ReadScalar(s: Codes): (r: Option<(Json, Codes)>)
    ensures r.Some? ==> |r.value.1| < |s|
  {
    if s == [] then None
    else if s[0] == QUOTE then
      var t := ReadChars(s[1..]);
      if t == None then None else Some((Str(t.value.0), t.value.1))
    else if NULL <= s then Some((Null, s[4..]))
    else if TRUE <= s then Some((Bool(true), s[4..]))
    else if FALSE <= s then Some((Bool(false), s[5..]))
    else if s[0] == MINUS then
      var n := ReadNat(s[1..]);
      if n == None then None else Some((Num(0 - n.value.0), n.value.1))
    else
      var n := ReadNat(s);
      if n == None then None else Some((Num(n.value.0), n.value.1))
  }

  function ReadDoc(s: Codes): (r: Option<(Doc, Codes)>)
    ensures r.Some? ==> |r.value.1| < |s|
    decreases |s|, 1
  {
    if s == [] then None
    else if s[0] == LBRACKET then ReadList(Skip(s[1..]))
    else if s[0] == LBRACE then ReadObject(Skip(s[1..]))
    else
      var v := ReadScalar(s);
      if v == None then None else Some((Atom(v.value.0), v.value.1))
  }

  /** What stands behind an opening bracket. */
  function ReadList(body: Codes): (r: Option<(Doc, Codes)>)
    ensures r.Some? ==> |r.value.1| < |body|
    decreases |body|, 3
  {
    if body != [] && body[0] == RBRACKET then Some((List([]), body[1..]))
    else
      var items := ReadItems(body);
      if items == None then None else Some((List(items.value.0), items.value.1))
  }

  function ReadItems(s: Codes): (r: Option<(seq<Doc>, Codes)>)
    ensures r.Some? ==> |r.value.1| < |s|
    decreases |s|, 2
  {
    var v := ReadDoc(s);
    if v == None then None
    else
      var rest := Skip(v.value.1);
      if rest == [] then None
      else if rest[0] == RBRACKET then Some(([v.value.0], rest[1..]))
      else if rest[0] == COMMA then
        var more := ReadItems(Skip(rest[1..]));
        if more == None then None else Some(([v.value.0] + more.value.0, more.value.1))
      else None
  }

  /** A field name and its colon; what remains starts at the value. */
  function ReadKey(s: Codes): (r: Option<(Codes, Codes)>)
    ensures r.Some? ==> |r.value.1| < |s|
  {
    if s == [] || s[0] != QUOTE then None
    else
      var k := ReadChars(s[1..]);
      if k == None then None
      else
        var afterKey := Skip(k.value.1);
        if afterKey == [] || afterKey[0] != COLON then None
        else Some((k.value.0, Skip(afterKey[1..])))
  }

  /** What stands behind an opening brace. */
  function ReadObject(body: Codes): (r: Option<(Doc, Codes)>)
    ensures r.Some? ==> |r.value.1| < |body|
    decreases |body|, 3
  {
    if body != [] && body[0] == RBRACE then Some((Fields([]), body[1..]))
    else
      var pairs := ReadPairs(body);
      if pairs == None then None else Some((Fields(pairs.value.0), pairs.value.1))
  }

  function ReadPairs(s: Codes): (r: Option<(seq<(Codes, Doc)>, Codes)>)
    ensures r.Some? ==> |r.value.1| < |s|
    decreases |s|, 2
  {
    var k := ReadKey(s);
    if k == None then None
    else
      var v := ReadDoc(k.value.1);
      if v == None then None
      else
        var rest := Skip(v.value.1);
        if rest == [] then None
        else if rest[0] == RBRACE then Some(([(k.value.0, v.value.0)], rest[1..]))
        else if rest[0] == COMMA then
          var more := ReadPairs(Skip(rest[1..]));
          if more == None then None else Some(([(k.value.0, v.value.0)] + more.value.0, more.value.1))
        else None
  }

  /** The value of a document; an object that names a field twice has none. */
  function Loaded(d: Doc): Option<Json>
    decreases d, 1
  {
    match d
    case Atom(v) => Some(v)
    case List(items) =>
      var vs := LoadedItems(d, 0);
      if vs == None then None else Some(Arr(vs.value))
    case Fields(pairs) =>
      var fields := LoadedPairs(d, 0, map[]);
      if fields == None then None else Some(Obj(fields.value))
  }

  function LoadedItems(d: Doc, i: nat): Option<seq<Json>>
    requires d.List? && i <= |d.items|
    decreases d, 0, |d.items| - i
  {
    if i == |d.items| then Some([])
    else
      var v, rest := Loaded(d.items[i]), LoadedItems(d, i + 1);
      if v == None || rest == None then None else Some([v.value] + rest.value)
  }

  /** `_pairs`. */
  function LoadedPairs(d: Doc, i: nat, seen: map<Codes, Json>): Option<map<Codes, Json>>
    requires d.Fields? && i <= |d.pairs|
    decreases d, 0, |d.pairs| - i
  {
    if i == |d.pairs| then Some(seen)
    else if d.pairs[i].0 in seen then None
    else
      var v := Loaded(d.pairs[i].1);
      if v == None then None else LoadedPairs(d, i + 1, seen[d.pairs[i].0 := v.value])
  }

  /** json.loads of a whole text: one document, white space around it, and nothing else. */
  function ReadText(s: Codes): Option<Doc> {
    var d := ReadDoc(Skip(s));
    if d.Some? && Skip(d.value.1) == [] then Some(d.value.0) else None
  }

  function Parse(s: Codes): Option<Json> {
    var d := ReadText(s);
    if d == None then None else Loaded(d.value)
  }
}
