/** What printing a document loses and reading one rejects, exactly: surrogate pairs and repeated
    fields. */
module CanonicalLimits {
  import opened Wrappers
  import opened Text
  import opened Collections
  import opened CanonicalJson
  import opened CanonicalRoundTrip

  predicate Ascii(s: Codes) {
    forall i :: 0 <= i < |s| ==> s[i] < 128
  }

  // ----- The encoding is ASCII ----------------------------------------------------------------

  lemma {:induction false} EscapedIsAscii(t: Codes)
    ensures Ascii(EscapeAll(t))
  {
    if t != [] {
      EscapedIsAscii(t[1..]);
      assert Ascii(Escape(t[0]));
    }
  }

  lemma ScalarIsAscii(v: Json)
    requires IsScalar(v)
    ensures Ascii(PrintScalar(v))
  {
    match v
    case Str(t) => EscapedIsAscii(t);
    case Num(n) =>
      var d := Decimal(if n < 0 then -n else n);
      assert forall i :: 0 <= i < |d| ==> IsDigit(d[i]) && ToCodes(d)[i] == d[i] as int;
    case _ =>
  }

  lemma {:induction false} PrintIsAscii(d: Doc, l: Layout)
    requires Proper(d) && (l.Indented? ==> Ascii(l.eol))
    ensures Ascii(Print(d, l))
    decreases d, 1
  {
    match d
    case Atom(v) => ScalarIsAscii(v);
    case List(items) =>
      if items != [] {
        ItemsAreAscii(d, 0, Deeper(l));
        BracketsAreAscii(LBRACKET, PrintItems(d, 0, Deeper(l)), l, RBRACKET);
      }
    case Fields(pairs) =>
      if pairs != [] {
        PairsAreAscii(d, 0, Deeper(l));
        BracketsAreAscii(LBRACE, PrintPairs(d, 0, Deeper(l)), l, RBRACE);
      }
  }

  lemma BracketsAreAscii(open: Code, inner: Codes, l: Layout, close: Code)
    requires open < 128 && close < 128 && Ascii(inner) && (l.Indented? ==> Ascii(l.eol))
    ensures Ascii([open] + inner + Gap(l) + [close])
  {
  }

  lemma ItemsAreAscii(d: Doc, i: nat, l: Layout)
    requires Proper(d) && d.List? && i < |d.items| && (l.Indented? ==> Ascii(l.eol))
    ensures Ascii(PrintItems(d, i, l))
    decreases d, 0, |d.items| - i
  {
    PrintIsAscii(d.items[i], l);
    if i + 1 < |d.items| { ItemsAreAscii(d, i + 1, l); }
  }

  lemma PairsAreAscii(d: Doc, i: nat, l: Layout)
    requires Proper(d) && d.Fields? && i < |d.pairs| && (l.Indented? ==> Ascii(l.eol))
    ensures Ascii(PrintPairs(d, i, l))
    decreases d, 0, |d.pairs| - i
  {
    PrintIsAscii(d.pairs[i].1, l);
    PairIsAscii(d, i, l);
    AsciiSum(Gap(l), PrintPair(d, i, l));
    if i + 1 < |d.pairs| {
      PairsAreAscii(d, i + 1, l);
      AsciiSum([COMMA], PrintPairs(d, i + 1, l));
      AsciiSum(Gap(l) + PrintPair(d, i, l), [COMMA] + PrintPairs(d, i + 1, l));
    } else {
      AsciiSum(Gap(l) + PrintPair(d, i, l), []);
    }
  }

  lemma PairIsAscii(d: Doc, i: nat, l: Layout)
    requires Proper(d) && d.Fields? && i < |d.pairs| && Ascii(Print(d.pairs[i].1, l))
    ensures Ascii(PrintPair(d, i, l))
  {
    EscapedIsAscii(d.pairs[i].0);
    AsciiSum(PrintStr(d.pairs[i].0), ColonOf(l));
    AsciiSum(PrintStr(d.pairs[i].0) + ColonOf(l), Print(d.pairs[i].1, l));
  }

  lemma AsciiSum(a: Codes, b: Codes)
    requires Ascii(a) && Ascii(b)
    ensures Ascii(a + b)
  {
  }

  lemma CanonicalIsAscii(v: Json)
    ensures Ascii(Canonical(v))
  {
    PrintIsAscii(Written(v), Compact);
  }

  // ----- Surrogate pairs ----------------------------------------------------------------------

  function JoinPair(h: Code, l: Code): Code
    requires IsHigh(h) && IsLow(l)
  {
    0x1_0000 + (h - 0xd800) * 1024 + (l - 0xdc00)
  }

  /** Every surrogate pair replaced by the character it spells. */
  function Merge(t: Codes): Codes {
    if t == [] then []
    else if |t| >= 2 && IsHigh(t[0]) && IsLow(t[1]) then [JoinPair(t[0], t[1])] + Merge(t[2..])
    else [t[0]] + Merge(t[1..])
  }

  lemma {:induction false} MergeIsPaired(t: Codes)
    ensures WellPaired(Merge(t))
    ensures Merge(t) == [] <==> t == []
    ensures t != [] && IsLow(Merge(t)[0]) ==> IsLow(t[0])
  {
    if t != [] {
      if |t| >= 2 && IsHigh(t[0]) && IsLow(t[1]) {
        MergeIsPaired(t[2..]);
      } else {
        MergeIsPaired(t[1..]);
      }
    }
  }

  lemma PairEscapes(h: Code, l: Code)
    requires IsHigh(h) && IsLow(l)
    ensures Escape(JoinPair(h, l)) == Escape(h) + Escape(l)
  {
    assert HighOf(JoinPair(h, l)) == h && LowOf(JoinPair(h, l)) == l;
  }

  lemma EscapeFirst(c: Code, t: Codes)
    ensures EscapeAll([c] + t) == Escape(c) + EscapeAll(t)
  {
  }

  lemma Reassociate(a: Codes, b: Codes, c: Codes)
    ensures a + (b + c) == a + b + c
  {
  }

  lemma PairInFront(h: Code, l: Code, t: Codes, merged: Codes)
    requires IsHigh(h) && IsLow(l) && EscapeAll(merged) == EscapeAll(t)
    ensures EscapeAll([JoinPair(h, l)] + merged) == EscapeAll([h] + ([l] + t))
  {
    EscapeFirst(h, [l] + t);
    EscapeFirst(l, t);
    EscapeFirst(JoinPair(h, l), merged);
    PairEscapes(h, l);
    Reassociate(Escape(h), Escape(l), EscapeAll(t));
  }

  lemma {:induction false} MergeKeepsEscapes(t: Codes)
    ensures EscapeAll(Merge(t)) == EscapeAll(t)
  {
    if t == [] {
    } else if |t| >= 2 && IsHigh(t[0]) && IsLow(t[1]) {
      MergeKeepsEscapes(t[2..]);
      PairInFront(t[0], t[1], t[2..], Merge(t[2..]));
      assert t == [t[0]] + ([t[1]] + t[2..]);
    } else {
      MergeKeepsEscapes(t[1..]);
      EscapeFirst(t[0], t[1..]);
      EscapeFirst(t[0], Merge(t[1..]));
      assert t == [t[0]] + t[1..];
    }
  }

  lemma {:induction false} MergeOfPaired(t: Codes)
    requires WellPaired(t)
    ensures Merge(t) == t
  {
    if t != [] {
      MergeOfPaired(t[1..]);
    }
  }

  function MergedScalar(v: Json): Json {
    if v.Str? then Str(Merge(v.text)) else v
  }

  /** Every text and every name of the document merged; the order of its fields stays. */
  function Merged(d: Doc): (m: Doc)
    ensures m.List? <==> d.List?
    ensures m.Fields? <==> d.Fields?
  {
    match d
    case Atom(v) => Atom(MergedScalar(v))
    case List(items) => List(seq(|items|, i requires 0 <= i < |items| => Merged(items[i])))
    case Fields(pairs) =>
      Fields(seq(|pairs|, i requires 0 <= i < |pairs| => (Merge(pairs[i].0), Merged(pairs[i].1))))
  }

  lemma {:induction false} MergedIsProper(d: Doc)
    requires Proper(d)
    ensures Proper(Merged(d)) && Paired(Merged(d))
  {
    match d
    case Atom(v) => if v.Str? { MergeIsPaired(v.text); }
    case List(items) =>
      forall i | 0 <= i < |items| ensures Proper(Merged(items[i])) && Paired(Merged(items[i])) {
        MergedIsProper(items[i]);
      }
    case Fields(pairs) =>
      forall i | 0 <= i < |pairs|
        ensures WellPaired(Merge(pairs[i].0)) && Proper(Merged(pairs[i].1)) && Paired(Merged(pairs[i].1))
      {
        MergeIsPaired(pairs[i].0);
        MergedIsProper(pairs[i].1);
      }
  }

  lemma {:induction false} MergedOfPaired(d: Doc)
    requires Proper(d) && Paired(d)
    ensures Merged(d) == d
  {
    match d
    case Atom(v) => if v.Str? { MergeOfPaired(v.text); }
    case List(items) => forall i | 0 <= i < |items| ensures Merged(items[i]) == items[i] { MergedOfPaired(items[i]); }
    case Fields(pairs) =>
      forall i | 0 <= i < |pairs| ensures (Merge(pairs[i].0), Merged(pairs[i].1)) == pairs[i] {
        MergeOfPaired(pairs[i].0);
        MergedOfPaired(pairs[i].1);
      }
  }

  lemma {:induction false} MergingPrintsAlike(d: Doc, l: Layout)
    requires Proper(d) && Proper(Merged(d))
    ensures Print(Merged(d), l) == Print(d, l)
    decreases d, 1
  {
    match d
    case Atom(v) => if v.Str? { MergeKeepsEscapes(v.text); }
    case List(items) => if items != [] { MergingItems(d, 0, Deeper(l)); }
    case Fields(pairs) => if pairs != [] { MergingPairs(d, 0, Deeper(l)); }
  }

  lemma MergingItems(d: Doc, i: nat, l: Layout)
    requires Proper(d) && Proper(Merged(d)) && d.List? && i < |d.items|
    ensures PrintItems(Merged(d), i, l) == PrintItems(d, i, l)
    decreases d, 0, |d.items| - i
  {
    MergingPrintsAlike(d.items[i], l);
    if i + 1 < |d.items| { MergingItems(d, i + 1, l); }
  }

  lemma MergingPairs(d: Doc, i: nat, l: Layout)
    requires Proper(d) && Proper(Merged(d)) && d.Fields? && i < |d.pairs|
    ensures PrintPairs(Merged(d), i, l) == PrintPairs(d, i, l)
    decreases d, 0, |d.pairs| - i
  {
    MergeKeepsEscapes(d.pairs[i].0);
    MergingPrintsAlike(d.pairs[i].1, l);
    if i + 1 < |d.pairs| { MergingPairs(d, i + 1, l); }
  }

  /** Whatever is printed, in either layout, is read back as the merged document. */
  lemma ReadsAsMerged(d: Doc, l: Layout)
    requires Proper(d) && Blank(l)
    ensures ReadText(Print(d, l)) == Some(Merged(d))
  {
    MergedIsProper(d);
    MergingPrintsAlike(d, l);
    TextReadsBack(Merged(d), l);
  }

  /** Two documents are printed alike exactly when merging their surrogate pairs makes them equal:
      the same texts, the same names, in the same order. */
  lemma SamePrintIffSameMerge(d: Doc, e: Doc, l: Layout)
    requires Proper(d) && Proper(e) && Blank(l)
    ensures Print(d, l) == Print(e, l) <==> Merged(d) == Merged(e)
  {
    ReadsAsMerged(d, l);
    ReadsAsMerged(e, l);
    MergedIsProper(d);
    MergedIsProper(e);
    MergingPrintsAlike(d, l);
    MergingPrintsAlike(e, l);
  }

  /** So the encoding is not injective on all Python strings: U+D83D U+DE00 and U+1F600 collide. */
  lemma PairCollides()
    ensures var split: Codes := [0xd83d, 0xde00];
            var joined: Codes := [0x1f600];
            Canonical(Str(split)) == Canonical(Str(joined)) && split != joined
  {
    var split: Codes := [0xd83d, 0xde00];
    var joined: Codes := [0x1f600];
    assert split[2..] == [] && split[0] == 0xd83d && split[1] == 0xde00;
    assert Merge(split) == [JoinPair(0xd83d, 0xde00)] + Merge([]);
    MergeOfPaired(joined);
    SamePrintIffSameMerge(Atom(Str(split)), Atom(Str(joined)), Compact);
  }

  // ----- Values -------------------------------------------------------------------------------

  predicate AllPaired(v: Json) {
    match v
    case Str(t) => WellPaired(t)
    case Arr(items) => forall i :: 0 <= i < |items| ==> AllPaired(items[i])
    case Obj(fields) => forall k :: k in fields ==> WellPaired(k) && AllPaired(fields[k])
    case _ => true
  }

  /** What is written of a value has that value. */
  lemma {:induction false} WrittenLoads(v: Json)
    ensures Loaded(Written(v)) == Some(v)
    decreases v, 1
  {
    match v
    case Arr(items) =>
      WrittenItemsLoad(v, 0);
      assert items[0..] == items;
    case Obj(fields) =>
      var keys := Sorted(fields.Keys);
      SortedDistinct(keys);
      forall a | 0 <= a < |keys| ensures Written(v).pairs[a] == (keys[a], Written(fields[keys[a]])) {
        WrittenAt(v, keys, a);
      }
      WrittenPairsLoad(v, keys, Written(v), 0, map[]);
    case _ =>
  }

  lemma ItemLoads(d: Doc, i: nat, first: Json, rest: seq<Json>)
    requires d.List? && i < |d.items| && Loaded(d.items[i]) == Some(first) && LoadedItems(d, i + 1) == Some(rest)
    ensures LoadedItems(d, i) == Some([first] + rest)
  {
  }

  lemma WrittenItemsLoad(v: Json, i: nat)
    requires v.Arr? && i <= |v.items|
    ensures LoadedItems(Written(v), i) == Some(v.items[i..])
    decreases v, 0, |v.items| - i
  {
    var d := Written(v);
    assert d.List? && |d.items| == |v.items|;
    if i < |v.items| {
      assert d.items[i] == Written(v.items[i]);
      WrittenLoads(v.items[i]);
      WrittenItemsLoad(v, i + 1);
      ItemLoads(d, i, v.items[i], v.items[i + 1..]);
      assert v.items[i..] == [v.items[i]] + v.items[i + 1..];
    } else {
      assert v.items[i..] == [];
    }
  }

  lemma WrittenAt(v: Json, keys: seq<Codes>, i: nat)
    requires v.Obj? && (forall k :: k in keys ==> k in v.fields) && i < |keys|
    ensures WrittenPairs(v, keys)[i] == (keys[i], Written(v.fields[keys[i]]))
    decreases i
  {
    if i > 0 { WrittenAt(v, keys[1..], i - 1); }
  }

  /** The fields of `v` named before the i-th of its names. */
  ghost predicate FirstFields(v: Json, keys: seq<Codes>, i: nat, seen: map<Codes, Json>)
    requires v.Obj? && i <= |keys|
  {
    forall k :: (k in seen <==> k in keys[..i]) && (k in seen ==> k in v.fields && seen[k] == v.fields[k])
  }

  lemma WrittenPairsLoad(v: Json, keys: seq<Codes>, d: Doc, i: nat, seen: map<Codes, Json>)
    requires v.Obj? && (forall k :: k in keys <==> k in v.fields) && NoDup(keys)
    requires d.Fields? && |d.pairs| == |keys|
    requires forall a :: 0 <= a < |keys| ==> d.pairs[a] == (keys[a], Written(v.fields[keys[a]]))
    requires i <= |keys| && FirstFields(v, keys, i, seen)
    ensures LoadedPairs(d, i, seen) == Some(v.fields)
    decreases v, 0, |keys| - i
  {
    if i == |keys| {
      AllFields(v, keys, seen);
    } else {
      var k := keys[i];
      WrittenLoads(v.fields[k]);
      OneMoreField(v, keys, i, seen);
      PairLoads(d, i, seen, v.fields[k]);
      WrittenPairsLoad(v, keys, d, i + 1, seen[k := v.fields[k]]);
    }
  }

  lemma PairLoads(d: Doc, i: nat, seen: map<Codes, Json>, value: Json)
    requires d.Fields? && i < |d.pairs| && d.pairs[i].0 !in seen && Loaded(d.pairs[i].1) == Some(value)
    ensures LoadedPairs(d, i, seen) == LoadedPairs(d, i + 1, seen[d.pairs[i].0 := value])
  {
  }

  lemma SortedDistinct(keys: seq<Codes>)
    requires forall a, b :: 0 <= a < b < |keys| ==> Before(keys[a], keys[b])
    ensures NoDup(keys)
  {
    forall a, b | 0 <= a < b < |keys| ensures keys[a] != keys[b] { BeforeTotal(keys[a], keys[b]); }
  }

  lemma AllFields(v: Json, keys: seq<Codes>, seen: map<Codes, Json>)
    requires v.Obj? && (forall k :: k in keys <==> k in v.fields) && FirstFields(v, keys, |keys|, seen)
    ensures seen == v.fields
  {
    assert keys[..|keys|] == keys && seen.Keys == v.fields.Keys;
  }

  lemma OneMoreField(v: Json, keys: seq<Codes>, i: nat, seen: map<Codes, Json>)
    requires v.Obj? && (forall k :: k in keys <==> k in v.fields) && NoDup(keys)
    requires i < |keys| && FirstFields(v, keys, i, seen)
    ensures keys[i] !in seen && FirstFields(v, keys, i + 1, seen[keys[i] := v.fields[keys[i]]])
  {
    assert keys[..i + 1] == keys[..i] + [keys[i]];
  }

  lemma {:induction false} WrittenIsPaired(v: Json)
    requires AllPaired(v)
    ensures Paired(Written(v))
  {
    match v
    case Arr(items) => forall i | 0 <= i < |items| ensures Paired(Written(items[i])) { WrittenIsPaired(items[i]); }
    case Obj(fields) =>
      var keys := Sorted(fields.Keys);
      forall i | 0 <= i < |keys| ensures WellPaired(keys[i]) && Paired(WrittenPairs(v, keys)[i].1) {
        WrittenAt(v, keys, i);
        WrittenIsPaired(fields[keys[i]]);
      }
    case _ =>
  }

  lemma {:induction false} LoadedIsPaired(d: Doc)
    requires Proper(d) && Paired(d) && Loaded(d).Some?
    ensures AllPaired(Loaded(d).value)
    decreases d, 1
  {
    match d
    case Atom(v) =>
    case List(items) => LoadedItemsArePaired(d, 0);
    case Fields(pairs) => LoadedPairsArePaired(d, 0, map[]);
  }

  lemma LoadedItemsArePaired(d: Doc, i: nat)
    requires Proper(d) && Paired(d) && d.List? && i <= |d.items| && LoadedItems(d, i).Some?
    ensures forall v :: v in LoadedItems(d, i).value ==> AllPaired(v)
    decreases d, 0, |d.items| - i
  {
    if i < |d.items| {
      LoadedIsPaired(d.items[i]);
      LoadedItemsArePaired(d, i + 1);
    }
  }

  ghost predicate FieldsPaired(fields: map<Codes, Json>) {
    forall k :: k in fields ==> WellPaired(k) && AllPaired(fields[k])
  }

  lemma LoadedPairsArePaired(d: Doc, i: nat, seen: map<Codes, Json>)
    requires Proper(d) && Paired(d) && d.Fields? && i <= |d.pairs| && FieldsPaired(seen)
    requires LoadedPairs(d, i, seen).Some?
    ensures FieldsPaired(LoadedPairs(d, i, seen).value)
    decreases d, 0, |d.pairs| - i
  {
    if i < |d.pairs| {
      LoadedIsPaired(d.pairs[i].1);
      LoadedPairsArePaired(d, i + 1, seen[d.pairs[i].0 := Loaded(d.pairs[i].1).value]);
    }
  }

  /** Reading back the canonical encoding gives the value exactly when no text of it, key or value, has
      a high surrogate directly before a low one. */
  lemma RoundTripIffPaired(v: Json)
    ensures Parse(Canonical(v)) == Some(v) <==> AllPaired(v)
  {
    var d := Written(v);
    ReadsAsMerged(d, Compact);
    WrittenLoads(v);
    MergedIsProper(d);
    if AllPaired(v) {
      WrittenIsPaired(v);
      MergedOfPaired(d);
    } else if Loaded(Merged(d)) == Some(v) {
      LoadedIsPaired(Merged(d));
    }
  }

  /** Two values are encoded alike exactly when what is written of them merges to the same document. */
  lemma SameCodeIffSameMerge(v: Json, w: Json)
    ensures Canonical(v) == Canonical(w) <==> Merged(Written(v)) == Merged(Written(w))
  {
    SamePrintIffSameMerge(Written(v), Written(w), Compact);
  }

  /** Equal digests of canonical encodings therefore mean equal values, where no text pairs surrogates. */
  lemma CanonicalInjective(v: Json, w: Json)
    requires AllPaired(v) && AllPaired(w) && Canonical(v) == Canonical(w)
    ensures v == w
  {
    RoundTripIffPaired(v);
    RoundTripIffPaired(w);
  }

  // ----- Repeated fields ----------------------------------------------------------------------

  /** Some object of the document, at whatever depth, names a field twice. */
  ghost predicate RepeatsField(d: Doc) {
    match d
    case Atom(v) => false
    case List(items) => exists i :: 0 <= i < |items| && RepeatsField(items[i])
    case Fields(pairs) =>
      || (exists i :: 0 <= i < |pairs| && RepeatsField(pairs[i].1))
      || (exists i, j :: 0 <= i < j < |pairs| && pairs[i].0 == pairs[j].0)
  }

  lemma {:induction false} LoadedIff(d: Doc)
    ensures Loaded(d) == None <==> RepeatsField(d)
    decreases d, 1
  {
    match d
    case Atom(v) =>
    case List(items) => LoadedItemsIff(d, 0);
    case Fields(pairs) => LoadedPairsIff(d, 0, map[]);
  }

  lemma LoadedItemsIff(d: Doc, i: nat)
    requires d.List? && i <= |d.items|
    ensures LoadedItems(d, i) == None <==> exists j :: i <= j < |d.items| && RepeatsField(d.items[j])
    decreases d, 0, |d.items| - i
  {
    if i < |d.items| {
      LoadedIff(d.items[i]);
      LoadedItemsIff(d, i + 1);
    }
  }

  lemma LoadedPairsIff(d: Doc, i: nat, seen: map<Codes, Json>)
    requires d.Fields? && i <= |d.pairs|
    requires forall k :: k in seen <==> exists j :: 0 <= j < i && d.pairs[j].0 == k
    ensures LoadedPairs(d, i, seen) == None <==>
              || (exists j :: i <= j < |d.pairs| && RepeatsField(d.pairs[j].1))
              || (exists a, b :: 0 <= a < b < |d.pairs| && i <= b && d.pairs[a].0 == d.pairs[b].0)
    decreases d, 0, |d.pairs| - i
  {
    if i < |d.pairs| {
      LoadedIff(d.pairs[i].1);
      if d.pairs[i].0 !in seen && Loaded(d.pairs[i].1).Some? {
        LoadedPairsIff(d, i + 1, seen[d.pairs[i].0 := Loaded(d.pairs[i].1).value]);
      }
    }
  }

  /** A printed document is rejected exactly when, its surrogate pairs merged, it repeats a field. */
  lemma RejectedIffRepeated(d: Doc, l: Layout)
    requires Proper(d) && Blank(l)
    ensures Parse(Print(d, l)) == None <==> RepeatsField(Merged(d))
  {
    ReadsAsMerged(d, l);
    LoadedIff(Merged(d));
  }

  /** `_pairs` itself, on the fields of one object as they come. */
  method TakePairs(pairs: seq<(Codes, Json)>) returns (r: Option<map<Codes, Json>>)
    ensures r == None <==> exists i, j :: 0 <= i < j < |pairs| && pairs[i].0 == pairs[j].0
    ensures r.Some? ==> forall k :: k in r.value <==> exists i :: 0 <= i < |pairs| && pairs[i].0 == k
    ensures r.Some? ==> forall i :: 0 <= i < |pairs| ==> pairs[i].0 in r.value && r.value[pairs[i].0] == pairs[i].1
  {
    var result: map<Codes, Json> := map[];
    for n := 0 to |pairs|
      invariant forall k :: k in result <==> exists i :: 0 <= i < n && pairs[i].0 == k
      invariant forall i, j :: 0 <= i < j < n ==> pairs[i].0 != pairs[j].0
      invariant forall i :: 0 <= i < n ==> pairs[i].0 in result && result[pairs[i].0] == pairs[i].1
    {
      if pairs[n].0 in result { return None; }
      result := result[pairs[n].0 := pairs[n].1];
    }
    return Some(result);
  }
}
