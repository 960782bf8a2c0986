/** What the edits mean for the lists of features, and what a whole startup sequence leaves behind. */
module FlagStartup {
  import opened Wrappers
  import opened Collections
  import opened ChromiumFlags
  import opened FlagText
  import opened FlagSwitches
  import opened FlagTheorems
  import opened Text

  /** The features a switch lists; none when the switch is missing. */
  function Entries(ts: seq<string>, p: string): seq<string> {
    match FirstWith(ts, p)
    case None => []
    case Some(t) => if p <= t then Split(t[|p|..], ',') else []
  }

  /** The tokens that are neither switch. */
  function Others(ts: seq<string>): seq<string> {
    if ts == [] then []
    else (if ENABLE <= ts[0] || DISABLE <= ts[0] then [] else [ts[0]]) + Others(ts[1..])
  }

  lemma {:induction false} OthersAppend(a: seq<string>, b: seq<string>)
    ensures Others(a + b) == Others(a) + Others(b)
  {
    if a == [] {
      assert a + b == b;
    } else {
      assert (a + b)[1..] == a[1..] + b;
      OthersAppend(a[1..], b);
    }
  }

  lemma {:induction false} ReplaceKeepsOthers(ts: seq<string>, p: string, r: seq<string>)
    requires IsSwitch(p) && Others(r) == []
    ensures Others(ReplaceFirst(ts, p, r)) == Others(ts)
  {
    if ts != [] {
      if p <= ts[0] {
        OthersAppend(r, ts[1..]);
      } else {
        ReplaceKeepsOthers(ts[1..], p, r);
        var rest := ReplaceFirst(ts[1..], p, r);
        assert ([ts[0]] + rest)[1..] == rest;
      }
    }
  }

  lemma {:induction false} FirstOfReplaced(ts: seq<string>, p: string, x: string)
    requires FirstWith(ts, p).Some? && p <= x
    ensures FirstWith(ReplaceFirst(ts, p, [x]), p) == Some(x)
  {
    if p <= ts[0] {
      assert ([x] + ts[1..])[0] == x;
    } else {
      FirstOfReplaced(ts[1..], p, x);
      var rest := ReplaceFirst(ts[1..], p, [x]);
      assert ([ts[0]] + rest)[1..] == rest;
    }
  }

  lemma SplitExtended(v: string, f: string)
    requires ',' !in f
    ensures Split(v + "," + f, ',') == Split(v, ',') + [f]
  {
    var entries := Split(v, ',');
    JoinAppend(entries, [f], ',');
    SplitOfJoin(entries + [f], ',');
  }

  lemma SplitSingle(f: string)
    requires ',' !in f
    ensures Split(f, ',') == [f]
  {
  }

  lemma NameHasNoComma(f: string)
    requires IsName(f)
    ensures ',' !in f
  {
  }

  // ----- One feature --------------------------------------------------------------------------

  lemma AddMeans(ts: seq<string>, f: string)
    requires SwitchOk(ts, ENABLE) && SwitchOk(ts, DISABLE) && IsName(f)
    ensures Entries(AddDisabled(ts, f), DISABLE) == Entries(ts, DISABLE) + [f]
    ensures FirstWith(AddDisabled(ts, f), ENABLE) == FirstWith(ts, ENABLE)
    ensures Others(AddDisabled(ts, f)) == Others(ts)
  {
    if FirstWith(ts, DISABLE) == None {
      NewSwitchMeans(ts, f);
    } else {
      ExtendedSwitchMeans(ts, f);
    }
  }

  lemma ExtendedSwitchMeans(ts: seq<string>, f: string)
    requires SwitchOk(ts, ENABLE) && IsName(f) && FirstWith(ts, DISABLE).Some?
    ensures var rs := ReplaceFirst(ts, DISABLE, [FirstWith(ts, DISABLE).value + "," + f]);
            && Entries(rs, DISABLE) == Entries(ts, DISABLE) + [f]
            && FirstWith(rs, ENABLE) == FirstWith(ts, ENABLE)
            && Others(rs) == Others(ts)
  {
    var t := FirstWith(ts, DISABLE).value;
    var x := t + "," + f;
    NameHasNoComma(f);
    FirstIsOk(ts, DISABLE, ENABLE);
    ExtendedTokenOk(t, f, ENABLE);
    assert DISABLE <= x && x[|DISABLE|..] == t[|DISABLE|..] + "," + f;
    FirstOfReplaced(ts, DISABLE, x);
    SplitExtended(t[|DISABLE|..], f);
    ReplaceKeepsOk(ts, DISABLE, ENABLE, [x]);
    OneSwitch(x);
    ReplaceKeepsOthers(ts, DISABLE, [x]);
  }

  lemma OneSwitch(x: string)
    requires ENABLE <= x || DISABLE <= x
    ensures Others([x]) == []
  {
  }

  lemma NewSwitchMeans(ts: seq<string>, f: string)
    requires SwitchOk(ts, ENABLE) && SwitchOk(ts, DISABLE) && IsName(f) && FirstWith(ts, DISABLE) == None
    ensures Entries(ts + [DISABLE + f], DISABLE) == [f]
    ensures FirstWith(ts + [DISABLE + f], ENABLE) == FirstWith(ts, ENABLE)
    ensures Others(ts + [DISABLE + f]) == Others(ts)
  {
    var x := DISABLE + f;
    NameHasNoComma(f);
    NewTokenOk(f, DISABLE);
    NewTokenOk(f, ENABLE);
    OneSwitchOnly(x);
    assert DISABLE <= x && x[|DISABLE|..] == f;
    AppendKeepsOk(ts, x, DISABLE);
    AppendKeepsOk(ts, x, ENABLE);
    SplitSingle(f);
    OneSwitch(x);
    OthersAppend(ts, [x]);
  }

  lemma DropMeans(ts: seq<string>, f: string)
    requires SwitchOk(ts, ENABLE) && SwitchOk(ts, DISABLE)
    ensures Entries(DropEnabled(ts, f), ENABLE) == WithoutVariants(Entries(ts, ENABLE), f)
    ensures FirstWith(DropEnabled(ts, f), DISABLE) == FirstWith(ts, DISABLE)
    ensures Others(DropEnabled(ts, f)) == Others(ts)
  {
    DropKeepsOk(ts, f, DISABLE);
    if FirstWith(ts, ENABLE).Some? {
      var t := FirstWith(ts, ENABLE).value;
      FirstIsOk(ts, ENABLE, ENABLE);
      var kept := KeptEntries(t, f);
      if kept == [] {
        NothingLeft(ts);
        ReplaceKeepsOthers(ts, ENABLE, []);
      } else {
        var x := ENABLE + Join(kept, ',');
        assert x[|ENABLE|..] == Join(kept, ',');
        FirstOfReplaced(ts, ENABLE, x);
        KeptSplits(t, f);
        OneSwitch(x);
        ReplaceKeepsOthers(ts, ENABLE, [x]);
      }
    }
  }

  lemma {:induction false} NothingLeft(ts: seq<string>)
    requires SwitchOk(ts, ENABLE)
    ensures FirstWith(ReplaceFirst(ts, ENABLE, []), ENABLE) == None
  {
    if ts != [] {
      if ENABLE <= ts[0] {
        assert [] + ts[1..] == ts[1..];
      } else {
        NothingLeft(ts[1..]);
        var rest := ReplaceFirst(ts[1..], ENABLE, []);
        assert ([ts[0]] + rest)[1..] == rest;
      }
    }
  }

  lemma KeptSplits(t: string, f: string)
    requires ENABLE <= t && KeptEntries(t, f) != []
    ensures Split(Join(KeptEntries(t, f), ','), ',') == KeptEntries(t, f)
  {
    var kept := KeptEntries(t, f);
    forall i | 0 <= i < |kept| ensures ',' !in kept[i] {
      KeptAreEntries(Split(t[|ENABLE|..], ','), f, kept[i]);
    }
    SplitOfJoin(kept, ',');
  }

  /** Disabling a feature that was not disabled: it is the last of the disabled ones; the enabled ones
      lose it and its variants and nothing else; all other tokens stay in order. */
  lemma DisablingMeans(env: string, f: string)
    requires WellFormed(env) && IsName(f) && !AlreadyDisabled(Tokens(env), f)
    ensures var before, after := Tokens(env), Tokens(WithDisabled(env, f));
            && Entries(after, DISABLE) == Entries(before, DISABLE) + [f]
            && Entries(after, ENABLE) == WithoutVariants(Entries(before, ENABLE), f)
            && Others(after) == Others(before)
  {
    var ts := Tokens(env);
    DisablingRefines(env, f);
    DropKeepsOk(ts, f, ENABLE);
    DropKeepsOk(ts, f, DISABLE);
    DropMeans(ts, f);
    AddMeans(DropEnabled(ts, f), f);
  }

  lemma ListedIsDisabled(ts: seq<string>, f: string)
    ensures AlreadyDisabled(ts, f) <==> f in Entries(ts, DISABLE)
  {
  }

  /** Disabling the feature once more changes nothing. */
  lemma SecondCallChangesNothing(env: string, f: string)
    requires WellFormed(env) && IsName(f)
    ensures WithDisabled(WithDisabled(env, f), f) == WithDisabled(env, f)
  {
    DisablingRefines(env, f);
    if !AlreadyDisabled(Tokens(env), f) {
      var after := WithDisabled(env, f);
      DisablingMeans(env, f);
      ListedIsDisabled(Tokens(after), f);
      DisablingRefines(after, f);
    }
  }

  /** The feature stays enabled exactly when it was disabled before and enabled as well: only then is
      the first half of the edit lost. */
  lemma StaysEnabledIff(env: string, f: string)
    requires WellFormed(env) && IsName(f)
    ensures (exists e :: e in Entries(Tokens(WithDisabled(env, f)), ENABLE) && IsVariant(e, f))
            <==> AlreadyDisabled(Tokens(env), f)
                 && exists e :: e in Entries(Tokens(env), ENABLE) && IsVariant(e, f)
  {
    DisablingRefines(env, f);
    if !AlreadyDisabled(Tokens(env), f) {
      DisablingMeans(env, f);
      forall e | e in Entries(Tokens(WithDisabled(env, f)), ENABLE) ensures !IsVariant(e, f) {
        KeptAreEntries(Entries(Tokens(env), ENABLE), f, e);
      }
    }
  }

  // ----- A whole startup ----------------------------------------------------------------------

  datatype Call = Flag(text: string) | Disable(feature: string)

  function AfterCall(env: string, c: Call): string {
    match c
    case Flag(text) => WithFlag(env, text)
    case Disable(f) => WithDisabled(env, f)
  }

  function AfterCalls(env: string, calls: seq<Call>): string {
    if calls == [] then env else AfterCall(AfterCalls(env, calls[..|calls| - 1]), calls[|calls| - 1])
  }

  function Features(calls: seq<Call>): seq<string> {
    if calls == [] then []
    else Features(calls[..|calls| - 1])
         + (if calls[|calls| - 1].Disable? then [calls[|calls| - 1].feature] else [])
  }

  /** A flag that is neither of the two switches. */
  ghost predicate IsPlainFlag(t: string) {
    t != "" && NoBlank(t) && TokenOk(t, ENABLE) && TokenOk(t, DISABLE) && !(ENABLE <= t) && !(DISABLE <= t)
  }

  /** The text stands somewhere within a token. */
  ghost predicate InSome(ts: seq<string>, t: string) {
    exists i, r :: 0 <= i < |ts| && OccursAt(ts[i], t, r)
  }

  lemma {:induction false} TokensArePieces(ps: seq<string>, x: string)
    ensures x in NonEmpty(ps) <==> x != "" && x in ps
  {
    if ps != [] { TokensArePieces(ps[1..], x); }
  }

  /** The test for presence is one for a piece of text within a token. */
  lemma ContainedIff(env: string, t: string)
    requires WellFormed(env) && t != "" && NoBlank(t)
    ensures Contains(Trim(env), t) <==> InSome(Tokens(env), t)
  {
    var ps := PiecesOf(env);
    if Contains(Trim(env), t) {
      assert ps != [];
      NoSpaceIn([t], 0);
      var j, r := WithinPiece(ps, ' ', t, IndexOf(Trim(env), t, 0));
      TokensArePieces(ps, ps[j]);
      var i :| 0 <= i < |Tokens(env)| && Tokens(env)[i] == ps[j];
    } else if InSome(Tokens(env), t) {
      var i, r :| 0 <= i < |Tokens(env)| && OccursAt(Tokens(env)[i], t, r);
      TokensArePieces(ps, Tokens(env)[i]);
      assert Tokens(env)[i] in Tokens(env);
      var j :| 0 <= j < |ps| && ps[j] == Tokens(env)[i];
      FromPiece(ps, ' ', t, j, r);
    }
  }

  /** A plain flag that stands within no token becomes the last one; otherwise the variable is not
      touched.  The feature lists stay as they are. */
  lemma FlagMeans(env: string, t: string)
    requires WellFormed(env) && IsPlainFlag(t)
    ensures InSome(Tokens(env), t) ==> WithFlag(env, t) == env
    ensures !InSome(Tokens(env), t) ==>
              var before, after := Tokens(env), Tokens(WithFlag(env, t));
              && WellFormed(WithFlag(env, t)) && after == before + [t]
              && Entries(after, DISABLE) == Entries(before, DISABLE)
              && Entries(after, ENABLE) == Entries(before, ENABLE)
              && Others(after) == Others(before) + [t]
  {
    ContainedIff(env, t);
    if !InSome(Tokens(env), t) {
      FlagAppended(env, t);
      PlainTokenMeans(Tokens(env), t);
    }
  }

  lemma PlainTokenMeans(ts: seq<string>, t: string)
    requires SwitchOk(ts, ENABLE) && SwitchOk(ts, DISABLE) && IsPlainFlag(t)
    ensures Entries(ts + [t], DISABLE) == Entries(ts, DISABLE) && Entries(ts + [t], ENABLE) == Entries(ts, ENABLE)
    ensures Others(ts + [t]) == Others(ts) + [t]
  {
    AppendKeepsOk(ts, t, ENABLE);
    AppendKeepsOk(ts, t, DISABLE);
    OthersAppend(ts, [t]);
    assert [t][1..] == [] && Others([t]) == [t] + Others([t][1..]);
  }

  /** So a flag need not become a token: being the beginning of one is enough to be taken for present. */
  lemma PartOfTokenIsEnough()
    ensures WithFlag("--lang=en-USX", "--lang=en-US") == "--lang=en-USX"
    ensures "--lang=en-US" !in Tokens("--lang=en-USX")
  {
    var env, flag := "--lang=en-USX", "--lang=en-US";
    assert |env| == 13 && |flag| == 12 && env[0] == '-' && env[12] == 'X' && ' ' !in env;
    BeginningIsFound(env, flag);
    SplitWhole(env);
  }

  lemma BeginningIsFound(env: string, flag: string)
    requires env != "" && !IsBlank(env[0]) && !IsBlank(env[|env| - 1]) && flag <= env
    ensures WithFlag(env, flag) == env
  {
    assert OccursAt(env, flag, 0);
  }

  lemma {:induction false} SplitWhole(s: string)
    requires s != "" && ' ' !in s
    ensures Tokens(s) == [s]
  {
    SplitOfJoin([s], ' ');
    assert Join([s], ' ') == s;
    OneToken(s);
  }

  lemma FlagAppended(env: string, t: string)
    requires WellFormed(env) && IsPlainFlag(t) && !Contains(Trim(env), t)
    ensures WellFormed(WithFlag(env, t)) && Tokens(WithFlag(env, t)) == Tokens(env) + [t]
  {
    var ps := PiecesOf(env);
    var qs := ps + [t];
    TrimmedStays(ps);
    if ps != [] { JoinAppend(ps, [t], ' '); }
    assert WithFlag(env, t) == JoinAll(qs);
    NonEmptyAppend(ps, [t]);
    OneToken(t);
    BlankFreeMeans(ps);
    BlankFreeMeans(qs);
    TokensOfJoin(qs);
    AppendKeepsOk(Tokens(env), t, ENABLE);
    AppendKeepsOk(Tokens(env), t, DISABLE);
    JoinIsWellFormed(qs);
  }

  ghost predicate CallOk(c: Call) {
    match c
    case Flag(t) => IsPlainFlag(t)
    case Disable(f) => IsName(f)
  }

  lemma LastIsNew(init: seq<Call>, last: Call, names: seq<string>)
    requires NoDup(names) && names == Features(init) + (if last.Disable? then [last.feature] else [])
    ensures NoDup(Features(init)) && (last.Disable? ==> last.feature !in Features(init))
    ensures forall f :: f in Features(init) ==> f in names
  {
    var n := |Features(init)|;
    assert Features(init) == names[..n];
    assert last.Disable? ==> names[n] == last.feature;
  }

  /** Any sequence of plain flags and of features, none disabled before or named twice: the disabled
      ones end with exactly these features in the order of the calls, each once; the other tokens are
      kept in front of what was added. */
  lemma {:induction false} StartupDisables(env: string, calls: seq<Call>)
    requires WellFormed(env) && NoDup(Features(calls))
    requires forall i :: 0 <= i < |calls| ==> CallOk(calls[i])
    requires forall f :: f in Features(calls) ==> f !in Entries(Tokens(env), DISABLE)
    ensures WellFormed(AfterCalls(env, calls))
    ensures Entries(Tokens(AfterCalls(env, calls)), DISABLE) == Entries(Tokens(env), DISABLE) + Features(calls)
    ensures Others(Tokens(env)) <= Others(Tokens(AfterCalls(env, calls)))
  {
    if calls != [] {
      var init, last := calls[..|calls| - 1], calls[|calls| - 1];
      LastIsNew(init, last, Features(calls));
      StartupDisables(env, init);
      CallMeans(AfterCalls(env, init), last);
    }
  }

  /** One more call. */
  lemma CallMeans(now: string, c: Call)
    requires WellFormed(now) && CallOk(c)
    requires c.Disable? ==> c.feature !in Entries(Tokens(now), DISABLE)
    ensures WellFormed(AfterCall(now, c))
    ensures Entries(Tokens(AfterCall(now, c)), DISABLE)
            == Entries(Tokens(now), DISABLE) + (if c.Disable? then [c.feature] else [])
    ensures Others(Tokens(now)) <= Others(Tokens(AfterCall(now, c)))
  {
    match c
    case Flag(t) => FlagMeans(now, t);
    case Disable(f) =>
      ListedIsDisabled(Tokens(now), f);
      DisablingRefines(now, f);
      DisablingMeans(now, f);
  }
}
