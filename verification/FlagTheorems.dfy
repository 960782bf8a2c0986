/** Disabling a feature in the flag string is disabling it in the list of tokens. */
module FlagTheorems {
  import opened Wrappers
  import opened ChromiumFlags
  import opened FlagText
  import opened FlagSwitches
  import opened Text

  function Tokens(env: string): seq<string> {
    NonEmpty(Split(env, ' '))
  }

  /** Spaces are the only white space, and each of the two switches appears at most once and only at
      the start of a token. */
  ghost predicate WellFormed(env: string) {
    && (forall i :: 0 <= i < |env| && IsBlank(env[i]) ==> env[i] == ' ')
    && SwitchOk(Tokens(env), ENABLE) && SwitchOk(Tokens(env), DISABLE)
  }

  /** What feature names look like. */
  predicate IsName(f: string) {
    f != "" && forall i :: 0 <= i < |f| ==> IsDigit(f[i]) || 'a' <= f[i] <= 'z' || 'A' <= f[i] <= 'Z'
  }

  /** The feature joins the disabled ones, at the end. */
  function AddDisabled(ts: seq<string>, feature: string): seq<string> {
    match FirstWith(ts, DISABLE)
    case None => ts + [DISABLE + feature]
    case Some(t) => ReplaceFirst(ts, DISABLE, [t + "," + feature])
  }

  predicate AlreadyDisabled(ts: seq<string>, feature: string) {
    match FirstWith(ts, DISABLE)
    case None => false
    case Some(t) => DISABLE <= t && Lists(t, DISABLE, feature)
  }

  // ----- Tokens that stay in order ------------------------------------------------------------

  /** Behind its start a switch has no two dashes in a row, nor a dash at its end. */
  lemma NoDashes(s: string, r: int)
    requires IsSwitch(s) && 0 < r < |s|
    ensures !(s[r] == '-' && (r + 1 < |s| ==> s[r + 1] == '-'))
  {
  }

  lemma StartsWithDashes(x: string, p: string, r: int)
    requires IsSwitch(p) && OccursAt(x, p, r)
    ensures x[r] == '-' && x[r + 1] == '-'
  {
  }

  /** In a token that starts with a switch no switch stands across the end of the first. */
  lemma NoOverlap(s: string, y: string, p: string, r: int)
    requires IsSwitch(s) && IsSwitch(p) && 0 < r < |s|
    ensures !OccursAt(s + y, p, r)
  {
    NoDashes(s, r);
    if OccursAt(s + y, p, r) { StartsWithDashes(s + y, p, r); }
  }

  lemma {:induction false} KeptAreEntries(entries: seq<string>, feature: string, e: string)
    ensures e in WithoutVariants(entries, feature) <==> e in entries && !IsVariant(e, feature)
  {
    if entries != [] {
      KeptAreEntries(entries[1..], feature, e);
      assert entries == [entries[0]] + entries[1..];
    }
  }

  /** What occurs in the kept list occurred in the token. */
  lemma KeptOccurs(t: string, feature: string, p: string, r: int) returns (q: int)
    requires ENABLE <= t && KeptEntries(t, feature) != [] && p != "" && ',' !in p
    requires OccursAt(Join(KeptEntries(t, feature), ','), p, r)
    ensures q >= |ENABLE| && OccursAt(t, p, q)
  {
    var entries := Split(t[|ENABLE|..], ',');
    var kept := KeptEntries(t, feature);
    var j, s := WithinPiece(kept, ',', p, r);
    KeptAreEntries(entries, feature, kept[j]);
    var k :| 0 <= k < |entries| && entries[k] == kept[j];
    FromPiece(entries, ',', p, k, s);
    q := |ENABLE| + Offset(entries, k) + s;
    OccursBehind(t[..|ENABLE|], t[|ENABLE|..], p, Offset(entries, k) + s);
    assert t[..|ENABLE|] + t[|ENABLE|..] == t;
  }

  lemma KeptTokenOk(t: string, feature: string, p: string)
    requires IsSwitch(p) && ENABLE <= t && TokenOk(t, p) && KeptEntries(t, feature) != []
    ensures TokenOk(ENABLE + Join(KeptEntries(t, feature), ','), p)
  {
    var y := Join(KeptEntries(t, feature), ',');
    SwitchHasNoSeparator(p);
    forall r | OccursAt(ENABLE + y, p, r) ensures r == 0 {
      if 0 < r < |ENABLE| { NoOverlap(ENABLE, y, p, r); }
      if r >= |ENABLE| {
        OccursBehind(ENABLE, y, p, r - |ENABLE|);
        var q := KeptOccurs(t, feature, p, r - |ENABLE|);
      }
    }
  }

  lemma NameHasNoDash(f: string, i: nat)
    requires IsName(f) && i < |f|
    ensures f[i] != '-' && f[i] != ' ' && f[i] != ',' && !IsBlank(f[i])
  {
  }

  lemma NoSwitchInName(front: string, f: string, p: string, r: int)
    requires IsSwitch(p) && IsName(f) && r >= |front|
    ensures !OccursAt(front + f, p, r)
  {
    if OccursAt(front + f, p, r) {
      StartsWithDashes(front + f, p, r);
      NameHasNoDash(f, r - |front|);
    }
  }

  lemma ExtendedTokenOk(t: string, f: string, p: string)
    requires IsSwitch(p) && TokenOk(t, p) && IsName(f)
    ensures TokenOk(t + "," + f, p)
  {
    SwitchHasNoSeparator(p);
    forall r | OccursAt(t + "," + f, p, r) ensures r == 0 {
      if r > |t| {
        NoSwitchInName(t + ",", f, p, r);
      } else if r + |p| > |t| {
        SeparatorInside(t + "," + f, p, r, |t|);
      } else {
        assert t + "," + f == t + ("," + f);
        OccursInFront(t, "," + f, p, r);
      }
    }
  }

  lemma NewTokenOk(f: string, p: string)
    requires IsSwitch(p) && IsName(f)
    ensures TokenOk(DISABLE + f, p)
  {
    forall r | OccursAt(DISABLE + f, p, r) ensures r == 0 {
      if 0 < r < |DISABLE| { NoOverlap(DISABLE, f, p, r); }
      if r >= |DISABLE| { NoSwitchInName(DISABLE, f, p, r); }
    }
  }

  // ----- Token lists that stay in order -------------------------------------------------------

  lemma OneSwitchOnly(t: string)
    ensures !(ENABLE <= t && DISABLE <= t)
  {
    assert ENABLE[2] == 'e' && DISABLE[2] == 'd';
  }

  /** Putting at most one token, itself in order, in the place of the first with the switch. */
  lemma {:induction false} ReplaceKeepsOk(ts: seq<string>, p: string, q: string, r: seq<string>)
    requires IsSwitch(p) && IsSwitch(q) && SwitchOk(ts, q) && |r| <= 1
    requires r != [] ==> TokenOk(r[0], q) && p <= r[0]
    ensures SwitchOk(ReplaceFirst(ts, p, r), q)
    ensures q != p ==> FirstWith(ReplaceFirst(ts, p, r), q) == FirstWith(ts, q)
    ensures q == p && FirstWith(ts, p) == None ==> FirstWith(ReplaceFirst(ts, p, r), q) == None
  {
    if ts != [] {
      OneSwitchOnly(ts[0]);
      if p <= ts[0] {
        if r != [] {
          OneSwitchOnly(r[0]);
          assert (r + ts[1..])[1..] == ts[1..];
        } else {
          assert r + ts[1..] == ts[1..];
        }
      } else {
        ReplaceKeepsOk(ts[1..], p, q, r);
        var rest := ReplaceFirst(ts[1..], p, r);
        assert ([ts[0]] + rest)[1..] == rest;
      }
    }
  }

  lemma {:induction false} AppendKeepsOk(ts: seq<string>, t: string, q: string)
    requires SwitchOk(ts, q) && TokenOk(t, q) && (q <= t ==> FirstWith(ts, q) == None)
    ensures SwitchOk(ts + [t], q)
    ensures FirstWith(ts + [t], q) == if FirstWith(ts, q).Some? then FirstWith(ts, q)
                                      else if q <= t then Some(t) else None
  {
    if ts == [] {
      assert [] + [t] == [t] && [t][1..] == [];
    } else {
      assert (ts + [t])[1..] == ts[1..] + [t];
      AppendKeepsOk(ts[1..], t, q);
    }
  }

  lemma {:induction false} FirstIsToken(ts: seq<string>, p: string)
    requires FirstWith(ts, p).Some?
    ensures FirstWith(ts, p).value in ts && p <= FirstWith(ts, p).value
  {
    if !(p <= ts[0]) { FirstIsToken(ts[1..], p); }
  }

  lemma FirstIsOk(ts: seq<string>, p: string, q: string)
    requires FirstWith(ts, p).Some? && SwitchOk(ts, q)
    ensures TokenOk(FirstWith(ts, p).value, q) && p <= FirstWith(ts, p).value
  {
  }

  /** The first half keeps the tokens in order and the disabling one as it is. */
  lemma DropKeepsOk(ts: seq<string>, f: string, q: string)
    requires IsSwitch(q) && SwitchOk(ts, q)
    ensures SwitchOk(DropEnabled(ts, f), q)
    ensures FirstWith(DropEnabled(ts, f), DISABLE) == FirstWith(ts, DISABLE) || q == ENABLE
  {
    if FirstWith(ts, ENABLE).Some? {
      var t := FirstWith(ts, ENABLE).value;
      FirstIsOk(ts, ENABLE, q);
      if KeptEntries(t, f) != [] { KeptTokenOk(t, f, q); }
      ReplaceKeepsOk(ts, ENABLE, q, EnableToken(t, f));
    }
  }

  lemma AddKeepsOk(ts: seq<string>, f: string, q: string)
    requires IsSwitch(q) && SwitchOk(ts, q) && IsName(f)
    ensures SwitchOk(AddDisabled(ts, f), q)
  {
    if FirstWith(ts, DISABLE).Some? {
      var t := FirstWith(ts, DISABLE).value;
      FirstIsOk(ts, DISABLE, q);
      ExtendedTokenOk(t, f, q);
      assert t <= t + "," + f;
      ReplaceKeepsOk(ts, DISABLE, q, [t + "," + f]);
    } else {
      NewTokenOk(f, q);
      OneSwitchOnly(DISABLE + f);
      assert DISABLE <= DISABLE + f;
      AppendKeepsOk(ts, DISABLE + f, q);
    }
  }

  // ----- Blanks -------------------------------------------------------------------------------

  predicate NoBlank(t: string) {
    forall k :: 0 <= k < |t| ==> !IsBlank(t[k])
  }

  lemma KeptHasNoBlank(t: string, f: string)
    requires ENABLE <= t && NoBlank(t) && KeptEntries(t, f) != []
    ensures NoBlank(ENABLE + Join(KeptEntries(t, f), ','))
  {
    var y := Join(KeptEntries(t, f), ',');
    forall k | 0 <= k < |y| ensures !IsBlank(y[k]) {
      if y[k] != ',' {
        assert OccursAt(y, [y[k]], k);
        var q := KeptOccurs(t, f, [y[k]], k);
        assert t[q..q + 1][0] == t[q];
      }
    }
    assert forall k :: 0 <= k < |ENABLE| ==> !IsBlank(ENABLE[k]);
  }

  lemma BlankFreeMeans(ps: seq<string>)
    ensures BlankFree(ps) <==> forall i :: 0 <= i < |ps| ==> NoBlank(ps[i])
  {
  }

  lemma {:induction false} ReplaceHasNoBlank(ps: seq<string>, p: string, r: seq<string>)
    requires (forall i :: 0 <= i < |ps| ==> NoBlank(ps[i])) && forall i :: 0 <= i < |r| ==> NoBlank(r[i])
    ensures forall i :: 0 <= i < |ReplaceFirst(ps, p, r)| ==> NoBlank(ReplaceFirst(ps, p, r)[i])
  {
    if ps != [] && !(p <= ps[0]) { ReplaceHasNoBlank(ps[1..], p, r); }
  }

  lemma DropIsBlankFree(ps: seq<string>, f: string)
    requires BlankFree(ps)
    ensures BlankFree(DropEnabled(ps, f))
  {
    BlankFreeMeans(ps);
    if FirstWith(ps, ENABLE).Some? {
      var t := FirstWith(ps, ENABLE).value;
      FirstIsToken(ps, ENABLE);
      assert NoBlank(t);
      if KeptEntries(t, f) != [] { KeptHasNoBlank(t, f); }
      ReplaceHasNoBlank(ps, ENABLE, EnableToken(t, f));
    }
    BlankFreeMeans(DropEnabled(ps, f));
  }

  /** Splitting at spaces leaves no blank when spaces are the only white space. */
  lemma SplitIsBlankFree(env: string)
    requires forall i :: 0 <= i < |env| && IsBlank(env[i]) ==> env[i] == ' '
    ensures BlankFree(Split(env, ' '))
  {
    var ps := Split(env, ' ');
    forall i, k | 0 <= i < |ps| && 0 <= k < |ps[i]| ensures !IsBlank(ps[i][k]) {
      var before, behind := AroundPiece(ps, ' ', i);
      assert ps[i][k] == env[|before| + k] && ps[i][k] in ps[i];
    }
  }

  lemma BlankFreeJoin(ps: seq<string>)
    requires ps != [] && BlankFree(ps)
    ensures Split(Join(ps, ' '), ' ') == ps
  {
    forall i | 0 <= i < |ps| ensures ' ' !in ps[i] { NoSpaceIn(ps, i); }
    SplitOfJoin(ps, ' ');
  }

  lemma TokensOfJoin(ps: seq<string>)
    requires BlankFree(ps)
    ensures Tokens(JoinAll(ps)) == NonEmpty(ps)
  {
    if ps != [] {
      BlankFreeJoin(ps);
    } else {
      assert Split<char>("", ' ') == [""];
      assert NonEmpty([""]) == NonEmpty([""][1..]) == [];
    }
  }

  lemma {:induction false} JoinIsSpaced(ps: seq<string>)
    requires ps != [] && forall i :: 0 <= i < |ps| ==> NoBlank(ps[i])
    ensures forall k :: 0 <= k < |Join(ps, ' ')| && IsBlank(Join(ps, ' ')[k]) ==> Join(ps, ' ')[k] == ' '
  {
    if |ps| > 1 {
      JoinIsSpaced(ps[1..]);
      JoinCons(ps, ' ');
    }
  }

  /** A text joined from such pieces is well-formed when its tokens are in order. */
  lemma JoinIsWellFormed(ps: seq<string>)
    requires BlankFree(ps) && SwitchOk(NonEmpty(ps), ENABLE) && SwitchOk(NonEmpty(ps), DISABLE)
    ensures WellFormed(JoinAll(ps))
  {
    TokensOfJoin(ps);
    BlankFreeMeans(ps);
    if ps != [] { JoinIsSpaced(ps); }
  }

  // ----- Disabling a feature ------------------------------------------------------------------

  /** The first half on a trimmed list of pieces, itself trimmed again. */
  lemma DropInText(ps: seq<string>, f: string) returns (qs: seq<string>)
    requires BlankFree(ps) && Trimmed(ps) && SwitchOk(ps, ENABLE)
    ensures WithoutEnabled(JoinAll(ps), f) == JoinAll(qs) && BlankFree(qs) && Trimmed(qs)
    ensures NonEmpty(qs) == DropEnabled(NonEmpty(ps), f)
  {
    if ps == [] {
      qs := [];
      assert IndexOf("", ENABLE, 0) == -1;
    } else {
      EnabledEdit(ps, f);
      DropInTokens(ps, f);
      if FirstWith(ps, ENABLE) == None {
        qs := ps;
      } else {
        DropIsBlankFree(ps, f);
        qs := TrimJoin(DropEnabled(ps, f));
      }
    }
  }

  lemma DropInTokens(ps: seq<string>, f: string)
    ensures NonEmpty(DropEnabled(ps, f)) == DropEnabled(NonEmpty(ps), f)
  {
    SwitchHasNoSeparator(ENABLE);
    SwitchOkOfTokens(ps, ENABLE);
    if FirstWith(ps, ENABLE).Some? {
      var t := FirstWith(ps, ENABLE).value;
      FirstIsToken(ps, ENABLE);
      ReplaceInTokens(ps, ENABLE, EnableToken(t, f));
      TokenIsNotEmpty(KeptEntries(t, f));
    }
  }

  lemma TokenIsNotEmpty(kept: seq<string>)
    ensures NonEmpty(ListToken(kept)) == ListToken(kept)
  {
  }

  lemma OneToken(x: string)
    requires x != ""
    ensures NonEmpty([x]) == [x]
  {
  }

  lemma ReplacedInTokens(ps: seq<string>, i: nat, p: string, x: string)
    requires i < |ps| && p != "" && x != "" && p <= ps[i] && forall k :: 0 <= k < i ==> !(p <= ps[k])
    ensures NonEmpty(ps[..i] + [x] + ps[i + 1..]) == ReplaceFirst(NonEmpty(ps), p, [x])
    ensures FirstWith(NonEmpty(ps), p) == Some(ps[i])
  {
    SwitchOkOfTokens(ps, p);
    ReplaceAt(ps, p, i, [x]);
    ReplaceInTokens(ps, p, [x]);
    OneToken(x);
  }

  /** The second half finds the feature listed, and the variable stays. */
  lemma SwitchStays(env: string, ps: seq<string>, f: string)
    requires BlankFree(ps) && SwitchOk(ps, DISABLE) && AlreadyDisabled(NonEmpty(ps), f)
    ensures WithSwitch(env, JoinAll(ps), f) == env
  {
    SwitchHasNoSeparator(DISABLE);
    SwitchOkOfTokens(ps, DISABLE);
    var i := FirstIndex(ps, DISABLE);
    var edited := SwitchEditAt(env, ps, i, f);
  }

  /** Or it does not, and the feature is added. */
  lemma SwitchAdds(env: string, ps: seq<string>, f: string) returns (rs: seq<string>)
    requires BlankFree(ps) && Trimmed(ps) && SwitchOk(ps, DISABLE) && IsName(f)
    requires !AlreadyDisabled(NonEmpty(ps), f)
    ensures WithSwitch(env, JoinAll(ps), f) == JoinAll(rs) && BlankFree(rs)
    ensures NonEmpty(rs) == AddDisabled(NonEmpty(ps), f)
  {
    SwitchHasNoSeparator(DISABLE);
    SwitchOkOfTokens(ps, DISABLE);
    if FirstWith(ps, DISABLE) == None {
      SwitchAppended(env, ps, f);
      NonEmptyAppend(ps, [DISABLE + f]);
      NewIsBlankFree(ps, f);
      rs := ps + [DISABLE + f];
    } else {
      var i := FirstIndex(ps, DISABLE);
      var edited := SwitchEditAt(env, ps, i, f);
      ReplacedInTokens(ps, i, DISABLE, ps[i] + "," + f);
      ExtendedIsBlankFree(ps, i, f);
      rs := ps[..i] + [ps[i] + "," + f] + ps[i + 1..];
    }
  }

  lemma NewIsBlankFree(ps: seq<string>, f: string)
    requires BlankFree(ps) && IsName(f)
    ensures BlankFree(ps + [DISABLE + f])
    ensures NonEmpty([DISABLE + f]) == [DISABLE + f]
  {
  }

  lemma ExtendedIsBlankFree(ps: seq<string>, i: nat, f: string)
    requires BlankFree(ps) && IsName(f) && i < |ps|
    ensures BlankFree(ps[..i] + [ps[i] + "," + f] + ps[i + 1..])
  {
  }

  lemma PiecesOf(env: string) returns (ps: seq<string>)
    requires WellFormed(env)
    ensures Trim(env) == JoinAll(ps) && BlankFree(ps) && Trimmed(ps) && NonEmpty(ps) == Tokens(env)
    ensures SwitchOk(ps, ENABLE) && SwitchOk(ps, DISABLE)
  {
    SplitIsBlankFree(env);
    ps := TrimJoin(Split(env, ' '));
    SwitchHasNoSeparator(ENABLE);
    SwitchHasNoSeparator(DISABLE);
    SwitchOkOfTokens(ps, ENABLE);
    SwitchOkOfTokens(ps, DISABLE);
  }

  /** On well-formed flags the edit is the edit of the token list: the feature and its variants leave
      the enabled ones, it joins the disabled ones at the end, everything else keeps its place - unless
      the feature was disabled already: then the variable is not touched, even where the feature is
      still enabled. */
  lemma DisablingRefines(env: string, f: string)
    requires WellFormed(env) && IsName(f)
    ensures AlreadyDisabled(Tokens(env), f) ==> WithDisabled(env, f) == env
    ensures !AlreadyDisabled(Tokens(env), f) ==>
              && WellFormed(WithDisabled(env, f))
              && Tokens(WithDisabled(env, f)) == AddDisabled(DropEnabled(Tokens(env), f), f)
  {
    var ts := Tokens(env);
    var ps := PiecesOf(env);
    var qs := DropInText(ps, f);
    DropKeepsOk(ts, f, ENABLE);
    DropKeepsOk(ts, f, DISABLE);
    SwitchHasNoSeparator(DISABLE);
    SwitchOkOfTokens(qs, DISABLE);
    if AlreadyDisabled(ts, f) {
      SwitchStays(env, qs, f);
    } else {
      var rs := SwitchAdds(env, qs, f);
      TokensOfJoin(rs);
      AddKeepsOk(NonEmpty(qs), f, ENABLE);
      AddKeepsOk(NonEmpty(qs), f, DISABLE);
      JoinIsWellFormed(rs);
    }
  }
}
