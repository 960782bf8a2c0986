/** The two feature switches as tokens of a flag string, and what the edits do to the tokens. */
module FlagSwitches {
  import opened Wrappers
  import opened ChromiumFlags
  import opened FlagText
  import opened Text

  predicate BlankFree(ps: seq<string>) {
    forall i, k :: 0 <= i < |ps| && 0 <= k < |ps[i]| ==> !IsBlank(ps[i][k])
  }

  /** In a token the switch can only stand at the start. */
  ghost predicate TokenOk(t: string, p: string) {
    forall r :: OccursAt(t, p, r) ==> r == 0
  }

  /** The switch `p` appears at most once, and only where a token starts. */
  ghost predicate SwitchOk(ps: seq<string>, p: string) {
    ps == [] || (TokenOk(ps[0], p) && SwitchOk(ps[1..], p) && (p <= ps[0] ==> FirstWith(ps[1..], p) == None))
  }

  lemma {:induction false} SwitchOkMeans(ps: seq<string>, p: string)
    requires SwitchOk(ps, p)
    ensures forall i :: 0 <= i < |ps| ==> TokenOk(ps[i], p)
    ensures forall i, j :: 0 <= i < j < |ps| ==> !(p <= ps[i] && p <= ps[j])
  {
    if ps != [] {
      SwitchOkMeans(ps[1..], p);
      assert forall i :: 1 <= i < |ps| ==> ps[i] == ps[1..][i - 1];
      if p <= ps[0] { NoneWith(ps[1..], p); }
    }
  }

  predicate IsSwitch(p: string) { p == ENABLE || p == DISABLE }

  lemma SwitchHasNoSeparator(p: string)
    requires IsSwitch(p)
    ensures p != "" && ' ' !in p && ',' !in p && p[..2] == "--"
  {
  }

  function JoinAll(ps: seq<string>): string {
    if ps == [] then "" else Join(ps, ' ')
  }

  /** The first token with the switch. */
  function FirstWith(ps: seq<string>, p: string): Option<string> {
    if ps == [] then None else if p <= ps[0] then Some(ps[0]) else FirstWith(ps[1..], p)
  }

  function ReplaceFirst(ps: seq<string>, p: string, r: seq<string>): seq<string> {
    if ps == [] then []
    else if p <= ps[0] then r + ps[1..] else [ps[0]] + ReplaceFirst(ps[1..], p, r)
  }

  lemma {:induction false} FirstIndex(ps: seq<string>, p: string) returns (i: nat)
    requires FirstWith(ps, p).Some?
    ensures i < |ps| && ps[i] == FirstWith(ps, p).value && p <= ps[i]
    ensures forall k :: 0 <= k < i ==> !(p <= ps[k])
  {
    if p <= ps[0] {
      i := 0;
    } else {
      var k := FirstIndex(ps[1..], p);
      i := k + 1;
      assert forall l :: 1 <= l < i ==> ps[l] == ps[1..][l - 1];
    }
  }

  lemma {:induction false} ReplaceAt(ps: seq<string>, p: string, i: nat, r: seq<string>)
    requires i < |ps| && p <= ps[i] && forall k :: 0 <= k < i ==> !(p <= ps[k])
    ensures ReplaceFirst(ps, p, r) == ps[..i] + r + ps[i + 1..]
    ensures FirstWith(ps, p) == Some(ps[i])
  {
    if i > 0 {
      ReplaceAt(ps[1..], p, i - 1, r);
      assert ps[..i] == [ps[0]] + ps[1..][..i - 1];
      assert ps[1..][i..] == ps[i + 1..];
    }
  }

  lemma {:induction false} NoneWith(ps: seq<string>, p: string)
    requires FirstWith(ps, p) == None
    ensures forall i :: 0 <= i < |ps| ==> !(p <= ps[i])
    ensures forall r: seq<string> :: ReplaceFirst(ps, p, r) == ps
  {
    if ps != [] {
      NoneWith(ps[1..], p);
      assert forall i :: 1 <= i < |ps| ==> ps[i] == ps[1..][i - 1];
      assert [ps[0]] + ps[1..] == ps;
    }
  }

  // ----- Finding a switch ---------------------------------------------------------------------

  lemma PrefixOccurs(s: string, p: string)
    ensures OccursAt(s, p, 0) <==> p <= s
  {
  }

  /** No piece has the switch: the string does not contain it. */
  lemma SwitchNotFound(ps: seq<string>, p: string)
    requires |ps| >= 1 && IsSwitch(p) && SwitchOk(ps, p) && FirstWith(ps, p) == None
    ensures IndexOf(Join(ps, ' '), p, 0) == -1
  {
    SwitchHasNoSeparator(p);
    SwitchOkMeans(ps, p);
    NoneWith(ps, p);
    forall q | OccursAt(Join(ps, ' '), p, q) ensures false {
      var j, r := WithinPiece(ps, ' ', p, q);
      PrefixOccurs(ps[j], p);
    }
  }

  /** Otherwise the first place is where that piece begins. */
  lemma SwitchFound(ps: seq<string>, p: string, i: nat)
    requires i < |ps| && IsSwitch(p) && SwitchOk(ps, p) && p <= ps[i]
    ensures IndexOf(Join(ps, ' '), p, 0) == Offset(ps, i)
  {
    SwitchHasNoSeparator(p);
    SwitchOkMeans(ps, p);
    PrefixOccurs(ps[i], p);
    FromPiece(ps, ' ', p, i, 0);
    forall q | OccursAt(Join(ps, ' '), p, q) ensures q == Offset(ps, i) {
      var j, r := WithinPiece(ps, ' ', p, q);
      PrefixOccurs(ps[j], p);
      assert j == i;
    }
  }

  /** The value behind a switch ends where its piece ends. */
  lemma ValueEndsWithPiece(before: string, piece: string, behind: string, n: nat)
    requires n <= |piece| && ' ' !in piece && (behind != "" ==> behind[0] == ' ')
    ensures ValueEnd(before + piece + behind, |before| + n) == |before| + |piece|
  {
    var s := before + piece + behind;
    forall k | |before| + n <= k < |before| + |piece| ensures !OccursAt(s, " ", k) {
      assert s[k] == piece[k - |before|];
      if OccursAt(s, " ", k) { SeparatorInside(s, " ", k, k); }
    }
    if behind != "" {
      assert s[|before| + |piece|] == behind[0];
      assert OccursAt(s, " ", |before| + |piece|);
    }
  }

  // ----- Trimming -----------------------------------------------------------------------------

  function NonEmpty(ps: seq<string>): seq<string> {
    if ps == [] then [] else (if ps[0] == "" then [] else [ps[0]]) + NonEmpty(ps[1..])
  }

  lemma {:induction false} NonEmptyAppend(a: seq<string>, b: seq<string>)
    ensures NonEmpty(a + b) == NonEmpty(a) + NonEmpty(b)
  {
    if a == [] {
      assert a + b == b;
    } else {
      assert (a + b)[1..] == a[1..] + b;
      NonEmptyAppend(a[1..], b);
    }
  }

  lemma {:induction false} SwitchOkOfTokens(ps: seq<string>, p: string)
    requires p != ""
    ensures FirstWith(NonEmpty(ps), p) == FirstWith(ps, p)
    ensures SwitchOk(NonEmpty(ps), p) <==> SwitchOk(ps, p)
  {
    if ps != [] {
      SwitchOkOfTokens(ps[1..], p);
      if ps[0] != "" {
        assert NonEmpty(ps)[1..] == NonEmpty(ps[1..]);
      } else {
        assert NonEmpty(ps) == NonEmpty(ps[1..]);
      }
    }
  }

  lemma {:induction false} ReplaceInTokens(ps: seq<string>, p: string, r: seq<string>)
    requires p != ""
    ensures NonEmpty(ReplaceFirst(ps, p, r)) == ReplaceFirst(NonEmpty(ps), p, NonEmpty(r))
            || FirstWith(ps, p) == None
  {
    if ps != [] {
      if p <= ps[0] {
        NonEmptyAppend(r, ps[1..]);
        assert NonEmpty(ps)[1..] == NonEmpty(ps[1..]);
      } else {
        ReplaceInTokens(ps[1..], p, r);
        var rest := ReplaceFirst(ps[1..], p, r);
        assert ([ps[0]] + rest)[1..] == rest;
        if ps[0] != "" {
          assert NonEmpty(ps)[1..] == NonEmpty(ps[1..]);
        } else {
          assert NonEmpty(ps) == NonEmpty(ps[1..]);
        }
      }
    }
  }

  /** Neither end is an empty piece. */
  predicate Trimmed(ps: seq<string>) {
    ps == [] || (ps[0] != "" && ps[|ps| - 1] != "")
  }

  lemma BlankFreePart(ps: seq<string>, i: nat, j: nat)
    requires BlankFree(ps) && i <= j <= |ps|
    ensures BlankFree(ps[i..j])
  {
  }

  lemma TrimLeftBlank(s: string)
    ensures TrimLeft([' '] + s) == TrimLeft(s)
  {
  }

  lemma FirstStaysFirst(ps: seq<string>)
    requires ps != [] && ps[0] != ""
    ensures JoinAll(ps) != "" && JoinAll(ps)[0] == ps[0][0]
  {
  }

  lemma EmptyInFront(ps: seq<string>)
    requires |ps| > 1 && ps[0] == ""
    ensures JoinAll(ps) == [' '] + JoinAll(ps[1..]) && NonEmpty(ps) == NonEmpty(ps[1..])
  {
  }

  lemma {:induction false} TrimLeftJoin(ps: seq<string>) returns (qs: seq<string>)
    requires BlankFree(ps)
    ensures TrimLeft(JoinAll(ps)) == JoinAll(qs) && NonEmpty(qs) == NonEmpty(ps) && BlankFree(qs)
    ensures qs != [] ==> qs[0] != "" && ps != [] && qs[|qs| - 1] == ps[|ps| - 1]
  {
    if ps == [] {
      qs := [];
    } else if ps[0] != "" {
      FirstStaysFirst(ps);
      assert !IsBlank(ps[0][0]);
      qs := ps;
    } else if |ps| == 1 {
      assert NonEmpty(ps) == NonEmpty(ps[1..]) == [];
      qs := [];
    } else {
      EmptyInFront(ps);
      TrimLeftBlank(JoinAll(ps[1..]));
      assert ps[1..] == ps[1..|ps|];
      BlankFreePart(ps, 1, |ps|);
      qs := TrimLeftJoin(ps[1..]);
    }
  }

  lemma TrimRightBlank(s: string)
    ensures TrimRight(s + [' ']) == TrimRight(s)
  {
  }

  lemma EmptyAtEnd(init: seq<string>)
    requires init != []
    ensures JoinAll(init + [""]) == JoinAll(init) + [' '] && NonEmpty(init + [""]) == NonEmpty(init)
  {
    JoinAppend(init, [""], ' ');
    NonEmptyAppend(init, [""]);
    assert NonEmpty([""]) == NonEmpty([""][1..]) == [];
  }

  lemma LastStaysLast(init: seq<string>, last: string)
    requires last != ""
    ensures var s := JoinAll(init + [last]); s != "" && s[|s| - 1] == last[|last| - 1]
  {
    if init != [] { JoinAppend(init, [last], ' '); }
  }

  lemma {:induction false} TrimRightJoin(ps: seq<string>) returns (qs: seq<string>)
    requires BlankFree(ps)
    ensures TrimRight(JoinAll(ps)) == JoinAll(qs) && NonEmpty(qs) == NonEmpty(ps) && BlankFree(qs)
    ensures qs != [] ==> qs[|qs| - 1] != "" && ps != [] && qs[0] == ps[0]
    decreases |ps|
  {
    if ps == [] {
      qs := [];
    } else {
      var init, last := ps[..|ps| - 1], ps[|ps| - 1];
      assert ps == init + [last];
      if last != "" {
        LastStaysLast(init, last);
        assert !IsBlank(last[|last| - 1]);
        qs := ps;
      } else if init == [] {
        qs := [];
      } else {
        EmptyAtEnd(init);
        TrimRightBlank(JoinAll(init));
        assert init == ps[0..|ps| - 1];
        BlankFreePart(ps, 0, |ps| - 1);
        qs := TrimRightJoin(init);
      }
    }
  }

  /** Trimming drops empty pieces at the ends; the tokens stay. */
  lemma TrimJoin(ps: seq<string>) returns (qs: seq<string>)
    requires BlankFree(ps)
    ensures Trim(JoinAll(ps)) == JoinAll(qs) && NonEmpty(qs) == NonEmpty(ps) && BlankFree(qs) && Trimmed(qs)
  {
    var ls := TrimLeftJoin(ps);
    qs := TrimRightJoin(ls);
  }

  // ----- The edits on pieces ------------------------------------------------------------------

  function KeptEntries(t: string, feature: string): seq<string>
    requires ENABLE <= t
  {
    WithoutVariants(Split(t[|ENABLE|..], ','), feature)
  }

  /** What becomes of the enabling token: nothing, or the token with the entries that are kept. */
  function EnableToken(t: string, feature: string): seq<string>
    requires ENABLE <= t
  {
    ListToken(KeptEntries(t, feature))
  }

  /** What the second half finds and does at a piece. */
  lemma AtPiece(before: string, piece: string, behind: string, p: string)
    requires p <= piece && ' ' !in piece && (behind != "" ==> behind[0] == ' ')
    ensures var flags := before + piece + behind;
            var from := |before| + |p|;
            var end := ValueEnd(flags, from);
            && end == |before| + |piece| && flags[from..end] == piece[|p|..]
            && flags[..from] == before + p && flags[..end] == before + piece && flags[end..] == behind
  {
    ValueEndsWithPiece(before, piece, behind, |p|);
  }

  lemma ValueOfPiece(before: string, piece: string, behind: string, p: string)
    requires p <= piece && ' ' !in piece && (behind != "" ==> behind[0] == ' ')
    ensures var flags := before + piece + behind;
            var from := |before| + |p|;
            var end := |before| + |piece|;
            from <= end <= |flags| && ValueEnd(flags, from) == end && flags[from..end] == piece[|p|..]
  {
    AtPiece(before, piece, behind, p);
  }

  lemma NoSpaceIn(ps: seq<string>, i: nat)
    requires BlankFree(ps) && i < |ps|
    ensures ' ' !in ps[i]
  {
  }

  /** Cutting a piece out, with the separator behind or before it. */
  lemma CutPiece(ps: seq<string>, i: nat, before: string, behind: string)
    requires i < |ps|
    requires behind == if i == |ps| - 1 then "" else [' '] + Join(ps[i + 1..], ' ')
    requires before == if i == 0 then "" else Join(ps[..i], ' ') + [' ']
    ensures behind != "" ==> before + behind[1..] == JoinAll(ps[..i] + ps[i + 1..])
    ensures behind == "" && before != "" ==> before[..|before| - 1] == JoinAll(ps[..i] + ps[i + 1..])
    ensures behind == "" && before == "" ==> JoinAll(ps[..i] + ps[i + 1..]) == ""
  {
    var rest := ps[..i] + ps[i + 1..];
    if behind != "" {
      assert behind[1..] == Join(ps[i + 1..], ' ');
      if i == 0 {
        assert rest == ps[1..];
      } else {
        JoinAppend(ps[..i], ps[i + 1..], ' ');
      }
    } else if i > 0 {
      assert rest == ps[..i];
    }
  }

  lemma ListReplaced(before: string, piece: string, behind: string, kept: seq<string>)
    requires ENABLE <= piece && kept != []
    ensures Replaced(before + piece + behind, |before|, |before| + |ENABLE|, |before| + |piece|, kept)
            == before + (ENABLE + Join(kept, ',')) + behind
  {
  }

  lemma SwitchCut(before: string, piece: string, behind: string)
    requires ENABLE <= piece && (before != "" ==> before[|before| - 1] == ' ')
    ensures Replaced(before + piece + behind, |before|, |before| + |ENABLE|, |before| + |piece|, [])
            == if behind != "" then before + behind[1..]
               else if before != "" then before[..|before| - 1]
               else ""
  {
  }

  function ListToken(kept: seq<string>): seq<string> {
    if kept == [] then [] else [ENABLE + Join(kept, ',')]
  }

  /** The text after the first half, in terms of the text around the switch. */
  function EditedText(before: string, behind: string, kept: seq<string>): string {
    if kept != [] then before + (ENABLE + Join(kept, ',')) + behind
    else if behind != "" then before + behind[1..]
    else if before != "" then before[..|before| - 1]
    else ""
  }

  lemma EnabledByPlaces(flags: string, start: nat, end: nat, t: string, feature: string)
    requires ENABLE <= t && IndexOf(flags, ENABLE, 0) == start && start + |ENABLE| <= end <= |flags|
    requires ValueEnd(flags, start + |ENABLE|) == end && flags[start + |ENABLE|..end] == t[|ENABLE|..]
    ensures WithoutEnabled(flags, feature)
            == Trim(Replaced(flags, start, start + |ENABLE|, end, KeptEntries(t, feature)))
  {
  }

  lemma EditedBetween(before: string, t: string, behind: string, kept: seq<string>)
    requires ENABLE <= t && (before != "" ==> before[|before| - 1] == ' ')
    ensures Replaced(before + t + behind, |before|, |before| + |ENABLE|, |before| + |t|, kept)
            == EditedText(before, behind, kept)
  {
    if kept != [] { ListReplaced(before, t, behind, kept); } else { SwitchCut(before, t, behind); }
  }

  lemma EnabledInText(flags: string, before: string, t: string, behind: string, feature: string)
    requires flags == before + t + behind && ENABLE <= t && ' ' !in t
    requires (before != "" ==> before[|before| - 1] == ' ') && (behind != "" ==> behind[0] == ' ')
    requires IndexOf(flags, ENABLE, 0) == |before|
    ensures WithoutEnabled(flags, feature) == Trim(EditedText(before, behind, KeptEntries(t, feature)))
  {
    var from, end := |before| + |ENABLE|, |before| + |t|;
    var kept := KeptEntries(t, feature);
    assert from <= end <= |flags| && WithoutEnabled(flags, feature) == Trim(Replaced(flags, |before|, from, end, kept)) by {
      ValueOfPiece(before, t, behind, ENABLE);
      EnabledByPlaces(flags, |before|, end, t, feature);
    }
    EditedBetween(before, t, behind, kept);
  }

  lemma EditedPieces(ps: seq<string>, i: nat, before: string, behind: string, kept: seq<string>)
    requires i < |ps|
    requires behind == if i == |ps| - 1 then "" else [' '] + Join(ps[i + 1..], ' ')
    requires before == if i == 0 then "" else Join(ps[..i], ' ') + [' ']
    ensures EditedText(before, behind, kept) == JoinAll(ps[..i] + ListToken(kept) + ps[i + 1..])
  {
    if kept == [] {
      CutPiece(ps, i, before, behind);
      NothingBetween(ps[..i], ps[i + 1..]);
    } else {
      AroundOther(ps, ' ', i, ENABLE + Join(kept, ','), before, behind);
    }
  }

  lemma NothingBetween(a: seq<string>, b: seq<string>)
    ensures a + [] + b == a + b
  {
  }

  lemma EnabledEditAt(ps: seq<string>, i: nat, feature: string) returns (edited: string)
    requires i < |ps| && BlankFree(ps) && SwitchOk(ps, ENABLE) && ENABLE <= ps[i]
    ensures WithoutEnabled(Join(ps, ' '), feature) == Trim(edited)
    ensures edited == JoinAll(ps[..i] + ListToken(KeptEntries(ps[i], feature)) + ps[i + 1..])
  {
    var before, behind := AroundPiece(ps, ' ', i);
    SwitchFound(ps, ENABLE, i);
    NoSpaceIn(ps, i);
    edited := EditedText(before, behind, KeptEntries(ps[i], feature));
    EnabledInText(Join(ps, ' '), before, ps[i], behind, feature);
    EditedPieces(ps, i, before, behind, KeptEntries(ps[i], feature));
  }

  /** The token list after the first half, before trimming. */
  function DropEnabled(ps: seq<string>, feature: string): seq<string> {
    match FirstWith(ps, ENABLE)
    case None => ps
    case Some(t) => if ENABLE <= t then ReplaceFirst(ps, ENABLE, EnableToken(t, feature)) else ps
  }

  /** The first half on pieces. */
  lemma EnabledEdit(ps: seq<string>, feature: string)
    requires ps != [] && BlankFree(ps) && SwitchOk(ps, ENABLE)
    ensures WithoutEnabled(Join(ps, ' '), feature) ==
              if FirstWith(ps, ENABLE) == None then Join(ps, ' ') else Trim(JoinAll(DropEnabled(ps, feature)))
  {
    if FirstWith(ps, ENABLE) == None {
      SwitchNotFound(ps, ENABLE);
    } else {
      var i := FirstIndex(ps, ENABLE);
      var edited := EnabledEditAt(ps, i, feature);
      ReplaceAt(ps, ENABLE, i, EnableToken(ps[i], feature));
    }
  }

  // ----- The second half ----------------------------------------------------------------------

  predicate Lists(t: string, p: string, feature: string)
    requires p <= t
  {
    feature in Split(t[|p|..], ',')
  }

  lemma SwitchInText(env: string, flags: string, before: string, t: string, behind: string, feature: string)
    requires flags == before + t + behind && DISABLE <= t && ' ' !in t && (behind != "" ==> behind[0] == ' ')
    requires IndexOf(flags, DISABLE, 0) == |before|
    ensures WithSwitch(env, flags, feature)
            == if Lists(t, DISABLE, feature) then env else before + (t + "," + feature) + behind
  {
    AtPiece(before, t, behind, DISABLE);
    Extended(before, t, feature, behind);
  }

  lemma Extended(before: string, piece: string, feature: string, behind: string)
    ensures before + piece + "," + feature + behind == before + (piece + "," + feature) + behind
  {
  }

  lemma SwitchEditAt(env: string, ps: seq<string>, i: nat, feature: string) returns (edited: string)
    requires i < |ps| && BlankFree(ps) && SwitchOk(ps, DISABLE) && DISABLE <= ps[i]
    ensures WithSwitch(env, Join(ps, ' '), feature) == if Lists(ps[i], DISABLE, feature) then env else edited
    ensures edited == Join(ps[..i] + [ps[i] + "," + feature] + ps[i + 1..], ' ')
  {
    var before, behind := AroundPiece(ps, ' ', i);
    SwitchFound(ps, DISABLE, i);
    NoSpaceIn(ps, i);
    edited := before + (ps[i] + "," + feature) + behind;
    SwitchInText(env, Join(ps, ' '), before, ps[i], behind, feature);
    AroundOther(ps, ' ', i, ps[i] + "," + feature, before, behind);
  }

  /** Without the switch it is appended with the one feature. */
  lemma SwitchAppended(env: string, ps: seq<string>, feature: string)
    requires BlankFree(ps) && Trimmed(ps) && SwitchOk(ps, DISABLE) && FirstWith(ps, DISABLE) == None
    ensures WithSwitch(env, JoinAll(ps), feature) == JoinAll(ps + [DISABLE + feature])
  {
    var flags := JoinAll(ps);
    NotContained(ps, DISABLE + feature);
    TrimmedStays(ps);
    if ps != [] { JoinAppend(ps, [DISABLE + feature], ' '); }
  }

  lemma NotContained(ps: seq<string>, flag: string)
    requires SwitchOk(ps, DISABLE) && FirstWith(ps, DISABLE) == None && DISABLE <= flag
    ensures IndexOf(JoinAll(ps), DISABLE, 0) == -1 && !Contains(JoinAll(ps), flag)
  {
    if ps != [] { SwitchNotFound(ps, DISABLE); }
    var i := IndexOf(JoinAll(ps), flag, 0);
    if i >= 0 {
      assert JoinAll(ps)[i..i + |flag|][..|DISABLE|] == JoinAll(ps)[i..i + |DISABLE|];
      assert OccursAt(JoinAll(ps), DISABLE, i);
    }
  }

  lemma TrimmedStays(ps: seq<string>)
    requires BlankFree(ps) && Trimmed(ps)
    ensures Trim(JoinAll(ps)) == JoinAll(ps) && (JoinAll(ps) == "" <==> ps == [])
  {
    if ps != [] {
      var init, last := ps[..|ps| - 1], ps[|ps| - 1];
      assert ps == init + [last];
      LastStaysLast(init, last);
      assert JoinAll(ps)[0] == ps[0][0] && !IsBlank(ps[0][0]) && !IsBlank(last[|last| - 1]);
    }
  }
}
