/** Places in a string seen as places in the list of its pieces between separators. */
module FlagText {
  import opened ChromiumFlags
  import opened Text

  /** Where piece `i` begins. */
  function Offset(ps: seq<string>, i: nat): nat
    requires i < |ps|
  {
    if i == 0 then 0 else |ps[0]| + 1 + Offset(ps[1..], i - 1)
  }

  lemma JoinCons(ps: seq<string>, c: char)
    requires |ps| > 1
    ensures Join(ps, c) == ps[0] + ([c] + Join(ps[1..], c))
  {
  }

  /** Text in front of piece `i`, separators included, and text behind it. */
  function Front(ps: seq<string>, c: char, i: nat): (t: string)
    requires i < |ps|
    ensures |t| == Offset(ps, i)
  {
    if i == 0 then "" else ps[0] + ([c] + Front(ps[1..], c, i - 1))
  }

  function Back(ps: seq<string>, c: char, i: nat): string
    requires i < |ps|
  {
    if i == |ps| - 1 then "" else [c] + Join(ps[i + 1..], c)
  }

  lemma Regroup(first: string, c: char, b: string, x: string, e: string)
    ensures first + ([c] + (b + x + e)) == first + ([c] + b) + x + e
  {
  }

  lemma {:induction false} JoinAround(ps: seq<string>, c: char, i: nat)
    requires i < |ps|
    ensures Join(ps, c) == Front(ps, c, i) + ps[i] + Back(ps, c, i)
  {
    if i > 0 {
      JoinAround(ps[1..], c, i - 1);
      JoinCons(ps, c);
      assert ps[1..][i..] == ps[i + 1..];
      Regroup(ps[0], c, Front(ps[1..], c, i - 1), ps[i], Back(ps, c, i));
    }
  }

  lemma {:induction false} FrontIsJoin(ps: seq<string>, c: char, i: nat)
    requires i < |ps|
    ensures Front(ps, c, i) == if i == 0 then "" else Join(ps[..i], c) + [c]
  {
    if i == 1 {
      assert ps[..1] == [ps[0]];
    } else if i > 1 {
      FrontIsJoin(ps[1..], c, i - 1);
      assert ps[..i][1..] == ps[1..][..i - 1];
      JoinCons(ps[..i], c);
    }
  }

  /** Text in front of and behind piece `i`. */
  lemma AroundPiece(ps: seq<string>, c: char, i: nat) returns (before: string, behind: string)
    requires i < |ps|
    ensures |before| == Offset(ps, i)
    ensures behind == if i == |ps| - 1 then "" else [c] + Join(ps[i + 1..], c)
    ensures before == if i == 0 then "" else Join(ps[..i], c) + [c]
    ensures Join(ps, c) == before + ps[i] + behind
  {
    before, behind := Front(ps, c, i), Back(ps, c, i);
    JoinAround(ps, c, i);
    FrontIsJoin(ps, c, i);
  }

  /** The same text stands around whatever is put in the piece's place. */
  lemma AroundOther(ps: seq<string>, c: char, i: nat, x: string, before: string, behind: string)
    requires i < |ps|
    requires behind == if i == |ps| - 1 then "" else [c] + Join(ps[i + 1..], c)
    requires before == if i == 0 then "" else Join(ps[..i], c) + [c]
    ensures Join(ps[..i] + [x] + ps[i + 1..], c) == before + x + behind
  {
    var qs := ps[..i] + [x] + ps[i + 1..];
    var b, e := AroundPiece(qs, c, i);
    assert qs[..i] == ps[..i] && qs[i + 1..] == ps[i + 1..];
  }

  lemma SeparatorInside(s: string, p: string, q: int, n: int)
    requires OccursAt(s, p, q) && q <= n < q + |p|
    ensures s[n] in p
  {
  }

  lemma OccursBehind(front: string, s: string, p: string, q: int)
    ensures OccursAt(front + s, p, |front| + q) && q >= 0 <==> OccursAt(s, p, q)
  {
  }

  lemma OccursInFront(s: string, more: string, p: string, q: int)
    requires q + |p| <= |s|
    ensures OccursAt(s + more, p, q) <==> OccursAt(s, p, q)
  {
  }

  /** A text without the separator that occurs in the string occurs within one piece. */
  lemma {:induction false} WithinPiece(ps: seq<string>, c: char, p: string, q: int) returns (j: nat, r: nat)
    requires |ps| >= 1 && p != "" && c !in p && OccursAt(Join(ps, c), p, q)
    ensures j < |ps| && q == Offset(ps, j) + r && OccursAt(ps[j], p, r)
  {
    if |ps| == 1 {
      j, r := 0, q;
    } else {
      JoinCons(ps, c);
      var n := |ps[0]|;
      if q + |p| <= n {
        OccursInFront(ps[0], [c] + Join(ps[1..], c), p, q);
        j, r := 0, q;
      } else {
        if q <= n { SeparatorInside(Join(ps, c), p, q, n); }
        var rest := Join(ps[1..], c);
        assert Join(ps, c) == (ps[0] + [c]) + rest;
        OccursBehind(ps[0] + [c], rest, p, q - n - 1);
        var k, t := WithinPiece(ps[1..], c, p, q - n - 1);
        j, r := k + 1, t;
      }
    }
  }

  /** And what occurs in a piece occurs in the string. */
  lemma FromPiece(ps: seq<string>, c: char, p: string, j: nat, r: nat)
    requires j < |ps| && OccursAt(ps[j], p, r)
    ensures OccursAt(Join(ps, c), p, Offset(ps, j) + r)
  {
  }
}
