/** Sequences without repetitions, and numbers not used yet. */
module Collections {
  ghost predicate NoDup<T(!new)>(s: seq<T>) {
    forall i, j :: 0 <= i < j < |s| ==> s[i] != s[j]
  }

  lemma {:induction false} NumberAbove(s: set<nat>) returns (n: nat)
    ensures forall k :: k in s ==> k < n
  {
    if s == {} {
      n := 0;
    } else {
      var k :| k in s;
      var rest := NumberAbove(s - {k});
      n := if k < rest then rest else k + 1;
      forall x | x in s ensures x < n { assert x == k || x in s - {k}; }
    }
  }
}
