/** A sequence handed over piece by piece. */
module Chunks {
  function Concat<T>(chunks: seq<seq<T>>): seq<T> {
    if chunks == [] then [] else chunks[0] + Concat(chunks[1..])
  }

  lemma {:induction false} ConcatAppend<T>(chunks: seq<seq<T>>, k: nat)
    requires k < |chunks|
    ensures Concat(chunks[..k + 1]) == Concat(chunks[..k]) + chunks[k]
  {
    if k == 0 {
      assert chunks[..1] == [chunks[0]];
      assert Concat(chunks[..1][1..]) == [];
    } else {
      ConcatAppend(chunks[1..], k - 1);
      assert chunks[..k + 1][1..] == chunks[1..][..k] && chunks[..k][1..] == chunks[1..][..k - 1];
      assert chunks[1..][k - 1] == chunks[k];
    }
  }

  lemma {:induction false} ConcatPrefix<T>(chunks: seq<seq<T>>, k: nat)
    requires k <= |chunks|
    ensures Concat(chunks[..k]) <= Concat(chunks)
    decreases |chunks| - k
  {
    if k == |chunks| {
      assert chunks[..k] == chunks;
    } else {
      ConcatAppend(chunks, k);
      ConcatPrefix(chunks, k + 1);
    }
  }

  /** Pieces at least as long add up to at least as much. */
  lemma {:induction false} ConcatSize<T>(a: seq<seq<T>>, b: seq<seq<T>>, more: nat)
    requires |a| < |b| && forall i :: 0 <= i < |a| ==> |a[i]| <= |b[i]|
    requires more <= |b[|a|]|
    ensures |Concat(a)| + more <= |Concat(b)|
  {
    if a != [] { ConcatSize(a[1..], b[1..], more); }
  }
}
