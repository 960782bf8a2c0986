/** Ordered lists of conditions: the first that fails decides. */
module Checklist {
  import opened Wrappers

  /** What goes with the first condition that fails. */
  ghost function FirstFault<E>(checks: seq<(bool, E)>): Option<E> {
    if checks == [] then None
    else if !checks[0].0 then Some(checks[0].1)
    else FirstFault(checks[1..])
  }

  lemma {:induction false} FirstFaultOfSum<E>(a: seq<(bool, E)>, b: seq<(bool, E)>)
    ensures FirstFault(a + b) == if FirstFault(a).Some? then FirstFault(a) else FirstFault(b)
  {
    if a == [] {
      assert a + b == b;
    } else {
      assert (a + b)[1..] == a[1..] + b;
      FirstFaultOfSum(a[1..], b);
    }
  }

  lemma Behind<E>(c: seq<(bool, E)>)
    requires c != []
    ensures FirstFault(c) == if !c[0].0 then Some(c[0].1) else FirstFault(c[1..])
  {
  }

  lemma BehindTwo<E>(c: seq<(bool, E)>)
    requires |c| >= 2
    ensures FirstFault(c)
            == if !c[0].0 then Some(c[0].1) else if !c[1].0 then Some(c[1].1) else FirstFault(c[2..])
  {
    Behind(c);
    Behind(c[1..]);
    assert c[1..][1..] == c[2..] && c[1..][0] == c[1];
  }

  lemma TwoChecks<E>(c: seq<(bool, E)>)
    requires |c| == 2
    ensures FirstFault(c) == if !c[0].0 then Some(c[0].1) else if !c[1].0 then Some(c[1].1) else None
  {
    BehindTwo(c);
    assert c[2..] == [];
  }

  lemma ThreeChecks<E>(c: seq<(bool, E)>)
    requires |c| == 3
    ensures FirstFault(c) == if !c[0].0 then Some(c[0].1) else if !c[1].0 then Some(c[1].1)
                             else if !c[2].0 then Some(c[2].1) else None
  {
    BehindTwo(c);
    Behind(c[2..]);
    assert c[2..][1..] == [] && c[2..][0] == c[2];
  }

  lemma FourChecks<E>(c: seq<(bool, E)>)
    requires |c| == 4
    ensures FirstFault(c)
            == if !c[0].0 then Some(c[0].1) else if !c[1].0 then Some(c[1].1)
               else if !c[2].0 then Some(c[2].1) else if !c[3].0 then Some(c[3].1) else None
  {
    BehindTwo(c);
    BehindTwo(c[2..]);
    assert c[2..][2..] == [] && c[2..][0] == c[2] && c[2..][1] == c[3];
  }
}
