/** A directory and everything below it, by entry names of type N. */
module FileTree {
  import opened Wrappers
  import opened Octets

  /** `Other` is anything that is neither file, directory nor link: a device, a socket. */
  datatype Tree<N(==)> = File(content: Bytes) | Dir(entries: map<N, Tree<N>>) | Link | Other

  function At<N>(t: Tree<N>, p: seq<N>): Option<Tree<N>> {
    if p == [] then Some(t)
    else if t.Dir? && p[0] in t.entries then At(t.entries[p[0]], p[1..])
    else None
  }

  lemma {:induction false} AtAppend<N>(t: Tree<N>, p: seq<N>, q: seq<N>)
    ensures At(t, p + q) == if At(t, p).Some? then At(At(t, p).value, q) else None
  {
    if p == [] {
      assert p + q == q;
    } else if t.Dir? && p[0] in t.entries {
      assert (p + q)[0] == p[0] && (p + q)[1..] == p[1..] + q;
      AtAppend(t.entries[p[0]], p[1..], q);
    } else {
      assert (p + q)[0] == p[0];
    }
  }

  lemma AtChild<N>(root: Tree<N>, p: seq<N>, n: N)
    requires At(root, p).Some?
    ensures At(root, p + [n]) ==
              var d := At(root, p).value;
              if d.Dir? && n in d.entries then Some(d.entries[n]) else None
  {
    AtAppend(root, p, [n]);
  }

  /** Above an entry there are only directories. */
  lemma AboveIsDir<N>(root: Tree<N>, p: seq<N>, k: nat)
    requires At(root, p).Some? && k < |p|
    ensures At(root, p[..k]).Some? && At(root, p[..k]).value.Dir?
    ensures p[k] in At(root, p[..k]).value.entries
  {
    assert p == p[..k] + p[k..];
    AtAppend(root, p[..k], p[k..]);
  }

  /** `p` leads through one of the entries `done` of the directory `d`. */
  predicate Through<N(==)>(d: seq<N>, done: set<N>, p: seq<N>) {
    |p| > |d| && d <= p && p[|d|] in done
  }

  lemma ThroughOneMore<N>(d: seq<N>, done: set<N>, n: N, p: seq<N>)
    ensures Through(d, done + {n}, p) <==> Through(d, done, p) || d + [n] <= p
    ensures n !in done ==> !(Through(d, done, p) && d + [n] <= p)
  {
  }

  /** Whatever lies below a directory leads through one of its entries. */
  lemma ThroughAll<N>(root: Tree<N>, d: seq<N>, p: seq<N>)
    requires At(root, d).Some? && At(root, d).value.Dir?
    requires At(root, p).Some? && d <= p && p != d
    ensures Through(d, At(root, d).value.entries.Keys, p)
  {
  }

  /** Below anything else there is nothing. */
  lemma NothingBelowLeaf<N>(root: Tree<N>, d: seq<N>, p: seq<N>)
    requires At(root, d).Some? && !At(root, d).value.Dir? && d <= p && p != d
    ensures At(root, p) == None
  {
  }
}
