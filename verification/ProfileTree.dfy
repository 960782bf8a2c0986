/** A profile directory as a tree of entries, and which of them a migration carries over. */
module ProfileTree {
  import opened Wrappers
  import opened FileTree
  import opened Text

  type Name = string
  type Path = seq<Name>

  type Profile = FileTree.Tree<Name>

  function Parent(p: Path): Path
    requires p != []
  {
    p[..|p| - 1]
  }

  function Last(p: Path): Name
    requires p != []
  {
    p[|p| - 1]
  }

  // ----- Ephemeral names ----------------------------------------------------------------------

  predicate HasPrefix(s: string, prefix: string) {
    prefix <= Lower(s)
  }

  predicate HasSuffix(s: string, suffix: string) {
    |suffix| <= |s| && Lower(s)[|s| - |suffix|..] == suffix
  }

  // ----- Overlapping roots --------------------------------------------------------------------

  /** pathInside, on absolute paths in normal form, regardless of case. */
  predicate PathInside(candidate: string, parent: string) {
    Lower(candidate) == Lower(parent) || Lower(parent) + "/" <= Lower(candidate)
  }

  predicate Overlap(a: string, b: string) {
    PathInside(a, b) || PathInside(b, a)
  }

  function LowerAll(p: Path): (l: Path)
    ensures |l| == |p| && forall i :: 0 <= i < |p| ==> l[i] == Lower(p[i])
  {
    seq(|p|, i requires 0 <= i < |p| => Lower(p[i]))
  }

  lemma {:induction false} LowerOfJoin(p: Path)
    requires p != []
    ensures Lower(Join(p, '/')) == Join(LowerAll(p), '/')
  {
    if |p| > 1 {
      LowerOfJoin(p[1..]);
      assert LowerAll(p)[1..] == LowerAll(p[1..]);
      LowerOfSum(p[0] + ['/'], Join(p[1..], '/'));
      LowerOfSum(p[0], ['/']);
    }
  }

  lemma LowerOfSum(a: string, b: string)
    ensures Lower(a + b) == Lower(a) + Lower(b)
  {
  }

  lemma LowerStaysApart(p: Path)
    requires Apart(p, '/')
    ensures Apart(LowerAll(p), '/')
  {
  }

  /** In terms of text: equal, or longer by a separator and more. */
  lemma AtOrBelow(x: Path, y: Path)
    requires x != [] && y != [] && Apart(x, '/') && Apart(y, '/')
    ensures Join(x, '/') == Join(y, '/') || Join(y, '/') + ['/'] <= Join(x, '/')
            <==> y <= x
  {
    StartsWithIsNesting(y, x, '/');
    if Join(x, '/') == Join(y, '/') { JoinInjective(x, y, '/'); }
  }

  /** The textual test is nesting of directories, component by component and regardless of case. */
  lemma InsideIsNesting(a: Path, b: Path)
    requires a != [] && b != [] && Apart(a, '/') && Apart(b, '/')
    ensures PathInside(Join(a, '/'), Join(b, '/')) <==> LowerAll(b) <= LowerAll(a)
  {
    LowerOfJoin(a);
    LowerOfJoin(b);
    LowerStaysApart(a);
    LowerStaysApart(b);
    AtOrBelow(LowerAll(a), LowerAll(b));
  }

  const REPLAY_GUARD: Name := ".granger-migration-v1.json"

  predicate IsCacheName(n: Name) {
    Lower(n) in {"cache", "gpucache", "dawngraphitecache", "dawnwebgpucache", "code cache",
                 "grshadercache", "shadercache", "crashpad"}
  }

  predicate IsEphemeralName(n: Name) {
    || Lower(n) == ".granger-migration-v1.json" || Lower(n) == "lock"
    || HasPrefix(n, "singleton") || Lower(n) == "devtoolsactiveport"
    || HasSuffix(n, ".lock") || HasSuffix(n, ".tmp")
  }

  /** isEphemeralPath: a directory anywhere below a cache name, or an entry with an ephemeral name. */
  predicate IsEphemeral(p: Path, isDir: bool) {
    p != [] && ((isDir && exists i :: 0 <= i < |p| && IsCacheName(p[i])) || IsEphemeralName(Last(p)))
  }

  // ----- What is kept, skipped and refused ----------------------------------------------------

  predicate EphemeralAt(root: Profile, p: Path) {
    At(root, p).Some? && IsEphemeral(p, At(root, p).value.Dir?)
  }

  /** The entry exists and neither it nor any directory above it is ephemeral. */
  predicate Kept(root: Profile, p: Path) {
    At(root, p).Some? && forall k :: 0 <= k <= |p| ==> !EphemeralAt(root, p[..k])
  }

  /** The walk comes across the entry: all directories above it are kept. */
  predicate Met(root: Profile, p: Path) {
    p != [] && At(root, p).Some? && Kept(root, Parent(p))
  }

  predicate StagedFile(root: Profile, p: Path) {
    Kept(root, p) && At(root, p).value.File?
  }

  predicate StagedDir(root: Profile, p: Path) {
    Kept(root, p) && At(root, p).value.Dir?
  }

  /** Topmost pruned entries.  Links are refused before their names are looked at. */
  predicate Skipped(root: Profile, p: Path) {
    Met(root, p) && EphemeralAt(root, p) && !At(root, p).value.Link?
  }

  predicate Refused(root: Profile, p: Path) {
    Met(root, p) && At(root, p).value.Link?
  }

  lemma KeptAbove(root: Profile, p: Path, k: nat)
    requires Kept(root, p) && k <= |p|
    ensures Kept(root, p[..k])
  {
    assert p == p[..k] + p[k..];
    AtAppend(root, p[..k], p[k..]);
    forall l | 0 <= l <= k ensures !EphemeralAt(root, p[..k][..l]) {
      assert p[..k][..l] == p[..l];
    }
  }

  lemma KeptChild(root: Profile, p: Path)
    requires p != [] && At(root, p).Some?
    ensures Kept(root, p) <==> Kept(root, Parent(p)) && !EphemeralAt(root, p)
  {
    if Kept(root, p) {
      KeptAbove(root, p, |p| - 1);
      assert p[..|p|] == p;
    } else if Kept(root, Parent(p)) && !EphemeralAt(root, p) {
      forall k | 0 <= k <= |p| ensures !EphemeralAt(root, p[..k]) {
        if k < |p| { assert Parent(p)[..k] == p[..k]; } else { assert p[..k] == p; }
      }
    }
  }

  /** For entries the walk meets, looking at every part of the path is looking at the last. */
  lemma LastPartDecides(root: Profile, p: Path)
    requires Met(root, p)
    ensures EphemeralAt(root, p) <==>
              (At(root, p).value.Dir? && IsCacheName(Last(p))) || IsEphemeralName(Last(p))
  {
    AboveIsDir(root, p, |p| - 1);
    var above := Parent(p);
    assert above[..|above|] == above && !EphemeralAt(root, above);
    forall i | 0 <= i < |above| ensures !IsCacheName(p[i]) {
      assert above[i] == p[i];
    }
  }

  // ----- Pruning as a function on trees -------------------------------------------------------

  predicate Carried(n: Name, t: Profile) {
    (t.File? || t.Dir?) && !(t.Dir? && IsCacheName(n)) && !IsEphemeralName(n)
  }

  function Pruned(t: Profile): Profile {
    if t.Dir? then Dir(map n | n in t.entries && Carried(n, t.entries[n]) :: Pruned(t.entries[n])) else t
  }

  /** The pruned tree holds exactly the kept files and directories, each with its content. */
  lemma {:induction false} PrunedHoldsKept(root: Profile, p: Path)
    requires root.Dir?
    ensures (StagedFile(root, p) || StagedDir(root, p)) <==> At(Pruned(root), p).Some?
    ensures At(Pruned(root), p).Some? ==> At(Pruned(root), p) == Some(Pruned(At(root, p).value))
    decreases |p|
  {
    if p != [] {
      var above, n := Parent(p), Last(p);
      assert p == above + [n];
      PrunedHoldsKept(root, above);
      AtAppend(root, above, [n]);
      AtAppend(Pruned(root), above, [n]);
      if At(root, p).Some? {
        KeptChild(root, p);
        AboveIsDir(root, p, |p| - 1);
        AtChild(root, above, n);
        if Kept(root, above) { LastPartDecides(root, p); }
      }
    } else {
      assert !EphemeralAt(root, []);
    }
  }
}
