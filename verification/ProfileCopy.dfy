/** `copyTree` and `copyVerifiedFile`: the recursive, verified copy into a staging directory. */
module ProfileCopy {
  import opened Wrappers
  import opened Octets
  import opened FileTree
  import opened ProfileTree
  import opened ProfileNames
  import opened Text

  /** A directory on disk, flat: its files and directories by path.  An empty one holds only []. */
  datatype Volume = Volume(files: map<Path, Bytes>, dirs: set<Path>)

  datatype FileHash = Sha256(content: Bytes)

  /** How one file operation turns out: it works, it fails, or the disk keeps something else. */
  datatype Io = Works | Fails | Keeps(content: Bytes)

  const CHUNK: nat := 1024 * 1024

  function Prefixes(p: Path): set<Path> {
    set k | 0 <= k <= |p| :: p[..k]
  }

  // ----- Total size ---------------------------------------------------------------------------

  ghost function Pick(keys: set<Path>): (k: Path)
    requires keys != {}
    ensures k in keys
  {
    var k :| k in keys; k
  }

  ghost function Sum(files: map<Path, Bytes>, keys: set<Path>): nat
    requires keys <= files.Keys
  {
    if keys == {} then 0 else |files[Pick(keys)]| + Sum(files, keys - {Pick(keys)})
  }

  lemma {:induction false} SumWithout(files: map<Path, Bytes>, keys: set<Path>, k: Path)
    requires keys <= files.Keys && k in keys
    ensures Sum(files, keys) == |files[k]| + Sum(files, keys - {k})
    decreases |keys|
  {
    var j := Pick(keys);
    if j != k {
      SumWithout(files, keys - {j}, k);
      SumWithout(files, keys - {k}, j);
      assert keys - {j} - {k} == keys - {k} - {j};
    }
  }

  lemma {:induction false} SumElsewhere(files: map<Path, Bytes>, keys: set<Path>, k: Path, c: Bytes)
    requires keys <= files.Keys && k !in keys
    ensures Sum(files[k := c], keys) == Sum(files, keys)
    decreases |keys|
  {
    if keys != {} { SumElsewhere(files, keys - {Pick(keys)}, k, c); }
  }

  ghost function TotalSize(files: map<Path, Bytes>): nat {
    Sum(files, files.Keys)
  }

  lemma OneMoreFile(files: map<Path, Bytes>, p: Path, c: Bytes)
    requires p !in files
    ensures TotalSize(files[p := c]) == TotalSize(files) + |c|
    ensures |files[p := c]| == |files| + 1
  {
    var more := files[p := c];
    SumWithout(more, more.Keys, p);
    assert more.Keys - {p} == files.Keys;
    SumElsewhere(files, files.Keys, p, c);
    assert |more.Keys| == |files.Keys| + 1;
  }

  // ----- The image of a profile ---------------------------------------------------------------

  /** Exactly the kept files, each with its content, and the kept directories. */
  ghost predicate IsImage(root: Profile, v: Volume) {
    && (forall p :: p in v.files <==> StagedFile(root, p))
    && (forall p :: p in v.files ==> v.files[p] == At(root, p).value.content)
    && (forall p :: p in v.dirs <==> StagedDir(root, p))
  }

  lemma ImageIsUnique(root: Profile, v: Volume, w: Volume)
    requires IsImage(root, v) && IsImage(root, w)
    ensures v == w
  {
  }

  ghost predicate NoLinkMet(root: Profile) {
    forall p :: !Refused(root, p)
  }

  /** Not every link stops the copy: one below a pruned directory is never met. */
  lemma LinkInCacheIsNotMet()
    ensures var inner: Profile := Dir(map["x" := Link]);
            var root: Profile := Dir(map["cache" := inner]);
            At(root, ["cache", "x"]) == Some(Link) && NoLinkMet(root)
  {
    var inner: Profile := Dir(map["x" := Link]);
    var root: Profile := Dir(map["cache" := inner]);
    assert ["cache", "x"][1..] == ["x"] && ["x"][1..] == [];
    forall p ensures !Refused(root, p) {
      if p != [] && At(root, p).Some? {
        AboveIsDir(root, p, 0);
        if |p| > 1 { CacheIsPruned(root, inner, p); }
      }
    }
  }

  lemma CacheIsPruned(root: Profile, inner: Profile, p: Path)
    requires root == Dir(map["cache" := inner]) && inner.Dir? && |p| > 1 && p[0] == "cache"
    ensures !Kept(root, Parent(p))
  {
    assert Parent(p)[..1] == ["cache"] && ["cache"][1..] == [];
    assert Lower("cache") == "cache" && IsCacheName(["cache"][0]);
    assert EphemeralAt(root, ["cache"]);
  }

  // ----- Paths below a directory --------------------------------------------------------------

  /** Which paths a stage has files, directories and skipped entries for. */
  datatype Ledger = Ledger(files: set<Path>, dirs: set<Path>, skipped: seq<Path>)

  /** Between two ledgers exactly what belongs at and below `top` was added. */
  ghost predicate Gains(root: Profile, before: Ledger, after: Ledger, top: Path) {
    && (forall p :: p in after.files <==> p in before.files || (top <= p && StagedFile(root, p)))
    && (forall p :: p in after.dirs <==> p in before.dirs || (top <= p && StagedDir(root, p)))
    && (forall p :: p in after.skipped <==> p in before.skipped || (top <= p && Skipped(root, p)))
  }

  /** The directory `d` itself and what leads through its entries `done` was added. */
  ghost predicate GainsThrough(root: Profile, before: Ledger, after: Ledger, d: Path, done: set<Name>) {
    && (forall p :: p in after.files <==> p in before.files || (Through(d, done, p) && StagedFile(root, p)))
    && (forall p :: p in after.dirs <==>
          p in before.dirs || p == d || (Through(d, done, p) && StagedDir(root, p)))
    && (forall p :: p in after.skipped <==> p in before.skipped || (Through(d, done, p) && Skipped(root, p)))
  }

  ghost predicate NoLinkAt(root: Profile, top: Path) {
    forall p :: top <= p ==> !Refused(root, p)
  }

  ghost predicate NoLinkThrough(root: Profile, d: Path, done: set<Name>) {
    forall p :: Through(d, done, p) ==> !Refused(root, p)
  }

  lemma GainsOneMore(root: Profile, before: Ledger, mid: Ledger, after: Ledger, d: Path, done: set<Name>, n: Name)
    requires GainsThrough(root, before, mid, d, done) && Gains(root, mid, after, d + [n])
    ensures GainsThrough(root, before, after, d, done + {n})
  {
    forall p ensures Through(d, done + {n}, p) <==> Through(d, done, p) || d + [n] <= p {
      ThroughOneMore(d, done, n, p);
    }
  }

  lemma NoLinkOneMore(root: Profile, d: Path, done: set<Name>, n: Name)
    requires NoLinkThrough(root, d, done) && NoLinkAt(root, d + [n])
    ensures NoLinkThrough(root, d, done + {n})
  {
  }

  lemma LinkAbove(root: Profile, d: Path, n: Name)
    ensures NoLinkAt(root, d) ==> NoLinkAt(root, d + [n])
  {
    if NoLinkAt(root, d) {
      forall p | d + [n] <= p ensures !Refused(root, p) { assert p[..|d|] == (d + [n])[..|d|] == d; }
    }
  }

  lemma GainsAll(root: Profile, before: Ledger, after: Ledger, d: Path)
    requires StagedDir(root, d)
    requires GainsThrough(root, before, after, d, At(root, d).value.entries.Keys)
    requires NoLinkThrough(root, d, At(root, d).value.entries.Keys)
    ensures Gains(root, before, after, d) && NoLinkAt(root, d)
  {
    assert d[..|d|] == d;
    forall p | d <= p && p != d && At(root, p).Some?
      ensures Through(d, At(root, d).value.entries.Keys, p)
    {
      ThroughAll(root, d, p);
    }
  }

  class Stage {
    const root: Profile
    var files: map<Path, Bytes>
    var dirs: set<Path>
    var copiedFiles: nat
    var copiedBytes: nat
    var skipped: seq<Path>
    var script: seq<Io>

    ghost predicate Valid()
      reads this
    {
      && (forall p :: p in files ==> StagedFile(root, p) && files[p] == At(root, p).value.content)
      && copiedFiles == |files| && copiedBytes == TotalSize(files)
      && (forall i, j :: 0 <= i < j < |skipped| ==> skipped[i] != skipped[j])
    }

    ghost function Now(): Ledger
      reads this
    {
      Ledger(files.Keys, dirs, skipped)
    }

    /** Nothing of what belongs below `d` is staged yet, and the directories above are. */
    ghost predicate Ready(d: Path)
      reads this
    {
      && StagedDir(root, d) && (forall k :: 0 <= k < |d| ==> d[..k] in dirs)
      && (forall p :: p in files || p in dirs || p in skipped ==> !(d <= p))
    }

    constructor (root: Profile, script: seq<Io>)
      ensures Valid() && this.root == root && this.script == script
      ensures files == map[] && dirs == {} && skipped == []
    {
      this.root, this.script := root, script;
      files, dirs, copiedFiles, copiedBytes, skipped := map[], {}, 0, 0, [];
    }

    method NextIo() returns (io: Io)
      modifies this`script
      ensures old(script) == [] ==> io == Works && script == []
    {
      if script == [] { return Works; }
      io := script[0];
      script := script[1..];
    }

    /** Reads the source in chunks, commits what was read, and compares what the disk holds. */
    method CopyVerifiedFile(p: Path) returns (ok: bool)
      requires Valid() && StagedFile(root, p) && p !in files
      modifies this`files, this`copiedBytes, this`script
      ensures ok ==> files == old(files)[p := At(root, p).value.content]
                     && copiedBytes == old(copiedBytes) + |At(root, p).value.content|
      ensures old(script) == [] ==> ok && script == []
    {
      var content := At(root, p).value.content;
      var output: Bytes := [];
      while |output| < |content|
        invariant |output| <= |content| && output == content[..|output|]
        invariant old(script) == [] ==> script == []
        invariant files == old(files) && copiedBytes == old(copiedBytes)
      {
        var io := NextIo();
        if io == Fails { return false; }
        var end := if |output| + CHUNK < |content| then |output| + CHUNK else |content|;
        output := output + content[|output|..end];
      }
      assert output == content;
      var io := NextIo();
      if io == Fails { return false; }
      files := files[p := if io.Keeps? then io.content else output];
      io := NextIo();
      if io == Fails || Sha256(files[p]) != Sha256(output) { return false; }
      copiedBytes := copiedBytes + |output|;
      return true;
    }

    /** One entry of a directory.  Whether it is a link is asked before whether it is ephemeral. */
    method CopyEntry(d: Path, n: Name) returns (ok: bool)
      requires Valid() && StagedDir(root, d) && n in At(root, d).value.entries
      requires forall k :: 0 <= k <= |d| ==> d[..k] in dirs
      requires forall p :: p in files || p in dirs || p in skipped ==> !(d + [n] <= p)
      modifies this`files, this`dirs, this`copiedFiles, this`copiedBytes, this`skipped, this`script
      ensures ok ==> Valid() && Gains(root, old(Now()), Now(), d + [n]) && NoLinkAt(root, d + [n])
      ensures old(script) == [] ==> script == [] && (!ok ==> !NoLinkAt(root, d + [n]))
      decreases At(root, d).value, 0
    {
      var relative := d + [n];
      var entry := At(root, d).value.entries[n];
      AtChild(root, d, n);
      assert relative <= relative;
      if entry.Link? {
        assert Refused(root, relative);
        return false;
      }
      if IsEphemeral(relative, entry.Dir?) {
        Prune(relative);
        return true;
      }
      KeptChild(root, relative);
      if entry.Dir? {
        assert forall k :: 0 <= k < |relative| ==> relative[..k] == d[..k];
        ok := CopyTree(relative);
      } else {
        ok := CopyLeaf(relative);
      }
    }

    /** A topmost ephemeral entry is listed and left alone. */
    method Prune(p: Path)
      requires Valid() && Skipped(root, p) && p !in skipped
      modifies this`skipped
      ensures Valid() && Gains(root, old(Now()), Now(), p) && NoLinkAt(root, p)
    {
      PrunedEntry(root, p);
      skipped := skipped + [p];
    }

    /** A file is copied and counted; anything else that is no directory is passed over silently. */
    method CopyLeaf(p: Path) returns (ok: bool)
      requires Valid() && Kept(root, p) && p !in files
      requires !At(root, p).value.Dir? && !At(root, p).value.Link?
      modifies this`files, this`copiedFiles, this`copiedBytes, this`script
      ensures ok ==> Valid() && Gains(root, old(Now()), Now(), p) && NoLinkAt(root, p)
      ensures old(script) == [] ==> ok && script == []
    {
      LeafEntry(root, p);
      if At(root, p).value.File? {
        OneMoreFile(files, p, At(root, p).value.content);
        ok := CopyVerifiedFile(p);
        if !ok { return; }
        copiedFiles := copiedFiles + 1;
      }
      return true;
    }

    /** copyTree: succeeds, in the absence of I/O faults, exactly when the walk meets no link; then it
        has staged exactly the kept files and directories below `d` and listed the pruned entries,
        as their names decide. */
    method CopyTree(d: Path) returns (ok: bool)
      requires Valid() && Ready(d)
      modifies this`files, this`dirs, this`copiedFiles, this`copiedBytes, this`skipped, this`script
      ensures ok ==> Valid() && Gains(root, old(Now()), Now(), d) && NoLinkAt(root, d)
      ensures ok ==> ByName(root, files.Keys, dirs, skipped, d)
      ensures old(script) == [] ==> script == [] && (!ok ==> !NoLinkAt(root, d))
      decreases At(root, d).value, 2
    {
      ghost var before := Now();
      ok := Enter(d);
      if !ok { return; }
      var entries := At(root, d).value.entries.Keys;
      var todo, done := entries, {};
      while todo != {}
        invariant Valid() && done + todo == entries && done !! todo
        invariant GainsThrough(root, before, Now(), d, done) && NoLinkThrough(root, d, done)
        invariant old(script) == [] ==> script == []
        decreases todo
      {
        var n :| n in todo;
        ok := CopyNext(d, n, done, before);
        if !ok { return; }
        todo, done := todo - {n}, done + {n};
      }
      GainsAll(root, before, Now(), d);
      GainedByName(before, d);
      return true;
    }

    /** A stage that gained everything holds the image. */
    lemma HoldsImage()
      requires Valid() && Gains(root, Ledger({}, {}, []), Now(), []) && NoLinkAt(root, [])
      ensures IsImage(root, Volume(files, dirs)) && forall p :: p in skipped <==> Skipped(root, p)
    {
    }

    lemma GainedByName(before: Ledger, d: Path)
      requires Gains(root, before, Now(), d) && NoLinkAt(root, d) && StagedDir(root, d)
      requires forall p :: p in before.files || p in before.dirs || p in before.skipped ==> !(d <= p)
      ensures ByName(root, files.Keys, dirs, skipped, d)
    {
      StagedByName(root, files.Keys, dirs, skipped, d);
    }

    /** One more entry behind those that are done. */
    method CopyNext(d: Path, n: Name, ghost done: set<Name>, ghost before: Ledger) returns (ok: bool)
      requires Valid() && StagedDir(root, d) && n in At(root, d).value.entries && n !in done
      requires forall k :: 0 <= k < |d| ==> d[..k] in before.dirs
      requires forall p :: p in before.files || p in before.dirs || p in before.skipped ==> !(d <= p)
      requires GainsThrough(root, before, Now(), d, done) && NoLinkThrough(root, d, done)
      modifies this`files, this`dirs, this`copiedFiles, this`copiedBytes, this`skipped, this`script
      ensures ok ==> Valid() && GainsThrough(root, before, Now(), d, done + {n}) && NoLinkThrough(root, d, done + {n})
      ensures old(script) == [] ==> script == [] && (!ok ==> !NoLinkAt(root, d))
      decreases At(root, d).value, 1
    {
      ghost var mid := Now();
      NotYetThere(d, done, n, before);
      DirectoriesAbove(d, before);
      ok := CopyEntry(d, n);
      if ok {
        GainsOneMore(root, before, mid, Now(), d, done, n);
        NoLinkOneMore(root, d, done, n);
      } else {
        LinkAbove(root, d, n);
      }
    }

    lemma DirectoriesAbove(d: Path, before: Ledger)
      requires (forall k :: 0 <= k < |d| ==> d[..k] in before.dirs) && d in dirs
      requires forall p :: p in before.dirs ==> p in dirs
      ensures forall k :: 0 <= k <= |d| ==> d[..k] in dirs
    {
      assert d[..|d|] == d;
    }

    lemma NotYetThere(d: Path, done: set<Name>, n: Name, before: Ledger)
      requires GainsThrough(root, before, Now(), d, done) && n !in done
      requires forall p :: p in before.files || p in before.dirs || p in before.skipped ==> !(d <= p)
      ensures forall p :: p in files || p in dirs || p in skipped ==> !(d + [n] <= p)
    {
    }

    /** mkpath of the directory itself. */
    method Enter(d: Path) returns (ok: bool)
      requires Valid() && Ready(d)
      modifies this`dirs, this`script
      ensures ok ==> Valid() && dirs == old(dirs) + {d} && GainsThrough(root, old(Now()), Now(), d, {})
      ensures old(script) == [] ==> ok && script == []
    {
      var io := NextIo();
      if io == Fails { return false; }
      PathMade(d, dirs);
      dirs := dirs + Prefixes(d);
      return true;
    }
  }

  lemma NoLinkAnywhere(root: Profile)
    ensures NoLinkAt(root, []) <==> NoLinkMet(root)
  {
  }

  lemma PathMade(d: Path, dirs: set<Path>)
    requires forall k :: 0 <= k < |d| ==> d[..k] in dirs
    ensures dirs + Prefixes(d) == dirs + {d}
  {
    assert d[..|d|] == d;
    forall p | p in Prefixes(d) ensures p in dirs || p == d {
      var k :| 0 <= k <= |d| && p == d[..k];
    }
    assert d in Prefixes(d);
  }

  /** Below a pruned entry the walk meets nothing, not even links. */
  lemma PrunedEntry(root: Profile, d: Path)
    requires Skipped(root, d)
    ensures forall p :: d <= p ==> !StagedFile(root, p) && !StagedDir(root, p) && !Refused(root, p)
    ensures forall p :: d <= p ==> (Skipped(root, p) <==> p == d)
  {
    forall p | d <= p
      ensures !Kept(root, p) && (p != d ==> !Met(root, p))
    {
      assert p[..|d|] == d;
      if p != d { assert Parent(p)[..|d|] == d; }
    }
  }

  lemma LeafEntry(root: Profile, d: Path)
    requires Kept(root, d) && !At(root, d).value.Dir? && !At(root, d).value.Link?
    ensures forall p :: d <= p ==> (StagedFile(root, p) <==> p == d && At(root, d).value.File?)
    ensures forall p :: d <= p ==> !StagedDir(root, p) && !Refused(root, p) && !Skipped(root, p)
  {
    assert d[..|d|] == d;
    forall p | d <= p ensures p != d ==> At(root, p) == None {
      if p != d { NothingBelowLeaf(root, d, p); }
    }
  }

}
