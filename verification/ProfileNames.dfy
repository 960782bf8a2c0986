/** Which names a profile copy passes over, letter by letter, and what that makes of each entry. */
module ProfileNames {
  import opened Wrappers
  import opened FileTree
  import opened Text
  import opened ProfileTree

  /** The letters of `l`, each small or capital. */
  predicate InAnyCase(s: string, l: string) {
    |s| == |l| && forall i :: 0 <= i < |l| ==> s[i] == l[i] || (97 <= l[i] as int <= 122 && s[i] as int == l[i] as int - 32)
  }

  ghost predicate Begins(s: string, l: string) {
    exists front, rest :: s == front + rest && InAnyCase(front, l)
  }

  ghost predicate Ends(s: string, l: string) {
    exists front, rest :: s == front + rest && InAnyCase(rest, l)
  }

  const PASSED_NAMES: seq<string> := [".granger-migration-v1.json", "lock", "devtoolsactiveport"]
  const CACHES: seq<string> := ["cache", "gpucache", "dawngraphitecache", "dawnwebgpucache", "code cache",
                                "grshadercache", "shadercache", "crashpad"]

  /** Locks, temporary files, the marks of a running browser, and the guard of an earlier migration. */
  ghost predicate PassedOver(n: Name) {
    || (exists i :: 0 <= i < |PASSED_NAMES| && InAnyCase(n, PASSED_NAMES[i]))
    || Begins(n, "singleton") || Ends(n, ".lock") || Ends(n, ".tmp")
  }

  predicate CacheFolder(n: Name) {
    exists i :: 0 <= i < |CACHES| && InAnyCase(n, CACHES[i])
  }

  predicate Small(l: string) {
    forall i :: 0 <= i < |l| ==> !(65 <= l[i] as int <= 90)
  }

  lemma LowerIff(s: string, l: string)
    requires Small(l)
    ensures Lower(s) == l <==> InAnyCase(s, l)
  {
    if InAnyCase(s, l) {
      forall i | 0 <= i < |l| ensures Lower(s)[i] == l[i] {}
    } else if Lower(s) == l {
      forall i | 0 <= i < |l| ensures s[i] == l[i] || (97 <= l[i] as int <= 122 && s[i] as int == l[i] as int - 32) {
        assert Lower(s)[i] == l[i];
      }
    }
  }

  /** A text has the prefix exactly when its lower case is the prefix and something more. */
  lemma PrefixIff(s: string, l: string)
    requires Small(l)
    ensures HasPrefix(s, l) <==> Begins(s, l)
    ensures HasPrefix(s, l) <==> exists rest :: Lower(s) == l + rest
  {
    if l <= Lower(s) {
      assert Lower(s) == l + Lower(s)[|l|..];
      LowerIff(s[..|l|], l);
      assert Lower(s)[..|l|] == Lower(s[..|l|]);
      assert s == s[..|l|] + s[|l|..];
    }
    if Begins(s, l) {
      var front, rest :| s == front + rest && InAnyCase(front, l);
      LowerIff(front, l);
      LowerOfSum(front, rest);
    }
  }

  lemma SuffixIff(s: string, l: string)
    requires Small(l)
    ensures HasSuffix(s, l) <==> Ends(s, l)
    ensures HasSuffix(s, l) <==> exists front :: Lower(s) == front + l
  {
    var k := |s| - |l|;
    if HasSuffix(s, l) {
      assert Lower(s) == Lower(s)[..k] + l;
      LowerIff(s[k..], l);
      assert Lower(s)[k..] == Lower(s[k..]);
      assert s == s[..k] + s[k..];
    }
    if Ends(s, l) {
      var front, rest :| s == front + rest && InAnyCase(rest, l);
      LowerIff(rest, l);
      LowerOfSum(front, rest);
    }
    if exists front :: Lower(s) == front + l {
      var front :| Lower(s) == front + l;
      assert |Lower(s)| == |s|;
    }
  }

  lemma CacheIff(n: Name)
    ensures IsCacheName(n) <==> CacheFolder(n)
  {
    forall i | 0 <= i < |CACHES| ensures Lower(n) == CACHES[i] <==> InAnyCase(n, CACHES[i]) {
      LowerIff(n, CACHES[i]);
    }
    assert CacheFolder(n) <==> Lower(n) in CACHES;
  }

  lemma PassedNameIff(n: Name)
    ensures (exists i :: 0 <= i < |PASSED_NAMES| && InAnyCase(n, PASSED_NAMES[i]))
            <==> Lower(n) == ".granger-migration-v1.json" || Lower(n) == "lock" || Lower(n) == "devtoolsactiveport"
  {
    forall i | 0 <= i < |PASSED_NAMES| ensures Lower(n) == PASSED_NAMES[i] <==> InAnyCase(n, PASSED_NAMES[i]) {
      LowerIff(n, PASSED_NAMES[i]);
    }
    assert Lower(n) == PASSED_NAMES[0] <==> InAnyCase(n, PASSED_NAMES[0]);
    assert Lower(n) == PASSED_NAMES[1] <==> InAnyCase(n, PASSED_NAMES[1]);
    assert Lower(n) == PASSED_NAMES[2] <==> InAnyCase(n, PASSED_NAMES[2]);
  }

  lemma PassedOverIff(n: Name)
    ensures IsEphemeralName(n) <==> PassedOver(n)
  {
    PassedNameIff(n);
    PrefixIff(n, "singleton");
    SuffixIff(n, ".lock");
    SuffixIff(n, ".tmp");
  }

  // ----- What becomes of the entries of a directory that is copied ------------------------------

  /** Files are staged unless they are passed over, directories unless they are passed over or caches;
      what is not staged for its name is listed, and a link is refused whatever its name. */
  lemma NameDecides(root: Profile, d: Path, n: Name)
    requires StagedDir(root, d) && n in At(root, d).value.entries
    ensures var t, p := At(root, d).value.entries[n], d + [n];
            && At(root, p) == Some(t)
            && (StagedFile(root, p) <==> t.File? && !PassedOver(n))
            && (StagedDir(root, p) <==> t.Dir? && !PassedOver(n) && !CacheFolder(n))
            && (Skipped(root, p) <==> !t.Link? && (PassedOver(n) || (t.Dir? && CacheFolder(n))))
            && (Refused(root, p) <==> t.Link?)
  {
    var p := d + [n];
    AtChild(root, d, n);
    assert Parent(p) == d && Last(p) == n;
    KeptChild(root, p);
    LastPartDecides(root, p);
    PassedOverIff(n);
    CacheIff(n);
  }

  /** What becomes of the entry `n` of the directory `p`, told from its kind and name alone. */
  ghost predicate EntryByName(root: Profile, files: set<Path>, dirs: set<Path>, skipped: seq<Path>, p: Path, n: Name)
    requires At(root, p).Some? && At(root, p).value.Dir? && n in At(root, p).value.entries
  {
    var t := At(root, p).value.entries[n];
    && !t.Link?
    && (p + [n] in files <==> t.File? && !PassedOver(n))
    && (p + [n] in dirs <==> t.Dir? && !PassedOver(n) && !CacheFolder(n))
    && (p + [n] in skipped <==> PassedOver(n) || (t.Dir? && CacheFolder(n)))
  }

  ghost predicate EntriesByName(root: Profile, files: set<Path>, dirs: set<Path>, skipped: seq<Path>, d: Path) {
    forall p, n :: d <= p && p in dirs && At(root, p).Some? && At(root, p).value.Dir? && n in At(root, p).value.entries ==>
      EntryByName(root, files, dirs, skipped, p, n)
  }

  /** Nothing is there but entries of directories that are there. */
  ghost predicate OnlyEntries(root: Profile, files: set<Path>, dirs: set<Path>, skipped: seq<Path>, d: Path) {
    forall p {:trigger Parent(p)} :: d <= p && p != d && (p in files || p in dirs || p in skipped) ==>
      && Parent(p) in dirs && At(root, Parent(p)).Some? && At(root, Parent(p)).value.Dir?
      && Last(p) in At(root, Parent(p)).value.entries
  }

  /** Files, directories and listed entries at `d` and below. */
  ghost predicate ByName(root: Profile, files: set<Path>, dirs: set<Path>, skipped: seq<Path>, d: Path) {
    d in dirs && EntriesByName(root, files, dirs, skipped, d) && OnlyEntries(root, files, dirs, skipped, d)
  }

  ghost predicate IsStaged(root: Profile, files: set<Path>, dirs: set<Path>, skipped: seq<Path>, d: Path) {
    && StagedDir(root, d)
    && (forall p :: d <= p ==> (p in files <==> StagedFile(root, p)) && (p in dirs <==> StagedDir(root, p)))
    && (forall p :: d <= p ==> (p in skipped <==> Skipped(root, p)) && !Refused(root, p))
  }

  lemma StagedEntry(root: Profile, files: set<Path>, dirs: set<Path>, skipped: seq<Path>, d: Path, p: Path, n: Name)
    requires IsStaged(root, files, dirs, skipped, d) && d <= p && StagedDir(root, p)
    requires n in At(root, p).value.entries
    ensures EntryByName(root, files, dirs, skipped, p, n)
  {
    NameDecides(root, p, n);
    assert d <= p + [n];
  }

  lemma StagedAbove(root: Profile, p: Path)
    requires p != [] && (StagedFile(root, p) || StagedDir(root, p) || Skipped(root, p))
    ensures StagedDir(root, Parent(p)) && Last(p) in At(root, Parent(p)).value.entries
  {
    AboveIsDir(root, p, |p| - 1);
    if Kept(root, p) { KeptAbove(root, p, |p| - 1); }
  }

  /** What is staged is staged by name. */
  lemma StagedByName(root: Profile, files: set<Path>, dirs: set<Path>, skipped: seq<Path>, d: Path)
    requires IsStaged(root, files, dirs, skipped, d)
    ensures ByName(root, files, dirs, skipped, d)
  {
    assert d <= d;
    forall p, n | d <= p && p in dirs && At(root, p).Some? && At(root, p).value.Dir? && n in At(root, p).value.entries
      ensures EntryByName(root, files, dirs, skipped, p, n)
    {
      StagedEntry(root, files, dirs, skipped, d, p, n);
    }
    forall p | d <= p && p != d && (p in files || p in dirs || p in skipped)
      ensures Parent(p) in dirs && At(root, Parent(p)).Some? && At(root, Parent(p)).value.Dir?
              && Last(p) in At(root, Parent(p)).value.entries
    {
      StagedAbove(root, p);
      assert d <= Parent(p);
    }
  }
}
