/** `_relative_path`: which texts name a place below the package root, and how nesting of places
    shows in their texts. */
module RelativePath {
  import opened Text
  import opened CanonicalJson

  const SLASH: Code := 47
  const DOT: Codes := [46]
  const DOTDOT: Codes := [46, 46]
  const MAX_PATH_BYTES: nat := 512

  /** A component: what a directory entry can be called. */
  predicate IsPart(n: Codes) {
    n != [] && SLASH !in n && n != DOT && n != DOTDOT
  }

  predicate AreParts(p: seq<Codes>) {
    forall i :: 0 <= i < |p| ==> IsPart(p[i])
  }

  predicate Encodable(t: Codes) {
    forall i :: 0 <= i < |t| ==> !IsHigh(t[i]) && !IsLow(t[i])
  }

  function Utf8Size(t: Codes): nat {
    if t == [] then 0
    else (if t[0] < 0x80 then 1 else if t[0] < 0x800 then 2 else if t[0] < 0x1_0000 then 3 else 4)
         + Utf8Size(t[1..])
  }

  /** Components that PurePosixPath keeps. */
  function Meaningful(parts: seq<Codes>): seq<Codes> {
    if parts == [] then []
    else (if parts[0] == [] || parts[0] == DOT then [] else [parts[0]]) + Meaningful(parts[1..])
  }

  /** PurePosixPath(value).as_posix() of a path that is not absolute. */
  function AsPosix(value: Codes): Codes {
    var parts := Meaningful(Split(value, SLASH));
    if parts == [] then DOT else Join(parts, SLASH)
  }

  /** The character conditions: encodable, short enough, neither NUL nor backslash. */
  predicate Portable(value: Codes) {
    0 !in value && BACKSLASH !in value && Encodable(value) && Utf8Size(value) <= MAX_PATH_BYTES
  }

  predicate Relative(value: Codes) {
    && value != [] && Portable(value)
    && value[0] != SLASH && DOTDOT !in Meaningful(Split(value, SLASH))
    && AsPosix(value) == value
  }

  lemma {:induction false} MeaningfulParts(parts: seq<Codes>)
    requires forall i :: 0 <= i < |parts| ==> SLASH !in parts[i]
    ensures forall i :: 0 <= i < |Meaningful(parts)| ==>
              SLASH !in Meaningful(parts)[i] && Meaningful(parts)[i] != [] && Meaningful(parts)[i] != DOT
    ensures AreParts(parts) ==> Meaningful(parts) == parts
  {
    if parts != [] {
      MeaningfulParts(parts[1..]);
      if AreParts(parts) {
        assert IsPart(parts[0]) && AreParts(parts[1..]);
        assert [parts[0]] + parts[1..] == parts;
      }
    }
  }

  /** Accepted are exactly the portable texts whose components are all proper names - and, although
      it names no place below the root, the single dot. */
  lemma RelativeIff(value: Codes)
    ensures Relative(value) <==>
              value != [] && Portable(value) && (value == DOT || AreParts(Split(value, SLASH)))
  {
    var parts := Split(value, SLASH);
    var kept := Meaningful(parts);
    MeaningfulParts(parts);
    if value == DOT {
      DotIsAccepted();
    } else {
      if Relative(value) {
        SplitOfJoin(kept, SLASH);
        forall i | 0 <= i < |parts| ensures IsPart(parts[i]) { assert parts[i] in kept; }
      }
      if value != [] && AreParts(parts) {
        assert IsPart(parts[0]) && kept == parts;
        assert Join(parts, SLASH)[0] == parts[0][0];
      }
    }
  }

  lemma DotIsAccepted()
    ensures Relative(DOT)
  {
  }

  // ----- Nesting ------------------------------------------------------------------------------

  function Spell(p: seq<Codes>): Codes
    requires p != []
  {
    Join(p, SLASH)
  }

  predicate SlashFree(p: seq<Codes>) {
    Apart(p, SLASH)
  }

  lemma {:induction false} PrefixIsBefore(a: Codes, b: Codes)
    requires a < b
    ensures Before(a, b)
  {
    if a != [] { PrefixIsBefore(a[1..], b[1..]); }
  }
}
