/** `_version`: three plain decimal components of at most six digits. */
module ProductVersion {
  import opened Wrappers
  import opened Text

  datatype Version = Version(major: nat, minor: nat, patch: nat)

  const LIMIT: nat := 1000000

  /** The regular expression `(0|[1-9][0-9]{0,5})`. */
  predicate IsComponent(s: string) {
    IsPlain(s) && |s| <= 6
  }

  function Parse(s: string): Option<Version> {
    var parts := Split(s, '.');
    if |parts| == 3 && IsComponent(parts[0]) && IsComponent(parts[1]) && IsComponent(parts[2])
    then Some(Version(Numeral(parts[0]), Numeral(parts[1]), Numeral(parts[2])))
    else None
  }

  function Format(v: Version): string {
    Join([Decimal(v.major), Decimal(v.minor), Decimal(v.patch)], '.')
  }

  predicate InRange(v: Version) {
    v.major < LIMIT && v.minor < LIMIT && v.patch < LIMIT
  }

  /** Python's comparison of the integer triples. */
  predicate Less(a: Version, b: Version) {
    || a.major < b.major
    || (a.major == b.major && (a.minor < b.minor || (a.minor == b.minor && a.patch < b.patch)))
  }

  lemma ComponentOfNumber(n: nat)
    ensures IsComponent(Decimal(n)) <==> n < LIMIT
  {
    NumeralOfDecimal(n);
    NumeralBound(Decimal(n), 6);
    assert Pow10(6) == LIMIT by { assert Pow10(3) == 1000; }
  }

  /** A text is accepted as a version exactly when it is that version's canonical spelling: every
      triple below a million has one accepted spelling and no other text is accepted. */
  lemma ParseIffFormat(s: string, v: Version)
    ensures Parse(s) == Some(v) <==> InRange(v) && s == Format(v)
  {
    var parts := Split(s, '.');
    if Parse(s) == Some(v) {
      forall i | 0 <= i < 3 ensures Decimal(Numeral(parts[i])) == parts[i] && Numeral(parts[i]) < LIMIT {
        DecimalOfNumeral(parts[i]);
        ComponentOfNumber(Numeral(parts[i]));
      }
      assert parts == [Decimal(v.major), Decimal(v.minor), Decimal(v.patch)];
    }
    if InRange(v) && s == Format(v) {
      var pieces := [Decimal(v.major), Decimal(v.minor), Decimal(v.patch)];
      SplitOfJoin(pieces, '.');
      ComponentOfNumber(v.major);
      ComponentOfNumber(v.minor);
      ComponentOfNumber(v.patch);
      NumeralOfDecimal(v.major);
      NumeralOfDecimal(v.minor);
      NumeralOfDecimal(v.patch);
    }
  }

  /** A version as one number, its components six digits each; -1 for a text that is no version. */
  function Number(s: string): int {
    match Parse(s)
    case None => -1
    case Some(v) => v.major * 1_000_000_000_000 + v.minor * 1_000_000 + v.patch
  }

  lemma ParsedIsInRange(s: string)
    requires Parse(s).Some?
    ensures InRange(Parse(s).value)
  {
    ParseIffFormat(s, Parse(s).value);
  }

  /** The comparison of triples is the order of these numbers. */
  lemma LessIsNumber(s: string, t: string)
    requires Parse(s).Some? && Parse(t).Some?
    ensures Less(Parse(s).value, Parse(t).value) <==> Number(s) < Number(t)
    ensures 0 <= Number(s) < 1_000_000_000_000_000_000
  {
    ParsedIsInRange(s);
    ParsedIsInRange(t);
  }

  /** The text of a triple has the number of that triple. */
  lemma NumberOfFormat(v: Version)
    requires InRange(v)
    ensures Number(Format(v)) == v.major * 1_000_000_000_000 + v.minor * 1_000_000 + v.patch
  {
    ParseIffFormat(Format(v), v);
  }
}
