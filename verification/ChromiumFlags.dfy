/** The flag string that Chromium is started with, edited in place. */
module ChromiumFlags {
  import opened Text

  const ENABLE := "--enable-features="
  const DISABLE := "--disable-features="

  // ----- Byte-array operations ----------------------------------------------------------------

  /** QByteArray::trimmed takes ASCII white space. */
  function TrimLeft(s: string): (t: string)
    ensures |t| <= |s|
  {
    if s != [] && IsBlank(s[0]) then TrimLeft(s[1..]) else s
  }

  function TrimRight(s: string): (t: string)
    ensures |t| <= |s|
  {
    if s != [] && IsBlank(s[|s| - 1]) then TrimRight(s[..|s| - 1]) else s
  }

  function Trim(s: string): string { TrimRight(TrimLeft(s)) }

  predicate OccursAt(s: string, p: string, i: int) {
    0 <= i && i + |p| <= |s| && s[i..i + |p|] == p
  }

  /** The first place at or behind `from` where `p` occurs, or -1. */
  function IndexOf(s: string, p: string, from: nat): (i: int)
    ensures i == -1 || (from <= i && OccursAt(s, p, i))
    ensures forall k :: from <= k < (if i == -1 then |s| + 1 else i) ==> !OccursAt(s, p, k)
    decreases |s| - from
  {
    if from + |p| > |s| then -1
    else if s[from..from + |p|] == p then from
    else IndexOf(s, p, from + 1)
  }

  predicate Contains(s: string, p: string) { IndexOf(s, p, 0) >= 0 }

  // ----- Appending ----------------------------------------------------------------------------

  /** appendChromiumFlag: the test for presence is one for a substring. */
  function WithFlag(env: string, flag: string): string {
    var flags := Trim(env);
    if Contains(flags, flag) then env else (if flags == "" then "" else flags + " ") + flag
  }

  /** The feature itself, or the feature with a group or parameters. */
  predicate IsVariant(entry: string, feature: string) {
    entry == feature || feature + "<" <= entry || feature + ":" <= entry
  }

  function WithoutVariants(entries: seq<string>, feature: string): seq<string> {
    if entries == [] then []
    else (if IsVariant(entries[0], feature) then [] else [entries[0]]) + WithoutVariants(entries[1..], feature)
  }

  /** Where the value that begins at `from` ends. */
  function ValueEnd(flags: string, from: nat): (e: nat)
    requires from <= |flags|
    ensures from <= e <= |flags|
  {
    var space := IndexOf(flags, " ", from);
    if space < 0 then |flags| else space
  }

  /** The enabled list replaced or, when nothing is left of it, its switch cut out with one space. */
  function Replaced(flags: string, start: nat, from: nat, end: nat, kept: seq<string>): string
    requires start <= from <= end <= |flags|
  {
    if kept != [] then flags[..from] + Join(kept, ',') + flags[end..]
    else if end < |flags| then flags[..start] + flags[end + 1..]
    else if start > 0 && flags[start - 1] == ' ' then flags[..start - 1]
    else flags[..start]
  }

  /** The first half: the feature is taken off the enabled ones. */
  function WithoutEnabled(flags: string, feature: string): string {
    var start := IndexOf(flags, ENABLE, 0);
    if start < 0 then flags
    else
      var from := start + |ENABLE|;
      var end := ValueEnd(flags, from);
      Trim(Replaced(flags, start, from, end, WithoutVariants(Split(flags[from..end], ','), feature)))
  }

  /** The second half: the feature joins the disabled ones.  One that is there already leaves the
      variable as it was, with what the first half did lost. */
  function WithSwitch(env: string, flags: string, feature: string): string {
    var start := IndexOf(flags, DISABLE, 0);
    if start < 0 then WithFlag(flags, DISABLE + feature)
    else
      var from := start + |DISABLE|;
      var end := ValueEnd(flags, from);
      if feature in Split(flags[from..end], ',') then env
      else flags[..end] + "," + feature + flags[end..]
  }

  /** appendChromiumDisabledFeature. */
  function WithDisabled(env: string, feature: string): string {
    WithSwitch(env, WithoutEnabled(Trim(env), feature), feature)
  }
}
