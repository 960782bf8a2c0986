/** `generateTorrc` and the list of profiles it prints. */
module BridgeTorrc {
  import opened Wrappers
  import opened BridgeText
  import opened BridgeLine
  import opened BridgeMeaning
  import opened BridgeTheorems
  import opened Text

  // Written in parts, as the lemma about it takes them.
  const TITLE: string := "# Granger Browser " + ("generated Tor " + "bridge configuration")
  const HEADER: seq<string> := [TITLE, "UseBridges 1"]

  function PluginLine(h: Host, key: string): string {
    match h.executable(key)
    case Ok(path) => "ClientTransportPlugin " + (if key == "meek-lite" then "meek_lite" else key) + " exec " + path
    case Err(text) => "# " + text
  }

  /** The plugin transports in use, each once, in order of first use. */
  function PluginKeys(h: Host, profiles: seq<Profile>): seq<string> {
    if profiles == [] then []
    else
      var before := PluginKeys(h, profiles[..|profiles| - 1]);
      var key := TransportKey(h, profiles[|profiles| - 1].transport);
      if key in PLUGINS && key !in before then before + [key] else before
  }

  function PluginLines(h: Host, keys: seq<string>): (lines: seq<string>)
    ensures |lines| == |keys| && forall i :: 0 <= i < |keys| ==> lines[i] == PluginLine(h, keys[i])
  {
    seq(|keys|, i requires 0 <= i < |keys| => PluginLine(h, keys[i]))
  }

  function PrintedLines(profiles: seq<Profile>): (lines: seq<string>)
    ensures |lines| == |profiles| && forall i :: 0 <= i < |profiles| ==> lines[i] == BRIDGE + profiles[i].line
  {
    seq(|profiles|, i requires 0 <= i < |profiles| => BRIDGE + profiles[i].line)
  }

  function Front(h: Host, profiles: seq<Profile>): seq<string> {
    HEADER + PluginLines(h, PluginKeys(h, profiles))
  }

  function TorrcLines(h: Host, profiles: seq<Profile>): (lines: seq<string>)
    ensures |lines| >= 1
  {
    Front(h, profiles) + PrintedLines(profiles)
  }

  predicate Printable(h: Host, profiles: seq<Profile>, requirePlugins: bool) {
    && profiles != []
    && (requirePlugins ==> forall k :: k in PluginKeys(h, profiles) ==> h.executable(k).Ok?)
    && forall i :: 0 <= i < |profiles| ==> Trim(profiles[i].line) != ""
  }

  /** The loop over plugin transports. */
  method GeneratePlugins(h: Host, profiles: seq<Profile>, requirePlugins: bool) returns (r: Option<seq<string>>)
    ensures r.Some? <==> requirePlugins ==> forall k :: k in PluginKeys(h, profiles) ==> h.executable(k).Ok?
    ensures r.Some? ==> r.value == PluginLines(h, PluginKeys(h, profiles))
  {
    var lines: seq<string>, emitted: seq<string> := [], [];
    for i := 0 to |profiles|
      invariant emitted == PluginKeys(h, profiles[..i]) && lines == PluginLines(h, emitted)
      invariant requirePlugins ==> forall k :: k in emitted ==> h.executable(k).Ok?
    {
      assert profiles[..i + 1][..i] == profiles[..i];
      var key := TransportKey(h, profiles[i].transport);
      if key !in PLUGINS || key in emitted { continue; }
      if h.executable(key).Err? && requirePlugins {
        KeysStay(h, profiles, i + 1, key);
        return None;
      }
      lines := lines + [PluginLine(h, key)];
      emitted := emitted + [key];
    }
    assert profiles[..|profiles|] == profiles;
    return Some(lines);
  }

  lemma {:induction false} KeysStay(h: Host, profiles: seq<Profile>, n: nat, key: string)
    requires n <= |profiles| && key in PluginKeys(h, profiles[..n])
    ensures key in PluginKeys(h, profiles)
    decreases |profiles| - n
  {
    if n < |profiles| {
      assert profiles[..n + 1][..n] == profiles[..n];
      KeysStay(h, profiles, n + 1, key);
    } else {
      assert profiles[..n] == profiles;
    }
  }

  /** The loop over the profiles' own lines. */
  method PrintProfiles(profiles: seq<Profile>) returns (r: Option<seq<string>>)
    ensures r.Some? <==> forall i :: 0 <= i < |profiles| ==> Trim(profiles[i].line) != ""
    ensures r.Some? ==> r.value == PrintedLines(profiles)
  {
    var lines: seq<string> := [];
    for i := 0 to |profiles|
      invariant lines == PrintedLines(profiles[..i])
      invariant forall k :: 0 <= k < i ==> Trim(profiles[k].line) != ""
    {
      if Trim(profiles[i].line) == "" { return None; }
      lines := lines + [BRIDGE + profiles[i].line];
    }
    assert profiles[..|profiles|] == profiles;
    return Some(lines);
  }

  /** generateTorrc. */
  method GenerateTorrc(h: Host, profiles: seq<Profile>, requirePlugins: bool) returns (r: Result<string, Error>)
    ensures r.Ok? <==> Printable(h, profiles, requirePlugins)
    ensures r == Err(MissingPlugin) <==>
              profiles != [] && requirePlugins && exists k :: k in PluginKeys(h, profiles) && h.executable(k).Err?
    ensures r.Err? ==> r.error in {MissingPlugin, MissingBridgeData}
    ensures r.Ok? ==> r.value == Join(TorrcLines(h, profiles), '\n') + "\n"
  {
    if profiles == [] { return Err(MissingBridgeData); }
    var plugins := GeneratePlugins(h, profiles, requirePlugins);
    if plugins == None { return Err(MissingPlugin); }
    var printed := PrintProfiles(profiles);
    if printed == None { return Err(MissingBridgeData); }
    return Ok(Join(HEADER + plugins.value + printed.value, '\n') + "\n");
  }

  // ----- Reading it back ----------------------------------------------------------------------

  /** A single line that is no bridge line. */
  predicate Tame(l: string) {
    '\n' !in l && !(BRIDGE <= l)
  }

  function BridgeLinesOf(lines: seq<string>): seq<string> {
    if lines == [] then []
    else (if BRIDGE <= lines[0] then [lines[0]] else []) + BridgeLinesOf(lines[1..])
  }

  lemma {:induction false} NoBridgeLines(lines: seq<string>, more: seq<string>)
    requires forall i :: 0 <= i < |lines| ==> Tame(lines[i])
    ensures BridgeLinesOf(lines + more) == BridgeLinesOf(more)
  {
    if lines == [] {
      assert lines + more == more;
    } else {
      assert (lines + more)[1..] == lines[1..] + more;
      NoBridgeLines(lines[1..], more);
    }
  }

  lemma {:induction false} OnlyBridgeLines(lines: seq<string>)
    requires forall i :: 0 <= i < |lines| ==> BRIDGE <= lines[i]
    ensures BridgeLinesOf(lines + [""]) == lines
  {
    if lines == [] {
      assert lines + [""] == [""] && [""][1..] == [];
    } else {
      assert (lines + [""])[1..] == lines[1..] + [""];
      OnlyBridgeLines(lines[1..]);
      assert [lines[0]] + lines[1..] == lines;
    }
  }

  lemma {:induction false} KeysArePlugins(h: Host, profiles: seq<Profile>)
    ensures forall k :: k in PluginKeys(h, profiles) ==> k in PLUGINS
  {
    if profiles != [] { KeysArePlugins(h, profiles[..|profiles| - 1]); }
  }

  lemma TameSum(a: string, b: string)
    requires a != "" && a[0] != 'B' && '\n' !in a && '\n' !in b
    ensures Tame(a + b)
  {
    assert (a + b)[0] == a[0] && BRIDGE[0] == 'B';
  }

  lemma PluginNameIsTame(key: string)
    requires key in PLUGINS
    ensures '\n' !in (if key == "meek-lite" then "meek_lite" else key)
  {
  }

  lemma PluginLineIsTame(h: Host, key: string)
    requires Sane(h) && key in PLUGINS
    ensures Tame(PluginLine(h, key))
  {
    match h.executable(key)
    case Ok(path) =>
      PluginNameIsTame(key);
      ExecLine(if key == "meek-lite" then "meek_lite" else key, path);
    case Err(text) => TameSum("# ", text);
  }

  lemma ExecLine(name: string, path: string)
    requires '\n' !in name && '\n' !in path
    ensures Tame("ClientTransportPlugin " + name + " exec " + path)
  {
    var front := "ClientTransportPlugin " + name + " exec ";
    assert front[0] == 'C';
    TameSum(front, path);
  }

  predicate AllTame(lines: seq<string>) {
    forall i :: 0 <= i < |lines| ==> Tame(lines[i])
  }

  lemma TitleIsTame()
    ensures Tame(TITLE)
  {
    assert '\n' !in "# Granger Browser " && '\n' !in "generated Tor " && '\n' !in "bridge configuration";
    TameSum("# Granger Browser ", "generated Tor " + "bridge configuration");
  }

  lemma HeaderIsTame()
    ensures AllTame(HEADER)
  {
    TitleIsTame();
    TameSum("U", "seBridges 1");
    assert "U" + "seBridges 1" == "UseBridges 1";
  }

  lemma PluginsAreTame(h: Host, keys: seq<string>)
    requires Sane(h) && forall k :: k in keys ==> k in PLUGINS
    ensures AllTame(PluginLines(h, keys))
  {
    forall i | 0 <= i < |keys| ensures Tame(PluginLines(h, keys)[i]) {
      assert keys[i] in keys;
      PluginLineIsTame(h, keys[i]);
    }
  }

  lemma AllTameSum(a: seq<string>, b: seq<string>)
    requires AllTame(a) && AllTame(b)
    ensures AllTame(a + b)
  {
  }

  lemma FrontIsTame(h: Host, profiles: seq<Profile>)
    requires Sane(h)
    ensures AllTame(Front(h, profiles))
  {
    HeaderIsTame();
    KeysArePlugins(h, profiles);
    PluginsAreTame(h, PluginKeys(h, profiles));
    AllTameSum(HEADER, PluginLines(h, PluginKeys(h, profiles)));
  }

  lemma {:induction false} JoinWithEnd(lines: seq<string>)
    requires |lines| >= 1
    ensures Join(lines, '\n') + "\n" == Join(lines + [""], '\n')
  {
    if |lines| == 1 {
      assert (lines + [""])[1..] == [""];
      assert Join([""], '\n') == "";
    } else {
      assert (lines + [""])[1..] == lines[1..] + [""];
      JoinWithEnd(lines[1..]);
    }
  }

  predicate OneLiners(lines: seq<string>) {
    forall i :: 0 <= i < |lines| ==> '\n' !in lines[i]
  }

  /** The lines of a text are the lines printed, closed by an empty one. */
  lemma TextHasItsLines(lines: seq<string>)
    requires |lines| >= 1 && OneLiners(lines)
    ensures Split(Join(lines, '\n') + "\n", '\n') == lines + [""]
  {
    JoinWithEnd(lines);
    SplitOfJoin(lines + [""], '\n');
  }

  lemma PrintedAreOneLiners(profiles: seq<Profile>)
    requires forall i :: 0 <= i < |profiles| ==> !HasBreak(profiles[i].line)
    ensures OneLiners(PrintedLines(profiles))
  {
  }

  lemma BridgeLinesBehind(front: seq<string>, bridges: seq<string>)
    requires AllTame(front) && OneLiners(bridges) && front != []
    requires forall i :: 0 <= i < |bridges| ==> BRIDGE <= bridges[i]
    ensures BridgeLinesOf(Split(Join(front + bridges, '\n') + "\n", '\n')) == bridges
  {
    var lines := front + bridges;
    assert OneLiners(lines);
    TextHasItsLines(lines);
    assert lines + [""] == front + (bridges + [""]);
    NoBridgeLines(front, bridges + [""]);
    OnlyBridgeLines(bridges);
  }

  /** The `Bridge ` lines of a torrc text generated from parsed profiles parse back, in order, to the
      same bridges - whatever plugins were found and whatever the transports are called. */
  lemma TorrcReadsBack(h: Host, sources: seq<string>, profiles: seq<Profile>)
    requires Sane(h) && |sources| == |profiles|
    requires forall i :: 0 <= i < |sources| ==> Parse(h, sources[i]) == Ok(profiles[i])
    ensures var text := Join(TorrcLines(h, profiles), '\n') + "\n";
            var bridges := BridgeLinesOf(Split(text, '\n'));
            && |bridges| == |profiles|
            && forall i :: 0 <= i < |profiles| ==>
                 Parse(h, bridges[i]).Ok? && SameBridge(profiles[i], Parse(h, bridges[i]).value)
  {
    forall i | 0 <= i < |profiles| ensures !HasBreak(profiles[i].line) { LineIsOneLine(h, sources[i]); }
    FrontIsTame(h, profiles);
    PrintedAreOneLiners(profiles);
    BridgeLinesBehind(Front(h, profiles), PrintedLines(profiles));
    forall i | 0 <= i < |profiles|
      ensures Parse(h, BRIDGE + profiles[i].line).Ok?
      ensures SameBridge(profiles[i], Parse(h, BRIDGE + profiles[i].line).value)
    {
      PrefixedAgain(h, sources[i]);
    }
  }

  // ----- The list of profiles -----------------------------------------------------------------

  class Manager {
    var profiles: seq<Profile>

    /** No two profiles share a line. */
    ghost predicate Valid()
      reads this
    {
      DistinctLines(profiles)
    }

    constructor ()
      ensures Valid() && profiles == []
    {
      profiles := [];
    }

    /** A profile with the same line is replaced where it stands, another one is appended. */
    method Put(p: Profile)
      modifies this
      ensures profiles == Inserted(old(profiles), p)
    {
      for i := 0 to |profiles|
        invariant profiles == old(profiles)
        invariant Inserted(profiles, p) == profiles[..i] + Inserted(profiles[i..], p)
      {
        if profiles[i].line == p.line {
          InsertedHere(profiles, p, i);
          profiles := profiles[i := p];
          return;
        }
        InsertedBehind(profiles, p, i);
      }
      profiles := profiles + [p];
    }

    /** createProfileFromLine; a refused line changes nothing. */
    method CreateProfile(h: Host, line: string) returns (r: Result<Profile, Error>)
      requires Valid()
      modifies this
      ensures Valid() && r == Parse(h, line)
      ensures profiles == if r.Ok? then Inserted(old(profiles), r.value) else old(profiles)
    {
      r := ParseLine(h, line);
      if r.Ok? {
        InsertedIsDistinct(profiles, r.value);
        Put(r.value);
      }
    }
  }

  function Inserted(profiles: seq<Profile>, p: Profile): seq<Profile> {
    if profiles == [] then [p]
    else if profiles[0].line == p.line then [p] + profiles[1..]
    else [profiles[0]] + Inserted(profiles[1..], p)
  }

  lemma InsertedHere(profiles: seq<Profile>, p: Profile, i: nat)
    requires i < |profiles| && profiles[i].line == p.line
    requires Inserted(profiles, p) == profiles[..i] + Inserted(profiles[i..], p)
    ensures Inserted(profiles, p) == profiles[i := p]
  {
    assert profiles[i..][1..] == profiles[i + 1..] && profiles[i..][0] == profiles[i];
  }

  lemma InsertedBehind(profiles: seq<Profile>, p: Profile, i: nat)
    requires i < |profiles| && profiles[i].line != p.line
    requires Inserted(profiles, p) == profiles[..i] + Inserted(profiles[i..], p)
    ensures Inserted(profiles, p) == profiles[..i + 1] + Inserted(profiles[i + 1..], p)
  {
    var rest, behind := profiles[i..], Inserted(profiles[i + 1..], p);
    assert rest[1..] == profiles[i + 1..] && rest[0] == profiles[i];
    assert Inserted(rest, p) == [profiles[i]] + behind;
    FrontTaken(profiles, i, behind);
  }

  lemma FrontTaken(profiles: seq<Profile>, i: nat, behind: seq<Profile>)
    requires i < |profiles|
    ensures profiles[..i] + ([profiles[i]] + behind) == profiles[..i + 1] + behind
  {
  }

  ghost predicate DistinctLines(profiles: seq<Profile>) {
    forall i, j :: 0 <= i < j < |profiles| ==> profiles[i].line != profiles[j].line
  }

  lemma {:induction false} InsertedHolds(profiles: seq<Profile>, p: Profile)
    requires DistinctLines(profiles)
    ensures forall q :: q in Inserted(profiles, p) <==> q == p || (q in profiles && q.line != p.line)
  {
    if profiles != [] {
      var rest := profiles[1..];
      assert profiles == [profiles[0]] + rest;
      if profiles[0].line == p.line {
        forall q | q in rest ensures q.line != p.line {
          var i :| 0 <= i < |rest| && rest[i] == q;
          assert profiles[i + 1] == q;
        }
      } else {
        InsertedHolds(rest, p);
      }
    }
  }

  /** Inserting keeps the others and keeps lines distinct. */
  lemma {:induction false} InsertedIsDistinct(profiles: seq<Profile>, p: Profile)
    requires DistinctLines(profiles)
    ensures DistinctLines(Inserted(profiles, p))
  {
    if profiles != [] {
      var rest := profiles[1..];
      if profiles[0].line != p.line {
        InsertedIsDistinct(rest, p);
        InsertedHolds(rest, p);
        var t := Inserted(rest, p);
        forall j | 0 <= j < |t| ensures t[j].line != profiles[0].line {
          assert t[j] in t;
          if t[j] != p {
            var i :| 0 <= i < |rest| && rest[i] == t[j];
            assert profiles[i + 1] == t[j];
          }
        }
      }
    }
  }
}
