/** What the torrc text for a list of profiles says, line by line. */
module BridgeOutput {
  import opened Wrappers
  import opened Checklist
  import opened Text
  import opened BridgeText
  import opened BridgeLine
  import opened BridgeGrammar
  import opened BridgeMeaning
  import opened BridgeTorrc

  const PLUGIN_NAMES: seq<string> := ["obfs4", "webtunnel", "snowflake", "meek", "meek-lite"]

  /** The i-th profile is the first whose transport goes by this name, which needs a plugin. */
  ghost predicate FirstUse(h: Host, profiles: seq<Profile>, key: string, i: nat) {
    && i < |profiles| && key in PLUGIN_NAMES && KeyIs(h, profiles[i].transport, key)
    && forall j :: 0 <= j < i ==> !KeyIs(h, profiles[j].transport, key)
  }

  /** The plugin transports of the profiles, each once, in the order in which they are first used. */
  ghost predicate InUse(h: Host, profiles: seq<Profile>, keys: seq<string>) {
    && (forall key :: key in keys <==> exists i: nat :: FirstUse(h, profiles, key, i))
    && (forall a, b :: 0 <= a < b < |keys| ==> Earlier(h, profiles, keys[a], keys[b]))
  }

  ghost predicate Earlier(h: Host, profiles: seq<Profile>, key: string, other: string) {
    exists i: nat, j: nat :: i < j && FirstUse(h, profiles, key, i) && FirstUse(h, profiles, other, j)
  }

  /** Where to find the plugin, or as a comment why it cannot be found. */
  predicate PluginSays(h: Host, key: string, line: string) {
    match h.executable(key)
    case Err(text) => line == "# " + text
    case Ok(path) =>
      if key == "meek-lite" then line == "ClientTransportPlugin meek_lite exec " + path
      else line == "ClientTransportPlugin " + key + " exec " + path
  }

  ghost predicate LinesAre(h: Host, profiles: seq<Profile>, keys: seq<string>, lines: seq<string>) {
    && |lines| == 2 + |keys| + |profiles|
    && lines[0] == "# Granger Browser generated Tor bridge configuration" && lines[1] == "UseBridges 1"
    && (forall i :: 0 <= i < |keys| ==> PluginSays(h, keys[i], lines[2 + i]))
    && (forall i :: 0 <= i < |profiles| ==> lines[2 + |keys| + i] == "Bridge " + profiles[i].line)
  }

  ghost predicate TextIs(h: Host, profiles: seq<Profile>, text: string) {
    exists keys, lines :: InUse(h, profiles, keys) && LinesAre(h, profiles, keys, lines) && text == Join(lines, '\n') + "\n"
  }

  ghost predicate PluginsFound(h: Host, profiles: seq<Profile>) {
    forall key :: (exists i: nat :: FirstUse(h, profiles, key, i)) ==> h.executable(key).Ok?
  }

  predicate ShowsText(line: string) {
    exists i :: 0 <= i < |line| && !Space(line[i])
  }

  ghost function OutputChecks(h: Host, profiles: seq<Profile>, requirePlugins: bool): seq<(bool, Error)> {
    [(profiles != [], MissingBridgeData), (requirePlugins ==> PluginsFound(h, profiles), MissingPlugin),
     (forall i :: 0 <= i < |profiles| ==> ShowsText(profiles[i].line), MissingBridgeData)]
  }

  // ----- Transports in use --------------------------------------------------------------------

  lemma KeyOnly(h: Host, transport: string, key: string)
    ensures KeyIs(h, transport, key) <==> key == TransportKey(h, transport)
  {
    KeyHolds(h, transport);
    forall t ensures Trims(transport, t) <==> t == Trim(transport) { TrimOnly(transport, t); }
  }

  lemma FirstUseAppend(h: Host, front: seq<Profile>, p: Profile, key: string, i: nat)
    requires i < |front|
    ensures FirstUse(h, front + [p], key, i) <==> FirstUse(h, front, key, i)
  {
    var all := front + [p];
    assert forall j :: 0 <= j < |front| ==> all[j] == front[j];
  }

  lemma LastIsFirstUse(h: Host, front: seq<Profile>, p: Profile, key: string)
    ensures FirstUse(h, front + [p], key, |front|)
            <==> key in PLUGIN_NAMES && KeyIs(h, p.transport, key) && !exists i: nat :: FirstUse(h, front, key, i)
  {
    var all := front + [p];
    assert forall j :: 0 <= j < |front| ==> all[j] == front[j];
    if exists j :: 0 <= j < |front| && KeyIs(h, front[j].transport, key) {
      var j :| 0 <= j < |front| && KeyIs(h, front[j].transport, key);
      if key in PLUGIN_NAMES { var i := FirstBefore(h, front, key, j); }
    }
  }

  lemma {:induction false} FirstBefore(h: Host, profiles: seq<Profile>, key: string, j: nat) returns (i: nat)
    requires j < |profiles| && KeyIs(h, profiles[j].transport, key) && key in PLUGIN_NAMES
    ensures i <= j && FirstUse(h, profiles, key, i)
  {
    i := j;
    if !FirstUse(h, profiles, key, j) {
      var k :| 0 <= k < j && KeyIs(h, profiles[k].transport, key);
      i := FirstBefore(h, profiles, key, k);
    }
  }

  lemma {:induction false} KeysAreInUse(h: Host, profiles: seq<Profile>)
    ensures InUse(h, profiles, PluginKeys(h, profiles))
  {
    if profiles == [] {
      assert forall key, i: nat :: !FirstUse(h, profiles, key, i);
    } else {
      var front, p := profiles[..|profiles| - 1], profiles[|profiles| - 1];
      assert profiles == front + [p];
      KeysAreInUse(h, front);
      OneMoreInUse(h, front, p);
    }
  }

  lemma OneMoreInUse(h: Host, front: seq<Profile>, p: Profile)
    requires InUse(h, front, PluginKeys(h, front))
    ensures InUse(h, front + [p], PluginKeys(h, front + [p]))
  {
    var before, all := PluginKeys(h, front), front + [p];
    var key := TransportKey(h, p.transport);
    var keys := PluginKeys(h, all);
    assert all[..|all| - 1] == front && all[|all| - 1] == p;
    forall k ensures KeyIs(h, p.transport, k) <==> k == key { KeyOnly(h, p.transport, k); }
    forall k, i: nat | i < |front| ensures FirstUse(h, all, k, i) <==> FirstUse(h, front, k, i) {
      FirstUseAppend(h, front, p, k, i);
    }
    forall k ensures FirstUse(h, all, k, |front|) <==> k in PLUGIN_NAMES && k == key && k !in before {
      LastIsFirstUse(h, front, p, k);
    }
    assert key in PLUGINS <==> key in PLUGIN_NAMES;
    forall k ensures k in keys <==> exists i: nat :: FirstUse(h, all, k, i) {
      if exists i: nat :: FirstUse(h, all, k, i) {
        var i: nat :| FirstUse(h, all, k, i);
        assert i == |front| || FirstUse(h, front, k, i);
      }
      if k in before { var i: nat :| FirstUse(h, front, k, i); assert FirstUse(h, all, k, i); }
    }
    forall a, b | 0 <= a < b < |keys| ensures Earlier(h, all, keys[a], keys[b]) {
      assert keys[a] == before[a];
      if b < |before| {
        assert Earlier(h, front, before[a], before[b]);
        var i: nat, j: nat :| i < j && FirstUse(h, front, before[a], i) && FirstUse(h, front, before[b], j);
        assert FirstUse(h, all, keys[a], i) && FirstUse(h, all, keys[b], j);
      } else {
        assert before[a] in before;
        var i: nat :| FirstUse(h, front, before[a], i);
        assert FirstUse(h, all, keys[a], i) && FirstUse(h, all, keys[b], |front|);
      }
    }
  }

  // ----- The text -----------------------------------------------------------------------------

  lemma TitleIs()
    ensures TITLE == "# Granger Browser generated Tor bridge configuration"
  {
    assert "generated Tor " + "bridge configuration" == "generated Tor bridge configuration";
  }

  lemma PluginLineSays(h: Host, key: string)
    ensures PluginSays(h, key, PluginLine(h, key))
  {
    match h.executable(key)
    case Ok(path) => if key == "meek-lite" { assert "ClientTransportPlugin " + "meek_lite" + " exec " == "ClientTransportPlugin meek_lite exec "; }
    case Err(_) =>
  }

  lemma LinesHold(h: Host, profiles: seq<Profile>)
    ensures LinesAre(h, profiles, PluginKeys(h, profiles), TorrcLines(h, profiles))
  {
    var keys := PluginKeys(h, profiles);
    TitleIs();
    forall i | 0 <= i < |keys| ensures PluginSays(h, keys[i], PluginLines(h, keys)[i]) { PluginLineSays(h, keys[i]); }
  }

  lemma BlankIff(line: string)
    ensures Trim(line) != "" <==> ShowsText(line)
  {
    var pre, post := TrimSplits(line);
    if Trim(line) == "" {
      assert line == pre + post;
      forall i | 0 <= i < |line| ensures Space(line[i]) { CharactersAgree(line[i]); }
    } else {
      CharactersAgree(Trim(line)[0]);
      assert line[|pre|] == Trim(line)[0];
    }
  }

  lemma PluginsFoundIff(h: Host, profiles: seq<Profile>)
    ensures PluginsFound(h, profiles) <==> forall k :: k in PluginKeys(h, profiles) ==> h.executable(k).Ok?
  {
    KeysAreInUse(h, profiles);
  }

  /** The text can be written exactly when nothing is missing. */
  lemma PrintableIff(h: Host, profiles: seq<Profile>, requirePlugins: bool)
    ensures Printable(h, profiles, requirePlugins) <==> FirstFault(OutputChecks(h, profiles, requirePlugins)) == None
  {
    PluginsFoundIff(h, profiles);
    forall i | 0 <= i < |profiles| ensures Trim(profiles[i].line) != "" <==> ShowsText(profiles[i].line) {
      BlankIff(profiles[i].line);
    }
    ThreeChecks(OutputChecks(h, profiles, requirePlugins));
  }

  /** And then it says this. */
  lemma TextHolds(h: Host, profiles: seq<Profile>)
    ensures TextIs(h, profiles, Join(TorrcLines(h, profiles), '\n') + "\n")
  {
    KeysAreInUse(h, profiles);
    LinesHold(h, profiles);
  }
}
