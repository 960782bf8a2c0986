/** The startup functions: which flags and features they set, in what order, and what is left of it. */
module FlagSequence {
  import opened Wrappers
  import opened Collections
  import opened ChromiumFlags
  import opened FlagSwitches
  import opened FlagTheorems
  import opened FlagStartup
  import opened Text

  // ----- The flags of a startup ---------------------------------------------------------------

  function Texts(calls: seq<Call>): seq<string> {
    if calls == [] then []
    else Texts(calls[..|calls| - 1]) + (if calls[|calls| - 1].Flag? then [calls[|calls| - 1].text] else [])
  }

  predicate OneDoubleDash(t: string) {
    forall r :: 0 < r < |t| - 1 ==> !(t[r] == '-' && t[r + 1] == '-')
  }

  /** A plain flag with its two dashes in front and no others. */
  ghost predicate IsLongFlag(t: string) {
    IsPlainFlag(t) && OneDoubleDash(t) && |t| >= 2 && t[0] == '-' && t[1] == '-' && !(t <= DISABLE)
  }

  predicate NoneBegins(texts: seq<string>) {
    forall i, j :: 0 <= i < j < |texts| ==> !(texts[j] <= texts[i])
  }

  predicate IsTidy(x: string) { OneDoubleDash(x) && !(ENABLE <= x) }

  predicate Tidy(ts: seq<string>) {
    forall i :: 0 <= i < |ts| ==> IsTidy(ts[i])
  }

  lemma {:induction false} NoneEnabled(ts: seq<string>)
    requires Tidy(ts)
    ensures FirstWith(ts, ENABLE) == None
  {
    if ts != [] { NoneEnabled(ts[1..]); }
  }

  lemma {:induction false} ReplacedIsTidy(ts: seq<string>, p: string, x: string)
    requires Tidy(ts) && IsTidy(x)
    ensures Tidy(ReplaceFirst(ts, p, [x]))
  {
    if ts != [] && !(p <= ts[0]) {
      ReplacedIsTidy(ts[1..], p, x);
    }
  }

  lemma NoDashInName(f: string)
    requires IsName(f)
    ensures forall i :: 0 <= i < |f| ==> f[i] != '-'
  {
    forall i | 0 <= i < |f| ensures f[i] != '-' { NameHasNoDash(f, i); }
  }

  lemma AddIsTidy(ts: seq<string>, f: string)
    requires Tidy(ts) && IsName(f)
    ensures Tidy(AddDisabled(ts, f))
  {
    NoDashInName(f);
    if FirstWith(ts, DISABLE) == None {
      assert |DISABLE| == 19 && DISABLE[18] == '=' && OneDoubleDash(DISABLE);
      assert (DISABLE + f)[2] == 'd' && ENABLE[2] == 'e';
    } else {
      FirstIsToken(ts, DISABLE);
      var t := FirstWith(ts, DISABLE).value;
      assert t[2] == DISABLE[2] == 'd' && (t + "," + f)[2] == t[2] && ENABLE[2] == 'e';
      ReplacedIsTidy(ts, DISABLE, t + "," + f);
    }
  }

  lemma {:induction false} OtherOrSwitch(ts: seq<string>, x: string)
    requires x in ts && !(ENABLE <= x) && !(DISABLE <= x)
    ensures x in Others(ts)
  {
    if x != ts[0] { OtherOrSwitch(ts[1..], x); }
  }

  /** In a token with no other dashes a long flag can only stand at the start. */
  lemma StandsAtStart(x: string, t: string, r: nat)
    requires OneDoubleDash(x) && |t| >= 2 && t[0] == '-' && t[1] == '-' && OccursAt(x, t, r)
    ensures t <= x
  {
    assert x[r] == t[0] && x[r + 1] == t[1];
  }

  lemma TwoBeginnings(x: string, a: string, b: string)
    requires a <= x && b <= x
    ensures a <= b || b <= a
  {
  }

  lemma NotYetThere(ts: seq<string>, t: string)
    requires Tidy(ts) && IsLongFlag(t) && forall x :: x in Others(ts) ==> !(t <= x)
    ensures !InSome(ts, t)
  {
    if InSome(ts, t) {
      var i, r :| 0 <= i < |ts| && OccursAt(ts[i], t, r);
      StandsAtStart(ts[i], t, r);
      if DISABLE <= ts[i] { TwoBeginnings(ts[i], t, DISABLE); } else { OtherOrSwitch(ts, ts[i]); }
    }
  }

  /** The switch lists the features, the other tokens are the flags, both in the order of the calls. */
  ghost predicate InOrder(now: string, calls: seq<Call>) {
    && WellFormed(now) && Tidy(Tokens(now))
    && Entries(Tokens(now), DISABLE) == Features(calls) && Others(Tokens(now)) == Texts(calls)
  }

  ghost predicate CallsOk(calls: seq<Call>) {
    forall i :: 0 <= i < |calls| ==> CallOk(calls[i]) && (calls[i].Flag? ==> IsLongFlag(calls[i].text))
  }

  /** From empty flags, whatever is called: long flags of which none begins an earlier one are, besides
      the one switch, exactly the tokens, in the order of the calls. */
  lemma {:induction false} FlagsInOrder(calls: seq<Call>)
    requires NoDup(Features(calls)) && NoneBegins(Texts(calls)) && CallsOk(calls)
    ensures InOrder(AfterCalls("", calls), calls)
  {
    if calls == [] {
      NothingInEmpty();
    } else {
      var init, last := calls[..|calls| - 1], calls[|calls| - 1];
      InitIsOk(calls);
      FlagsInOrder(init);
      LastCall(calls);
      OneMoreCall(AfterCalls("", init), init, last);
    }
  }

  lemma InitIsOk(calls: seq<Call>)
    requires calls != [] && NoDup(Features(calls)) && NoneBegins(Texts(calls)) && CallsOk(calls)
    ensures var init, last := calls[..|calls| - 1], calls[|calls| - 1];
            && NoDup(Features(init)) && NoneBegins(Texts(init)) && CallsOk(init) && CallsOk([last])
            && (last.Disable? ==> last.feature !in Features(init))
            && (last.Flag? ==> forall x :: x in Texts(init) ==> !(last.text <= x))
  {
    LastIsNew(calls[..|calls| - 1], calls[|calls| - 1], Features(calls));
    EarlierTexts(calls[..|calls| - 1], calls[|calls| - 1]);
  }

  lemma LastCall(calls: seq<Call>)
    requires calls != []
    ensures var init, last := calls[..|calls| - 1], calls[|calls| - 1];
            && AfterCalls("", calls) == AfterCall(AfterCalls("", init), last)
            && Features(calls) == Features(init) + (if last.Disable? then [last.feature] else [])
            && Texts(calls) == Texts(init) + (if last.Flag? then [last.text] else [])
  {
  }

  lemma NothingInEmpty()
    ensures WellFormed("") && Tokens("") == []
  {
    assert Split<char>("", ' ') == [""] && NonEmpty([""]) == NonEmpty([""][1..]);
  }

  lemma EarlierTexts(init: seq<Call>, last: Call)
    requires NoneBegins(Texts(init) + (if last.Flag? then [last.text] else []))
    ensures NoneBegins(Texts(init))
    ensures last.Flag? ==> forall x :: x in Texts(init) ==> !(last.text <= x)
  {
    var n := |Texts(init)|;
    var all := Texts(init) + (if last.Flag? then [last.text] else []);
    assert forall i :: 0 <= i < n ==> all[i] == Texts(init)[i];
    if last.Flag? { assert all[n] == last.text; }
  }

  lemma OneMoreCall(now: string, init: seq<Call>, last: Call)
    requires InOrder(now, init) && CallsOk([last])
    requires last.Flag? ==> forall x :: x in Texts(init) ==> !(last.text <= x)
    requires last.Disable? ==> last.feature !in Features(init)
    ensures var v := AfterCall(now, last);
            && WellFormed(v) && Tidy(Tokens(v))
            && Entries(Tokens(v), DISABLE) == Features(init) + (if last.Disable? then [last.feature] else [])
            && Others(Tokens(v)) == Texts(init) + (if last.Flag? then [last.text] else [])
  {
    assert CallOk([last][0]);
    match last
    case Flag(t) =>
      NotYetThere(Tokens(now), t);
      FlagMeans(now, t);
    case Disable(f) =>
      ListedIsDisabled(Tokens(now), f);
      DisablingRefines(now, f);
      DisablingMeans(now, f);
      NoneEnabled(Tokens(now));
      AddIsTidy(Tokens(now), f);
  }

  function Flags(texts: seq<string>): seq<Call> {
    seq(|texts|, i requires 0 <= i < |texts| => Flag(texts[i]))
  }

  function Disables(names: seq<string>): seq<Call> {
    seq(|names|, i requires 0 <= i < |names| => Disable(names[i]))
  }

  lemma {:induction false} FeaturesOfFlags(texts: seq<string>)
    ensures Features(Flags(texts)) == []
  {
    if texts != [] {
      FeaturesOfFlags(texts[..|texts| - 1]);
      assert Flags(texts)[..|texts| - 1] == Flags(texts[..|texts| - 1]);
    }
  }

  lemma {:induction false} TextsOfFlags(texts: seq<string>)
    ensures Texts(Flags(texts)) == texts
  {
    if texts != [] {
      TextsOfFlags(texts[..|texts| - 1]);
      assert Flags(texts)[..|texts| - 1] == Flags(texts[..|texts| - 1]);
      assert texts == texts[..|texts| - 1] + [texts[|texts| - 1]];
    }
  }

  lemma {:induction false} TextsOfDisables(names: seq<string>)
    ensures Texts(Disables(names)) == []
  {
    if names != [] {
      TextsOfDisables(names[..|names| - 1]);
      assert Disables(names)[..|names| - 1] == Disables(names[..|names| - 1]);
    }
  }

  lemma {:induction false} TextsOfBoth(a: seq<Call>, b: seq<Call>)
    ensures Texts(a + b) == Texts(a) + Texts(b)
  {
    if b == [] {
      assert a + b == a;
    } else {
      TextsOfBoth(a, b[..|b| - 1]);
      assert (a + b)[..|a + b| - 1] == a + b[..|b| - 1];
    }
  }

  lemma {:induction false} FeaturesOfDisables(names: seq<string>)
    ensures Features(Disables(names)) == names
  {
    if names != [] {
      FeaturesOfDisables(names[..|names| - 1]);
      assert Disables(names)[..|names| - 1] == Disables(names[..|names| - 1]);
      assert names == names[..|names| - 1] + [names[|names| - 1]];
    }
  }

  lemma {:induction false} FeaturesOfBoth(a: seq<Call>, b: seq<Call>)
    ensures Features(a + b) == Features(a) + Features(b)
  {
    if b == [] {
      assert a + b == a;
    } else {
      FeaturesOfBoth(a, b[..|b| - 1]);
      assert (a + b)[..|a + b| - 1] == a + b[..|b| - 1];
    }
  }

  // The three startup functions, in the order in which they are called.  Longer flags are written in
  // two parts, as the lemmas about them take them.

  const WEBRTC_FLAGS: seq<string> :=
    ["--disable-" + "quic", "--force-webrtc-ip-handling" + "-policy=disable_non_proxied_udp"]
  const WEBRTC_FEATURES: seq<string> := ["WebRtcHideLocalIpsWithMdns"]
  const TELEMETRY_FLAGS: seq<string> :=
    ["--disable-" + "background-networking", "--disable-" + "breakpad", "--disable-" + "crash-reporter",
     "--disable-" + "component-update", "--disable-" + "domain-reliability"]
  const TELEMETRY_FEATURES: seq<string> := ["Prerender2", "SpeculationRulesPrefetchProxy"]
  const FINGERPRINT_FLAGS: seq<string> := ["--lang=en-US"]
  const FINGERPRINT_FEATURES: seq<string> :=
    ["BrowsingTopics", "BrowsingTopicsDocumentAPI", "SharedStorageAPI", "InterestGroupStorage", "Fledge",
     "FencedFrames", "PrivateAggregationApi", "ConversionMeasurement", "PrivacySandboxAdsAPIsOverride",
     "PrivacySandboxAdsAPIsM1Override"]

  function Group(flags: seq<string>, features: seq<string>): seq<Call> {
    Flags(flags) + Disables(features)
  }

  /** `hardened` is the stored choice that the second function asks for. */
  function Startup(hardened: bool): seq<Call> {
    Group(WEBRTC_FLAGS, WEBRTC_FEATURES)
    + (if hardened then Group(TELEMETRY_FLAGS, TELEMETRY_FEATURES) else [])
    + Group(FINGERPRINT_FLAGS, FINGERPRINT_FEATURES)
  }

  function StartupFlags(hardened: bool): seq<string> {
    WEBRTC_FLAGS + (if hardened then TELEMETRY_FLAGS else []) + FINGERPRINT_FLAGS
  }

  function StartupFeatures(hardened: bool): seq<string> {
    WEBRTC_FEATURES + (if hardened then TELEMETRY_FEATURES else []) + FINGERPRINT_FEATURES
  }

  lemma PlainByDashes(t: string)
    requires |t| > 10 && NoBlank(t) && OneDoubleDash(t) && !(ENABLE <= t) && t[0] == '-' && t[1] == '-'
    requires t[2] != 'd' || t[10] != 'f'
    ensures IsLongFlag(t)
  {
    forall p, r | IsSwitch(p) && OccursAt(t, p, r) ensures r == 0 {
      StartsWithDashes(t, p, r);
      SwitchHasNoSeparator(p);
    }
    assert IsSwitch(ENABLE) && IsSwitch(DISABLE) && DISABLE[2] == 'd' && DISABLE[10] == 'f';
  }

  lemma NotASwitch(t: string)
    requires |t| > 2 && (t[2] == 'f' || t[2] == 'l')
    ensures !(ENABLE <= t) && !(DISABLE <= t)
  {
  }

  lemma DashesOfSum(a: string, b: string)
    requires OneDoubleDash(a) && OneDoubleDash(b) && NoBlank(a) && NoBlank(b)
    requires |a| >= 2 && |b| >= 2 && (if a[|a| - 1] == '-' then b[0] != '-' else b[1] != '-')
    ensures OneDoubleDash(a + b) && NoBlank(a + b)
  {
  }

  /** A flag that disables something else. */
  lemma PlainDisable(word: string)
    requires |word| >= 2 && OneDoubleDash(word) && NoBlank(word) && word[0] != '-' && word[0] != 'f'
    ensures IsLongFlag("--disable-" + word)
  {
    var front := "--disable-";
    assert front[9] == '-' && OneDoubleDash(front) && NoBlank(front);
    DashesOfSum(front, word);
    assert (front + word)[10] == word[0] && DISABLE[10] == 'f';
    assert (front + word)[2] == 'd' && ENABLE[2] == 'e';
    PlainByDashes(front + word);
  }

  lemma PolicyIsPlain()
    ensures IsLongFlag("--force-webrtc-ip-handling" + "-policy=disable_non_proxied_udp")
  {
    var a, b := "--force-webrtc-ip-handling", "-policy=disable_non_proxied_udp";
    assert a[|a| - 1] == 'g' && b[1] == 'p' && a[2] == 'f';
    FrontIsTame();
    BackIsTame();
    DashesOfSum(a, b);
    NotASwitch(a + b);
    PlainByDashes(a + b);
  }

  lemma FrontIsTame()
    ensures OneDoubleDash("--force-webrtc-ip-handling") && NoBlank("--force-webrtc-ip-handling")
  {
  }

  lemma BackIsTame()
    ensures OneDoubleDash("-policy=disable_non_proxied_udp") && NoBlank("-policy=disable_non_proxied_udp")
  {
  }

  lemma LanguageIsPlain()
    ensures IsLongFlag("--lang=en-US")
  {
    var t := "--lang=en-US";
    assert |t| == 12 && t[2] == 'l' && OneDoubleDash(t) && NoBlank(t);
    NotASwitch(t);
    PlainByDashes(t);
  }

  lemma WebRtcIsPlain(i: nat)
    requires i < |WEBRTC_FLAGS|
    ensures IsLongFlag(WEBRTC_FLAGS[i])
  {
    if i == 0 { PlainDisable("quic"); } else { PolicyIsPlain(); }
  }

  lemma TelemetryIsPlain(i: nat)
    requires i < |TELEMETRY_FLAGS|
    ensures IsLongFlag(TELEMETRY_FLAGS[i])
  {
    if i == 0 { PlainDisable("background-networking"); }
    else if i == 1 { PlainDisable("breakpad"); }
    else if i == 2 { PlainDisable("crash-reporter"); }
    else if i == 3 { PlainDisable("component-update"); }
    else { PlainDisable("domain-reliability"); }
  }

  /** Three characters tell the flags apart. */
  function Mark(t: string): (char, char, char)
    requires |t| >= 12
  {
    (t[2], t[10], t[11])
  }

  lemma DifferentMarks(t: string, x: string)
    requires |t| >= 12 && |x| >= 12 && Mark(t) != Mark(x)
    ensures !(t <= x)
  {
  }

  lemma WebRtcMarks()
    ensures forall i :: 0 <= i < |WEBRTC_FLAGS| ==> |WEBRTC_FLAGS[i]| >= 12
    ensures Mark(WEBRTC_FLAGS[0]) == ('d', 'q', 'u') && Mark(WEBRTC_FLAGS[1]) == ('f', 'b', 'r')
  {
  }

  lemma TelemetryMarks()
    ensures forall i :: 0 <= i < |TELEMETRY_FLAGS| ==> |TELEMETRY_FLAGS[i]| >= 12
    ensures Mark(TELEMETRY_FLAGS[0]) == ('d', 'b', 'a') && Mark(TELEMETRY_FLAGS[1]) == ('d', 'b', 'r')
    ensures Mark(TELEMETRY_FLAGS[2]) == ('d', 'c', 'r') && Mark(TELEMETRY_FLAGS[3]) == ('d', 'c', 'o')
    ensures Mark(TELEMETRY_FLAGS[4]) == ('d', 'd', 'o')
  {
  }

  lemma LanguageMark()
    ensures |FINGERPRINT_FLAGS[0]| == 12 && Mark(FINGERPRINT_FLAGS[0]) == ('l', 'U', 'S')
  {
  }

  lemma FlagsDiffer(hardened: bool)
    ensures NoneBegins(StartupFlags(hardened))
  {
    WebRtcMarks();
    TelemetryMarks();
    LanguageMark();
    var fs := StartupFlags(hardened);
    forall i, j | 0 <= i < j < |fs| ensures !(fs[j] <= fs[i]) { DifferentMarks(fs[j], fs[i]); }
  }

  lemma FeaturesAreDistinct(hardened: bool)
    ensures NoDup(StartupFeatures(hardened))
  {
  }

  lemma NamesAreNames(i: nat)
    requires i < |FINGERPRINT_FEATURES|
    ensures IsName(FINGERPRINT_FEATURES[i])
  {
    if i < 5 {
    } else {
    }
  }

  lemma OtherNamesAreNames()
    ensures IsName(WEBRTC_FEATURES[0]) && IsName(TELEMETRY_FEATURES[0]) && IsName(TELEMETRY_FEATURES[1])
  {
  }

  lemma GroupIsOk(flags: seq<string>, features: seq<string>)
    requires forall i :: 0 <= i < |flags| ==> IsLongFlag(flags[i])
    requires forall i :: 0 <= i < |features| ==> IsName(features[i])
    ensures GroupOk(flags, features)
  {
    FeaturesOfFlags(flags);
    FeaturesOfDisables(features);
    FeaturesOfBoth(Flags(flags), Disables(features));
    TextsOfFlags(flags);
    TextsOfDisables(features);
    TextsOfBoth(Flags(flags), Disables(features));
  }

  /** From empty flags the startup leaves one disabling switch that lists exactly the features of the
      startup functions, in their order and each once; besides it, the tokens are exactly their flags,
      in order. */
  lemma StartupFromEmpty(hardened: bool)
    ensures WellFormed(AfterCalls("", Startup(hardened)))
    ensures Entries(Tokens(AfterCalls("", Startup(hardened))), DISABLE) == StartupFeatures(hardened)
    ensures NoDup(StartupFeatures(hardened))
    ensures Others(Tokens(AfterCalls("", Startup(hardened)))) == StartupFlags(hardened)
  {
    FeaturesAreDistinct(hardened);
    FlagsDiffer(hardened);
    StartupCalls(hardened);
    FlagsInOrder(Startup(hardened));
  }

  lemma StartupCalls(hardened: bool)
    ensures Features(Startup(hardened)) == StartupFeatures(hardened)
    ensures Texts(Startup(hardened)) == StartupFlags(hardened)
    ensures CallsOk(Startup(hardened))
  {
    GroupsAreOk();
    var a, b, c := Group(WEBRTC_FLAGS, WEBRTC_FEATURES), Group(TELEMETRY_FLAGS, TELEMETRY_FEATURES),
                   Group(FINGERPRINT_FLAGS, FINGERPRINT_FEATURES);
    var m := if hardened then b else [];
    FeaturesOfBoth(a, m);
    FeaturesOfBoth(a + m, c);
    TextsOfBoth(a, m);
    TextsOfBoth(a + m, c);
  }

  ghost predicate GroupOk(flags: seq<string>, features: seq<string>) {
    var c := Group(flags, features);
    Features(c) == features && Texts(c) == flags && CallsOk(c)
  }

  lemma GroupsAreOk()
    ensures GroupOk(WEBRTC_FLAGS, WEBRTC_FEATURES) && GroupOk(TELEMETRY_FLAGS, TELEMETRY_FEATURES)
    ensures GroupOk(FINGERPRINT_FLAGS, FINGERPRINT_FEATURES)
  {
    OtherNamesAreNames();
    forall i | 0 <= i < |WEBRTC_FLAGS| ensures IsLongFlag(WEBRTC_FLAGS[i]) { WebRtcIsPlain(i); }
    GroupIsOk(WEBRTC_FLAGS, WEBRTC_FEATURES);
    forall i | 0 <= i < |TELEMETRY_FLAGS| ensures IsLongFlag(TELEMETRY_FLAGS[i]) { TelemetryIsPlain(i); }
    GroupIsOk(TELEMETRY_FLAGS, TELEMETRY_FEATURES);
    forall i | 0 <= i < |FINGERPRINT_FEATURES| ensures IsName(FINGERPRINT_FEATURES[i]) { NamesAreNames(i); }
    LanguageIsPlain();
    GroupIsOk(FINGERPRINT_FLAGS, FINGERPRINT_FEATURES);
  }
}
