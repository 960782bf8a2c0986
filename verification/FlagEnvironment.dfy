/** The process environment, whose one variable with Chromium's flags is edited in place. */
module FlagEnvironment {
  import opened ChromiumFlags
  import opened FlagTheorems
  import opened FlagStartup
  import opened FlagSequence
  import opened Text

  /** What adding a plain flag does to well-formed flags. */
  ghost predicate FlagAdded(env: string, flag: string, v: string) {
    WellFormed(env) && IsPlainFlag(flag) ==>
      && WellFormed(v)
      && Tokens(v) == Tokens(env) + (if InSome(Tokens(env), flag) then [] else [flag])
  }

  lemma FlagEffect(env: string, flag: string)
    ensures FlagAdded(env, flag, WithFlag(env, flag))
  {
    if WellFormed(env) && IsPlainFlag(flag) { FlagMeans(env, flag); }
  }

  /** What disabling a feature does to them that is not disabled yet. */
  ghost predicate FeatureDisabled(env: string, f: string, v: string) {
    WellFormed(env) && IsName(f) && f !in Entries(Tokens(env), DISABLE) ==>
      && WellFormed(v) && Entries(Tokens(v), DISABLE) == Entries(Tokens(env), DISABLE) + [f]
      && Entries(Tokens(v), ENABLE) == WithoutVariants(Entries(Tokens(env), ENABLE), f)
      && Others(Tokens(v)) == Others(Tokens(env))
  }

  lemma DisabledEffect(env: string, f: string)
    ensures FeatureDisabled(env, f, WithDisabled(env, f))
  {
    if WellFormed(env) && IsName(f) && f !in Entries(Tokens(env), DISABLE) {
      ListedIsDisabled(Tokens(env), f);
      DisablingRefines(env, f);
      DisablingMeans(env, f);
    }
  }

  class Environment {
    var flags: string

    constructor (flags: string)
      ensures this.flags == flags
    {
      this.flags := flags;
    }

    /** A plain flag becomes the last token, unless it stands within one already. */
    method AppendFlag(flag: string)
      modifies this
      ensures flags == WithFlag(old(flags), flag)
      ensures FlagAdded(old(flags), flag, flags)
    {
      FlagEffect(flags, flag);
      var text := Trim(flags);
      if Contains(text, flag) { return; }
      if text != "" { text := text + " "; }
      text := text + flag;
      flags := text;
    }

    /** The loop of std::remove_if over the enabled entries. */
    method EraseVariants(entries: seq<string>, feature: string) returns (kept: seq<string>)
      ensures kept == WithoutVariants(entries, feature)
    {
      kept := [];
      for i := 0 to |entries|
        invariant kept + WithoutVariants(entries[i..], feature) == WithoutVariants(entries, feature)
      {
        assert entries[i..][1..] == entries[i + 1..];
        if !IsVariant(entries[i], feature) { kept := kept + [entries[i]]; }
      }
    }

    /** QByteArray::remove of an emptied switch. */
    method EraseSwitch(text: string, start: nat, valueStart: nat, valueEnd: nat) returns (edited: string)
      requires start <= valueStart <= valueEnd <= |text|
      ensures edited == Replaced(text, start, valueStart, valueEnd, [])
    {
      var removeStart, removeLength := start, valueEnd - start;
      if valueEnd < |text| {
        removeLength := removeLength + 1;
      } else if removeStart > 0 && text[removeStart - 1] == ' ' {
        removeStart, removeLength := removeStart - 1, removeLength + 1;
      }
      var front, rest := text[..removeStart], text[removeStart + removeLength..];
      assert rest == [] ==> front + rest == front;
      edited := front + rest;
    }

    method EraseEnabled(text: string, feature: string) returns (edited: string)
      ensures edited == WithoutEnabled(text, feature)
    {
      edited := text;
      var start := IndexOf(edited, ENABLE, 0);
      if start >= 0 {
        var valueStart := start + |ENABLE|;
        var valueEnd := ValueEnd(edited, valueStart);
        var enabled := EraseVariants(Split(edited[valueStart..valueEnd], ','), feature);
        if enabled == [] {
          edited := EraseSwitch(edited, start, valueStart, valueEnd);
        } else {
          edited := edited[..valueStart] + Join(enabled, ',') + edited[valueEnd..];
        }
        edited := Trim(edited);
      }
    }

    /** A feature that is not disabled yet becomes the last disabled one and is enabled no more; nothing
        else changes. */
    method AppendDisabledFeature(feature: string)
      modifies this
      ensures flags == WithDisabled(old(flags), feature)
      ensures FeatureDisabled(old(flags), feature, flags)
    {
      DisabledEffect(flags, feature);
      EditFeatures(feature);
    }

    method EditFeatures(feature: string)
      modifies this
      ensures flags == WithDisabled(old(flags), feature)
    {
      var text := EraseEnabled(Trim(flags), feature);
      var switchStart := IndexOf(text, DISABLE, 0);
      if switchStart < 0 {
        flags := text;
        AppendFlag(DISABLE + feature);
        return;
      }
      var valueStart := switchStart + |DISABLE|;
      var valueEnd := ValueEnd(text, valueStart);
      if feature in Split(text[valueStart..valueEnd], ',') { return; }
      text := text[..valueEnd] + ("," + feature) + text[valueEnd..];
      flags := text;
    }

    method AppendFlags(texts: seq<string>)
      modifies this
      ensures flags == AfterCalls(old(flags), Flags(texts))
    {
      ghost var calls := Flags(texts);
      for i := 0 to |texts|
        invariant flags == AfterCalls(old(flags), calls[..i])
      {
        assert calls[..i + 1] == calls[..i] + [Flag(texts[i])];
        CallsInTurn(old(flags), calls[..i], [Flag(texts[i])]);
        AppendFlag(texts[i]);
      }
      assert calls[..|texts|] == calls;
    }

    method AppendDisabledFeatures(features: seq<string>)
      modifies this
      ensures flags == AfterCalls(old(flags), Disables(features))
    {
      ghost var calls := Disables(features);
      for i := 0 to |features|
        invariant flags == AfterCalls(old(flags), calls[..i])
      {
        assert calls[..i + 1] == calls[..i] + [Disable(features[i])];
        CallsInTurn(old(flags), calls[..i], [Disable(features[i])]);
        AppendDisabledFeature(features[i]);
      }
      assert calls[..|features|] == calls;
    }

    /** One startup function: its flags, then its features. */
    method ApplyGroup(texts: seq<string>, features: seq<string>)
      modifies this
      ensures flags == AfterCalls(old(flags), Group(texts, features))
    {
      CallsInTurn(flags, Flags(texts), Disables(features));
      AppendFlags(texts);
      AppendDisabledFeatures(features);
    }

    /** The three startup functions in turn.  On empty flags: one disabling switch with all features,
        and all flags, each once and in order. */
    method ApplyStartup(hardened: bool)
      modifies this
      ensures flags == AfterCalls(old(flags), Startup(hardened))
      ensures old(flags) == "" ==>
                && WellFormed(flags) && Entries(Tokens(flags), DISABLE) == StartupFeatures(hardened)
                && Others(Tokens(flags)) == StartupFlags(hardened)
    {
      ghost var before := flags;
      ApplyGroup(WEBRTC_FLAGS, WEBRTC_FEATURES);
      ghost var calls := Group(WEBRTC_FLAGS, WEBRTC_FEATURES);
      if hardened {
        CallsInTurn(before, calls, Group(TELEMETRY_FLAGS, TELEMETRY_FEATURES));
        ApplyGroup(TELEMETRY_FLAGS, TELEMETRY_FEATURES);
        calls := calls + Group(TELEMETRY_FLAGS, TELEMETRY_FEATURES);
      }
      CallsInTurn(before, calls, Group(FINGERPRINT_FLAGS, FINGERPRINT_FEATURES));
      ApplyGroup(FINGERPRINT_FLAGS, FINGERPRINT_FEATURES);
      assert calls + Group(FINGERPRINT_FLAGS, FINGERPRINT_FEATURES) == Startup(hardened);
      StartupFromEmpty(hardened);
    }
  }

  lemma {:induction false} CallsInTurn(env: string, a: seq<Call>, b: seq<Call>)
    ensures AfterCalls(env, a + b) == AfterCalls(AfterCalls(env, a), b)
  {
    if b == [] {
      assert a + b == a;
    } else {
      CallsInTurn(env, a, b[..|b| - 1]);
      assert (a + b)[..|a + b| - 1] == a + b[..|b| - 1];
    }
  }
}
