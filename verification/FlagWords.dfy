/** The switches, features and flags themselves. */
module FlagWords {
  import opened ChromiumFlags
  import opened FlagSequence

  lemma SwitchesAre()
    ensures ENABLE == "--enable-features=" && DISABLE == "--disable-features="
  {
  }

  /** An entry is about the feature if it is the feature, or the feature with a group or with parameters. */
  lemma VariantIff(entry: string, feature: string)
    ensures IsVariant(entry, feature) <==>
              entry == feature || exists rest :: entry == feature + "<" + rest || entry == feature + ":" + rest
  {
    if feature + "<" <= entry { assert entry == feature + "<" + entry[|feature| + 1..]; }
    if feature + ":" <= entry { assert entry == feature + ":" + entry[|feature| + 1..]; }
  }

  /** What the startup functions disable, in this order. */
  lemma FeaturesAre(hardened: bool)
    ensures StartupFeatures(hardened)
            == ["WebRtcHideLocalIpsWithMdns"]
               + (if hardened then ["Prerender2", "SpeculationRulesPrefetchProxy"] else [])
               + ["BrowsingTopics", "BrowsingTopicsDocumentAPI", "SharedStorageAPI", "InterestGroupStorage", "Fledge",
                  "FencedFrames", "PrivateAggregationApi", "ConversionMeasurement", "PrivacySandboxAdsAPIsOverride",
                  "PrivacySandboxAdsAPIsM1Override"]
  {
  }

  lemma WebRtcFlagsAre()
    ensures WEBRTC_FLAGS == ["--disable-quic", "--force-webrtc-ip-handling-policy=disable_non_proxied_udp"]
  {
    assert "--disable-" + "quic" == "--disable-quic";
    assert "--force-webrtc-ip-handling" + "-policy=disable_non_proxied_udp"
           == "--force-webrtc-ip-handling-policy=disable_non_proxied_udp";
  }

  lemma TelemetryFlagsAre()
    ensures TELEMETRY_FLAGS == ["--disable-background-networking", "--disable-breakpad", "--disable-crash-reporter",
                                "--disable-component-update", "--disable-domain-reliability"]
  {
    FirstTelemetryFlags();
    LastTelemetryFlags();
  }

  lemma FirstTelemetryFlags()
    ensures "--disable-" + "background-networking" == "--disable-background-networking"
    ensures "--disable-" + "breakpad" == "--disable-breakpad"
  {
  }

  lemma LastTelemetryFlags()
    ensures "--disable-" + "crash-reporter" == "--disable-crash-reporter"
    ensures "--disable-" + "component-update" == "--disable-component-update"
    ensures "--disable-" + "domain-reliability" == "--disable-domain-reliability"
  {
  }

  /** What they add, in this order. */
  lemma FlagsAre(hardened: bool)
    ensures StartupFlags(hardened)
            == ["--disable-quic", "--force-webrtc-ip-handling-policy=disable_non_proxied_udp"]
               + (if hardened then ["--disable-background-networking", "--disable-breakpad", "--disable-crash-reporter",
                                    "--disable-component-update", "--disable-domain-reliability"] else [])
               + ["--lang=en-US"]
  {
    WebRtcFlagsAre();
    TelemetryFlagsAre();
  }
}
