/** Which bridge lines are accepted, why others are not, and what an accepted line says: the parser
    against the grammar. */
module BridgeMeaning {
  import opened Wrappers
  import opened Checklist
  import opened Text
  import opened BridgeText
  import opened BridgeLine
  import opened BridgeGrammar

  // ----- Transports ---------------------------------------------------------------------------

  const ALIASES: map<string, string> := map["meek_lite" := "meek-lite", "meeklite" := "meek-lite", "plain" := "vanilla"]
  const NAMES: seq<string> := ["obfs4", "webtunnel", "snowflake", "meek", "meek-lite", "vanilla", "custom"]

  /** The name that a transport goes by. */
  ghost predicate KeyIs(h: Host, transport: string, key: string) {
    exists t :: Trims(transport, t) && key == if h.lower(t) in ALIASES then ALIASES[h.lower(t)] else h.lower(t)
  }

  /** A name of another transport: a letter, and letters, digits, underscores and hyphens, 64 at most. */
  predicate OtherName(t: string) {
    && 1 <= |t| <= 64 && Letter(t[0])
    && forall c :: c in t ==> Letter(c) || Digit(c) || c as int == 95 || c as int == 45
  }

  /** The first token as a transport: a known name, or any other as it is spelled. */
  ghost predicate TransportIs(h: Host, token: string, name: string) {
    exists t, key :: Trims(token, t) && KeyIs(h, t, key)
      && name == if key in NAMES then key else if OtherName(t) then t else ""
  }

  lemma KeyHolds(h: Host, transport: string)
    ensures KeyIs(h, transport, TransportKey(h, transport))
  {
    TrimTrims(transport);
  }

  lemma OtherNameIff(t: string)
    ensures IsTransportToken(t) <==> OtherName(t)
  {
    if OtherName(t) {
      CharactersAgree(t[0]);
      forall i | 0 <= i < |t| ensures IsAlnum(t[i]) || t[i] == '_' || t[i] == '-' {
        assert t[i] in t;
        CharactersAgree(t[i]);
      }
    }
    if IsTransportToken(t) {
      CharactersAgree(t[0]);
      forall c | c in t ensures Letter(c) || Digit(c) || c as int == 95 || c as int == 45 {
        var i :| 0 <= i < |t| && t[i] == c;
        CharactersAgree(c);
      }
    }
  }

  lemma TransportHolds(h: Host, token: string)
    ensures TransportIs(h, token, NormalizeTransport(h, token))
  {
    var t := Trim(token);
    TrimTrims(token);
    KeyHolds(h, t);
    OtherNameIff(t);
    assert TransportKey(h, t) in KNOWN <==> TransportKey(h, t) in NAMES;
  }

  // ----- Addresses ----------------------------------------------------------------------------

  /** host:port, or [host]:port, which the host of an IPv6 address needs. */
  predicate AddressOf(clean: string, host: string, port: string) {
    && host != "" && port != ""
    && if clean != "" && clean[0] == '['
       then clean == "[" + host + "]:" + port && ']' !in host
       else clean == host + ":" + port && ':' !in host && ':' !in port
  }

  /** An address that breaks off behind the colon before the port. */
  ghost predicate LacksPort(clean: string) {
    if clean != "" && clean[0] == '['
    then exists host :: clean == "[" + host + "]:" && host != "" && ']' !in host
    else exists front :: clean == front + ":" && front != ""
  }

  lemma FirstAt(s: string, c: char, k: nat)
    requires k < |s| && s[k] == c && c !in s[..k]
    ensures IndexOf(s, c) == k
  {
    assert forall j :: 0 <= j < k ==> s[..k][j] == s[j];
  }

  lemma LastAt(s: string, c: char, k: nat)
    requires k < |s| && s[k] == c && c !in s[k + 1..]
    ensures LastIndexOf(s, c) == k
  {
    assert forall j :: k < j < |s| ==> s[k + 1..][j - k - 1] == s[j];
  }

  lemma BracketedHolds(clean: string, host: string, port: string)
    requires clean != "" && clean[0] == '['
    ensures AddressOf(clean, host, port) <==> SplitClean(clean) == Ok((host, port))
  {
    var close := IndexOf(clean, ']');
    if AddressOf(clean, host, port) {
      var n := |host| + 1;
      assert clean[n] == ']' && clean[..n] == ['['] + host;
      FirstAt(clean, ']', n);
      assert clean[1..n] == host && clean[n + 2..] == port && clean[n + 1] == ':';
    }
    if SplitClean(clean) == Ok((host, port)) {
      assert clean == "[" + clean[1..close] + "]:" + clean[close + 2..];
      assert ']' !in clean[1..close];
    }
  }

  lemma PlainHolds(clean: string, host: string, port: string)
    requires clean == "" || clean[0] != '['
    ensures AddressOf(clean, host, port) <==> SplitClean(clean) == Ok((host, port))
  {
    var colon := LastIndexOf(clean, ':');
    if AddressOf(clean, host, port) {
      assert clean[|host|] == ':' && clean[|host| + 1..] == port && clean[..|host|] == host;
      LastAt(clean, ':', |host|);
    }
    if SplitClean(clean) == Ok((host, port)) {
      assert clean == clean[..colon] + ":" + clean[colon + 1..];
      assert ':' !in clean[colon + 1..];
    }
  }

  lemma BracketedFault(clean: string)
    requires clean != "" && clean[0] == '[' && SplitClean(clean).Err?
    ensures SplitClean(clean).error == if LacksPort(clean) then InvalidPort else InvalidAddress
  {
    var close := IndexOf(clean, ']');
    if LacksPort(clean) {
      var host :| clean == "[" + host + "]:" && host != "" && ']' !in host;
      var n := |host| + 1;
      assert clean[n] == ']' && clean[..n] == ['['] + host;
      FirstAt(clean, ']', n);
      assert clean[n + 2..] == "" && clean[n + 1] == ':';
    }
    if SplitClean(clean).error == InvalidPort {
      assert clean[close + 2..] == "" && clean == "[" + clean[1..close] + "]:";
      assert ']' !in clean[1..close];
    }
  }

  lemma PlainFault(clean: string)
    requires (clean == "" || clean[0] != '[') && SplitClean(clean).Err?
    ensures SplitClean(clean).error == if LacksPort(clean) then InvalidPort else InvalidAddress
  {
    var colon := LastIndexOf(clean, ':');
    if LacksPort(clean) {
      var front :| clean == front + ":" && front != "";
      assert clean[|front|] == ':' && clean[|front| + 1..] == "";
      LastAt(clean, ':', |front|);
    }
    if SplitClean(clean).error == InvalidPort {
      assert clean == clean[..colon] + ":" && clean[..colon] != "";
    }
  }

  // ----- Hosts and ports ----------------------------------------------------------------------

  function Horner(s: string): int {
    if s == "" then 0 else 10 * Horner(s[..|s| - 1]) + s[|s| - 1] as int - 48
  }

  predicate ThreeDigits(s: string) {
    1 <= |s| <= 3 && forall c :: c in s ==> Digit(c)
  }

  predicate FourOf(s: string, a: string, b: string, c: string, d: string) {
    s == a + "." + b + "." + c + "." + d && ThreeDigits(a) && ThreeDigits(b) && ThreeDigits(c) && ThreeDigits(d)
  }

  /** Four numbers of up to three digits with dots between them. */
  ghost predicate FourNumbers(s: string) {
    exists a, b, c, d :: FourOf(s, a, b, c, d)
  }

  ghost predicate FourBytes(s: string) {
    exists a, b, c, d :: FourOf(s, a, b, c, d) && Horner(a) <= 255 && Horner(b) <= 255 && Horner(c) <= 255 && Horner(d) <= 255
  }

  /** Up to 63 letters, digits and hyphens, no hyphen at either end. */
  predicate Label(s: string) {
    && 1 <= |s| <= 63 && s[0] != '-' && s[|s| - 1] != '-'
    && forall c :: c in s ==> Letter(c) || Digit(c) || c == '-'
  }

  ghost predicate Labels(s: string) {
    exists parts: seq<string> :: parts != [] && s == Join(parts, '.') && forall i :: 0 <= i < |parts| ==> Label(parts[i])
  }

  /** An IPv4 address, an IPv6 address, or a host name. */
  ghost predicate HostOk(h: Host, host: string) {
    exists s :: Trims(host, s) && s != ""
      && if FourNumbers(s) then FourBytes(s)
         else if ':' in s then (forall c :: c in s ==> Hexadecimal(c) || c == ':' || c == '.') && h.isIpv6(s)
         else Labels(s)
  }

  lemma {:induction false} HornerIsNumeral(s: string)
    requires AllDigits(s)
    ensures Horner(s) == Numeral(s)
  {
    if s != "" { HornerIsNumeral(s[..|s| - 1]); }
  }

  lemma DigitsIff(s: string)
    ensures AllDigits(s) <==> forall c :: c in s ==> Digit(c)
  {
    if forall c :: c in s ==> Digit(c) {
      forall i | 0 <= i < |s| ensures IsDigit(s[i]) { assert s[i] in s; CharactersAgree(s[i]); }
    }
  }

  lemma JoinFour(parts: seq<string>)
    requires |parts| == 4
    ensures Join(parts, '.') == parts[0] + "." + parts[1] + "." + parts[2] + "." + parts[3]
  {
    assert parts[1..] == [parts[1], parts[2], parts[3]] && parts[1..][1..] == [parts[2], parts[3]];
    assert [parts[2], parts[3]][1..] == [parts[3]];
    assert Join([parts[2], parts[3]], '.') == parts[2] + ['.'] + parts[3];
    assert Join(parts[1..], '.') == parts[1] + ['.'] + Join(parts[1..][1..], '.');
    Reassociate(parts[0], parts[1], parts[2], parts[3]);
  }

  lemma Reassociate(a: string, b: string, c: string, d: string)
    ensures a + ['.'] + (b + ['.'] + (c + ['.'] + d)) == a + "." + b + "." + c + "." + d
  {
  }

  lemma FourIsSplit(s: string, a: string, b: string, c: string, d: string)
    requires FourOf(s, a, b, c, d)
    ensures Split(s, '.') == [a, b, c, d]
  {
    var parts := [a, b, c, d];
    JoinFour(parts);
    forall i | 0 <= i < 4 ensures '.' !in parts[i] { assert ThreeDigits(parts[i]); }
    SplitOfJoin(parts, '.');
  }

  lemma OctetsIff(s: string)
    ensures IsOctets(s) <==> FourNumbers(s)
    ensures IsOctets(s) ==> (OctetsInRange(s) <==> FourBytes(s))
  {
    if FourNumbers(s) {
      var a, b, c, d :| FourOf(s, a, b, c, d);
      FourIsSplit(s, a, b, c, d);
      forall i | 0 <= i < 4 ensures AllDigits(Split(s, '.')[i]) { DigitsIff([a, b, c, d][i]); }
    }
    if IsOctets(s) {
      var p := Split(s, '.');
      JoinFour(p);
      forall i | 0 <= i < 4 ensures ThreeDigits(p[i]) && Horner(p[i]) == Numeral(p[i]) {
        DigitsIff(p[i]);
        HornerIsNumeral(p[i]);
      }
      assert FourOf(s, p[0], p[1], p[2], p[3]);
      if FourBytes(s) {
        var a, b, c, d :| FourOf(s, a, b, c, d) && Horner(a) <= 255 && Horner(b) <= 255 && Horner(c) <= 255 && Horner(d) <= 255;
        FourIsSplit(s, a, b, c, d);
      }
    }
  }

  lemma LabelIff(s: string)
    ensures IsLabel(s) <==> Label(s)
  {
    forall i | 0 <= i < |s| ensures IsAlnum(s[i]) <==> Letter(s[i]) || Digit(s[i]) { CharactersAgree(s[i]); }
    if Label(s) {
      forall i | 0 <= i < |s| ensures IsAlnum(s[i]) || s[i] == '-' { assert s[i] in s; }
    }
  }

  lemma LabelHasNoDot(s: string)
    requires Label(s)
    ensures '.' !in s
  {
  }

  lemma HostnameIff(s: string)
    ensures IsHostname(s) <==> Labels(s)
  {
    var p := Split(s, '.');
    if IsHostname(s) {
      forall i | 0 <= i < |p| ensures Label(p[i]) { LabelIff(p[i]); }
    }
    if Labels(s) {
      var parts: seq<string> :| parts != [] && s == Join(parts, '.') && forall i :: 0 <= i < |parts| ==> Label(parts[i]);
      forall i | 0 <= i < |parts| ensures '.' !in parts[i] { LabelHasNoDot(parts[i]); }
      SplitOfJoin(parts, '.');
      forall i | 0 <= i < |p| ensures IsLabel(p[i]) { LabelIff(p[i]); }
    }
  }

  lemma Ipv6CharsIff(s: string)
    ensures (forall i :: 0 <= i < |s| ==> IsIpv6Char(s[i])) <==> forall c :: c in s ==> Hexadecimal(c) || c == ':' || c == '.'
  {
    forall i | 0 <= i < |s| ensures IsIpv6Char(s[i]) <==> Hexadecimal(s[i]) || s[i] == ':' || s[i] == '.' {
      CharactersAgree(s[i]);
    }
    if forall c :: c in s ==> Hexadecimal(c) || c == ':' || c == '.' {
      forall i | 0 <= i < |s| ensures IsIpv6Char(s[i]) { assert s[i] in s; }
    }
  }

  /** Nothing but the trimmed text is the text trimmed. */
  lemma TrimOnly(s: string, t: string)
    ensures Trims(s, t) <==> t == Trim(s)
  {
    TrimTrims(s);
    if Trims(s, t) {
      var front, back :| s == front + t + back && forall c :: c in front + back ==> Space(c);
      TrimOfPadded(front, t, back);
    }
  }

  lemma {:induction false} TrimOfPadded(front: string, t: string, back: string)
    requires forall c :: c in front + back ==> Space(c)
    requires t != "" ==> !Space(t[0]) && !Space(t[|t| - 1])
    ensures Trim(front + t + back) == t
    decreases |front| + |back|
  {
    var s := front + t + back;
    if front != "" {
      assert front[0] in front + back && s[0] == front[0];
      CharactersAgree(s[0]);
      assert s[1..] == front[1..] + t + back;
      forall c | c in front[1..] + back ensures Space(c) { assert c in front + back; }
      TrimOfPadded(front[1..], t, back);
    } else if t == "" {
      if back != "" {
        assert back[0] in front + back && s[0] == back[0];
        CharactersAgree(s[0]);
        assert s[1..] == "" + t + back[1..];
        forall c | c in "" + back[1..] ensures Space(c) { assert c in front + back; }
        TrimOfPadded("", t, back[1..]);
      }
    } else {
      CharactersAgree(t[0]);
      assert s[0] == t[0] && TrimStart(s) == s;
      TrimEndOfPadded(t, back);
      assert s == t + back;
    }
  }

  lemma {:induction false} TrimEndOfPadded(t: string, back: string)
    requires t != "" && !Space(t[|t| - 1]) && forall c :: c in back ==> Space(c)
    ensures TrimEnd(t + back) == t
  {
    var s := t + back;
    CharactersAgree(s[|s| - 1]);
    if back != "" {
      assert s[|s| - 1] == back[|back| - 1] && s[|s| - 1] in back;
      assert s[..|s| - 1] == t + back[..|back| - 1];
      TrimEndOfPadded(t, back[..|back| - 1]);
    } else {
      assert s == t;
    }
  }

  lemma HostIff(h: Host, host: string)
    ensures ValidHost(h, host) <==> HostOk(h, host)
  {
    var s := Trim(host);
    TrimTrims(host);
    forall t ensures Trims(host, t) <==> t == s { TrimOnly(host, t); }
    OctetsIff(s);
    Ipv6CharsIff(s);
    HostnameIff(s);
  }

  predicate PortOk(h: Host, port: string) {
    h.toInt(port).Some? && h.toInt(port).value > 0 && h.toInt(port).value < 65536
  }

  /** Forty hexadecimal digits. */
  predicate FingerprintOk(s: string) {
    |s| == 40 && forall c :: c in s ==> Hexadecimal(c)
  }

  lemma FingerprintIff(s: string)
    ensures IsFingerprint(s) <==> FingerprintOk(s)
  {
    forall i | 0 <= i < |s| ensures IsHexDigit(s[i]) <==> Hexadecimal(s[i]) { CharactersAgree(s[i]); }
    if FingerprintOk(s) {
      forall i | 0 <= i < 40 ensures IsHexDigit(s[i]) { assert s[i] in s; }
    }
  }

  // ----- Options ------------------------------------------------------------------------------

  predicate KeyValue(token: string, key: string, value: string) {
    token == key + "=" + value && key != "" && '=' !in key
  }

  ghost predicate IsOption(token: string) {
    exists key, value :: KeyValue(token, key, value)
  }

  /** The options among the tokens, in order. */
  ghost function OptionsAmong(tokens: seq<string>): seq<string> {
    if tokens == [] then [] else (if IsOption(tokens[0]) then [tokens[0]] else []) + OptionsAmong(tokens[1..])
  }

  /** The i-th token sets the key, which is lower case, to the value. */
  ghost predicate Sets(h: Host, token: string, key: string, value: string) {
    exists k :: KeyValue(token, k, value) && h.lower(k) == key
  }

  ghost predicate SetsKey(h: Host, token: string, key: string) {
    exists value :: Sets(h, token, key, value)
  }

  /** The last token that sets the key sets it to the value. */
  ghost predicate LastValue(h: Host, tokens: seq<string>, key: string, value: string) {
    exists i :: 0 <= i < |tokens| && Sets(h, tokens[i], key, value)
      && forall j :: i < j < |tokens| ==> !SetsKey(h, tokens[j], key)
  }

  ghost predicate OptionsAre(h: Host, tokens: seq<string>, o: Options) {
    && o.tokens == OptionsAmong(tokens)
    && (forall key, value :: LastValue(h, tokens, key, value) <==> key in o.parameters && o.parameters[key] == value)
    && o.cert == (if "cert" in o.parameters then o.parameters["cert"] else "")
    && o.iatMode == (if "iat-mode" in o.parameters then o.parameters["iat-mode"] else "")
  }

  lemma KeyValueIff(token: string, key: string, value: string)
    ensures var eq := IndexOf(token, '=');
            KeyValue(token, key, value) <==> eq > 0 && key == token[..eq] && value == token[eq + 1..]
  {
    var eq := IndexOf(token, '=');
    if KeyValue(token, key, value) {
      assert token[|key|] == '=' && token[..|key|] == key && token[|key| + 1..] == value;
      FirstAt(token, '=', |key|);
    }
    if eq > 0 && key == token[..eq] && value == token[eq + 1..] {
      assert token == token[..eq] + "=" + token[eq + 1..];
    }
  }

  lemma OptionIff(h: Host, token: string, key: string, value: string)
    ensures var eq := IndexOf(token, '=');
            && (IsOption(token) <==> eq > 0)
            && (Sets(h, token, key, value) <==> eq > 0 && key == h.lower(token[..eq]) && value == token[eq + 1..])
            && (SetsKey(h, token, key) <==> eq > 0 && key == h.lower(token[..eq]))
  {
    var eq := IndexOf(token, '=');
    forall k, v ensures KeyValue(token, k, v) <==> eq > 0 && k == token[..eq] && v == token[eq + 1..] {
      KeyValueIff(token, k, v);
    }
    if eq > 0 {
      assert KeyValue(token, token[..eq], token[eq + 1..]);
      if key == h.lower(token[..eq]) { assert Sets(h, token, key, token[eq + 1..]); }
    }
  }

  lemma {:induction false} AmongAppend(tokens: seq<string>, t: string)
    ensures OptionsAmong(tokens + [t]) == OptionsAmong(tokens) + (if IsOption(t) then [t] else [])
  {
    if tokens == [] {
      assert tokens + [t] == [t] && [t][1..] == [];
    } else {
      assert (tokens + [t])[1..] == tokens[1..] + [t];
      AmongAppend(tokens[1..], t);
    }
  }

  lemma LastValueAppend(h: Host, tokens: seq<string>, t: string, key: string, value: string)
    ensures LastValue(h, tokens + [t], key, value)
            <==> if SetsKey(h, t, key) then Sets(h, t, key, value) else LastValue(h, tokens, key, value)
  {
    var all := tokens + [t];
    var n := |tokens|;
    assert all[n] == t && forall i :: 0 <= i < n ==> all[i] == tokens[i];
    if SetsKey(h, t, key) {
      if Sets(h, t, key, value) { assert Sets(h, all[n], key, value); }
    } else if LastValue(h, tokens, key, value) {
      var i :| 0 <= i < n && Sets(h, tokens[i], key, value) && forall j :: i < j < n ==> !SetsKey(h, tokens[j], key);
      assert Sets(h, all[i], key, value);
    }
    if LastValue(h, all, key, value) {
      var i :| 0 <= i < |all| && Sets(h, all[i], key, value) && forall j :: i < j < |all| ==> !SetsKey(h, all[j], key);
      if i < n {
        forall j | i < j < n ensures !SetsKey(h, tokens[j], key) { assert !SetsKey(h, all[j], key); }
        assert !SetsKey(h, all[n], key);
        assert Sets(h, tokens[i], key, value);
      } else {
        assert SetsKey(h, all[n], key);
      }
    }
  }

  /** Tokens, parameters and the two values kept apart are those of the key=value tokens. */
  lemma {:induction false} OptionsHold(h: Host, tokens: seq<string>)
    ensures OptionsAre(h, tokens, OptionsOf(h, tokens))
  {
    var o := OptionsOf(h, tokens);
    CertIsParameter(h, tokens);
    if tokens == [] {
      assert forall key, value :: !LastValue(h, tokens, key, value);
    } else {
      var front, t := tokens[..|tokens| - 1], tokens[|tokens| - 1];
      OptionsHold(h, front);
      assert tokens == front + [t];
      AmongAppend(front, t);
      forall key, value
        ensures LastValue(h, tokens, key, value) <==> key in o.parameters && o.parameters[key] == value
      {
        LastValueAppend(h, front, t, key, value);
        OptionIff(h, t, key, value);
      }
      OptionIff(h, t, "", "");
    }
  }

  // ----- What a line says ---------------------------------------------------------------------

  predicate VersionText(s: string) {
    && s != "" && (Letter(s[0]) || Digit(s[0]))
    && forall c :: c in s ==> Letter(c) || Digit(c) || c == '.' || c == '_' || c == '-'
  }

  lemma VersionIff(s: string)
    ensures IsVersion(s) <==> VersionText(s)
  {
    forall i | 0 <= i < |s| ensures IsAlnum(s[i]) <==> Letter(s[i]) || Digit(s[i]) { CharactersAgree(s[i]); }
    if VersionText(s) {
      forall i | 0 <= i < |s| ensures IsAlnum(s[i]) || s[i] == '.' || s[i] == '_' || s[i] == '-' { assert s[i] in s; }
    }
  }

  function ValueOf(o: Options, key: string): string {
    if key in o.parameters then o.parameters[key] else ""
  }

  /** What obfs4 and webtunnel ask of the options. */
  function OptionChecks(h: Host, key: string, o: Options): seq<(bool, Error)> {
    var version := if "version" in o.parameters then o.parameters["version"] else ValueOf(o, "ver");
    if key == "obfs4" then
      [(ValueOf(o, "cert") != "", MissingCert), (ValueOf(o, "iat-mode") in ["", "0", "1", "2"], UnsupportedIatMode)]
    else if key == "webtunnel" then
      [(ValueOf(o, "url") != "", MissingBridgeData), (h.isWebUrl(ValueOf(o, "url")), InvalidWebTunnelUrl),
       (version == "" || VersionText(version), UnsupportedWebTunnelVersion)]
    else []
  }

  lemma OptionFault(h: Host, key: string, o: Options)
    requires o.cert == ValueOf(o, "cert") && o.iatMode == ValueOf(o, "iat-mode")
    ensures OptionError(h, key, o) == FirstFault(OptionChecks(h, key, o))
  {
    var version := if "version" in o.parameters then o.parameters["version"] else ValueOf(o, "ver");
    VersionIff(version);
    if key == "obfs4" {
      TwoChecks(OptionChecks(h, key, o));
    } else if key == "webtunnel" {
      ThreeChecks(OptionChecks(h, key, o));
    }
  }

  /** The token behind the address is the fingerprint unless it holds an equals sign. */
  predicate HasFingerprint(rest: seq<string>) {
    rest != [] && '=' !in rest[0]
  }

  /** The tokens behind address and fingerprint. */
  function Later(rest: seq<string>): seq<string> {
    if HasFingerprint(rest) then rest[1..] else rest
  }

  ghost function AddressChecks(h: Host, key: string, host: string, port: string, rest: seq<string>): seq<(bool, Error)> {
    [(PortOk(h, port), InvalidPort), (HostOk(h, host), InvalidAddress),
     (key == "obfs4" ==> HasFingerprint(rest), InvalidFingerprint),
     (HasFingerprint(rest) ==> FingerprintOk(rest[0]), InvalidFingerprint)]
  }

  ghost predicate IsAddress(clean: string) {
    exists host, port :: AddressOf(clean, host, port)
  }

  /** What an address, whose host and port these are, and the tokens behind it say. */
  ghost function Said(h: Host, key: string, host: string, port: string, rest: seq<string>, o: Options): Result<Facts, Error> {
    match FirstFault(AddressChecks(h, key, host, port, rest) + OptionChecks(h, key, o))
    case Some(e) => Err(e)
    case None => Ok(Facts(host, port, if HasFingerprint(rest) then rest[0] else "", o))
  }

  /** The facts of a line from its address on, or the first thing that is wrong with them. */
  ghost predicate FactsAre(h: Host, transport: string, address: string, rest: seq<string>, r: Result<Facts, Error>) {
    exists clean, key, o :: FactsBy(h, transport, address, rest, r, clean, key, o)
  }

  ghost predicate FactsBy(h: Host, transport: string, address: string, rest: seq<string>, r: Result<Facts, Error>,
                          clean: string, key: string, o: Options) {
    && Trims(address, clean) && KeyIs(h, transport, key) && OptionsAre(h, Later(rest), o)
    && (!IsAddress(clean) ==> r == Err(if LacksPort(clean) then InvalidPort else InvalidAddress))
    && forall host, port :: AddressOf(clean, host, port) ==> r == Said(h, key, host, port, rest, o)
  }

  lemma SplitHolds(clean: string)
    ensures IsAddress(clean) <==> SplitClean(clean).Ok?
    ensures forall host, port :: AddressOf(clean, host, port) <==> SplitClean(clean) == Ok((host, port))
    ensures SplitClean(clean).Err? ==> SplitClean(clean).error == if LacksPort(clean) then InvalidPort else InvalidAddress
  {
    forall host, port ensures AddressOf(clean, host, port) <==> SplitClean(clean) == Ok((host, port)) {
      if clean != "" && clean[0] == '[' { BracketedHolds(clean, host, port); } else { PlainHolds(clean, host, port); }
    }
    if SplitClean(clean).Ok? {
      assert AddressOf(clean, SplitClean(clean).value.0, SplitClean(clean).value.1);
    } else {
      if clean != "" && clean[0] == '[' { BracketedFault(clean); } else { PlainFault(clean); }
    }
  }

  lemma SaidIs(h: Host, transport: string, address: string, rest: seq<string>, host: string, port: string, o: Options)
    requires SplitAddress(address) == Ok((host, port)) && o == OptionsOf(h, Later(rest))
    ensures ParseFacts(h, transport, address, rest) == Said(h, TransportKey(h, transport), host, port, rest, o)
  {
    var key := TransportKey(h, transport);
    CertIsParameter(h, Later(rest));
    OptionFault(h, key, o);
    HostIff(h, host);
    if rest != [] { FingerprintIff(rest[0]); }
    FirstFaultOfSum(AddressChecks(h, key, host, port, rest), OptionChecks(h, key, o));
    FourChecks(AddressChecks(h, key, host, port, rest));
  }

  lemma FactsHold(h: Host, transport: string, address: string, rest: seq<string>)
    ensures FactsAre(h, transport, address, rest, ParseFacts(h, transport, address, rest))
  {
    var clean, o := Trim(address), OptionsOf(h, Later(rest));
    TrimTrims(address);
    KeyHolds(h, transport);
    OptionsHold(h, Later(rest));
    SplitHolds(clean);
    forall host, port | AddressOf(clean, host, port)
      ensures ParseFacts(h, transport, address, rest) == Said(h, TransportKey(h, transport), host, port, rest, o)
    {
      SaidIs(h, transport, address, rest, host, port, o);
    }
    assert FactsBy(h, transport, address, rest, ParseFacts(h, transport, address, rest), clean, TransportKey(h, transport), o);
  }

  // ----- Whole lines --------------------------------------------------------------------------

  /** The profile of a line of which transport, text, stored text, address and rest are known. */
  ghost predicate Answered(h: Host, transport: string, clean: string, stored: string, address: string, rest: seq<string>,
                           r: Result<Profile, Error>) {
    exists f :: FactsAre(h, transport, address, rest, f)
      && r == if f.Ok? then Ok(Profile(transport, clean, stored, address, f.value)) else Err(f.error)
  }

  /** A line that begins with its address has no transport. */
  ghost predicate StartsWithAddress(tokens: seq<string>) {
    tokens != [] && exists t :: Trims(tokens[0], t) && IsAddress(t)
  }

  /** A line that begins with its transport, which is not stored with it if it stands for none. */
  ghost predicate NamedAnswer(h: Host, clean: string, tokens: seq<string>, r: Result<Profile, Error>)
    requires |tokens| >= 2
  {
    exists name, stored ::
      && TransportIs(h, tokens[0], name) && IsStored(h, name, clean, stored)
      && if name == "" then r == Err(InvalidTransport) else Answered(h, name, clean, stored, tokens[1], tokens[2..], r)
  }

  ghost predicate IsStored(h: Host, name: string, clean: string, stored: string) {
    exists key :: KeyIs(h, name, key) && if key == "vanilla" then WithoutFirst(clean, stored) else stored == clean
  }

  ghost predicate TokensMean(h: Host, line: string, clean: string, tokens: seq<string>, r: Result<Profile, Error>) {
    if SeveralLines(line) || clean == "" || clean[0] == '#' || tokens == [] then r == Err(MissingBridgeData)
    else if StartsWithAddress(tokens) then Answered(h, "vanilla", clean, clean, tokens[0], tokens[1..], r)
    else if |tokens| == 1 then r == Err(MissingBridgeData)
    else NamedAnswer(h, clean, tokens, r)
  }

  /** What a line of text means, all of it: its profile, or why it has none. */
  ghost predicate LineMeans(h: Host, line: string, r: Result<Profile, Error>) {
    exists clean, tokens :: Stripped(line, clean) && Cuts(clean, tokens) && TokensMean(h, line, clean, tokens, r)
  }

  lemma StartsIff(tokens: seq<string>)
    requires tokens != []
    ensures StartsWithAddress(tokens) <==> SplitAddress(tokens[0]).Ok?
  {
    TrimTrims(tokens[0]);
    SplitHolds(Trim(tokens[0]));
    forall t ensures Trims(tokens[0], t) <==> t == Trim(tokens[0]) { TrimOnly(tokens[0], t); }
  }

  lemma SecondTokenBehind(clean: string)
    requires clean != "" && !IsBlank(clean[0]) && |Tokens(clean)| >= 2
    ensures Word(clean) != "" && BehindWord(clean) != ""
  {
    assert SkipBlanks(clean) == clean;
  }

  function StoredLine(h: Host, name: string, clean: string): string {
    if TransportKey(h, name) == "vanilla" then LineWithoutFirstToken(clean) else clean
  }

  lemma StoredHolds(h: Host, name: string, clean: string)
    requires clean != "" && !IsBlank(clean[0]) && |Tokens(clean)| >= 2
    ensures IsStored(h, name, clean, StoredLine(h, name, clean))
  {
    KeyHolds(h, name);
    SecondTokenBehind(clean);
    DropDrops(clean);
  }

  lemma NamedTokens(h: Host, clean: string, tokens: seq<string>)
    requires |tokens| >= 2 && SplitAddress(tokens[0]).Err?
    ensures var name := NormalizeTransport(h, tokens[0]);
            var f := ParseFacts(h, name, tokens[1], tokens[2..]);
            ParseTokens(h, clean, tokens)
            == if name == "" then Err(InvalidTransport)
               else if f.Ok? then Ok(Profile(name, clean, StoredLine(h, name, clean), tokens[1], f.value)) else Err(f.error)
  {
  }

  lemma NamedHolds(h: Host, clean: string, tokens: seq<string>)
    requires clean != "" && !IsBlank(clean[0]) && tokens == Tokens(clean) && |tokens| >= 2
    requires SplitAddress(tokens[0]).Err?
    ensures NamedAnswer(h, clean, tokens, ParseTokens(h, clean, tokens))
  {
    var name := NormalizeTransport(h, tokens[0]);
    TransportHolds(h, tokens[0]);
    StoredHolds(h, name, clean);
    NamedTokens(h, clean, tokens);
    FactsHold(h, name, tokens[1], tokens[2..]);
    FactsAnswer(h, name, clean, StoredLine(h, name, clean), tokens[1], tokens[2..], ParseFacts(h, name, tokens[1], tokens[2..]));
  }

  lemma FactsAnswer(h: Host, transport: string, clean: string, stored: string, address: string, rest: seq<string>,
                    f: Result<Facts, Error>)
    requires FactsAre(h, transport, address, rest, f)
    ensures Answered(h, transport, clean, stored, address, rest,
                     if f.Ok? then Ok(Profile(transport, clean, stored, address, f.value)) else Err(f.error))
  {
  }

  lemma StrippedStart(line: string)
    ensures var clean := StripBridgePrefix(line); clean != "" ==> !IsBlank(clean[0])
  {
    var c := Trim(line);
    TrimTrims(line);
    TrimTrims(SkipBlanks(c[if |c| > 6 then 6 else 0..]));
    if StripBridgePrefix(line) != "" { CharactersAgree(StripBridgePrefix(line)[0]); }
  }

  /** The parser gives each line its meaning. */
  lemma LineHolds(h: Host, line: string)
    ensures LineMeans(h, line, Parse(h, line))
  {
    var clean := StripBridgePrefix(line);
    var tokens, r := Tokens(clean), Parse(h, line);
    StripStrips(line);
    TokensCut(clean);
    SeveralLinesIff(line);
    StrippedStart(line);
    if !SeveralLines(line) && clean != "" && clean[0] != '#' && tokens != [] {
      StartsIff(tokens);
      if StartsWithAddress(tokens) {
        FactsHold(h, "vanilla", tokens[0], tokens[1..]);
        FactsAnswer(h, "vanilla", clean, clean, tokens[0], tokens[1..], ParseFacts(h, "vanilla", tokens[0], tokens[1..]));
      } else if |tokens| >= 2 {
        NamedHolds(h, clean, tokens);
      }
    }
    assert TokensMean(h, line, clean, tokens, r);
  }

  // ----- The parser as it runs ------------------------------------------------------------------

  /** parseLine from the address on. */
  method ParseAddressed(h: Host, transport: string, address: string, rest: seq<string>)
    returns (r: Result<Facts, Error>)
    ensures r == ParseFacts(h, transport, address, rest)
    ensures FactsAre(h, transport, address, rest, r)
  {
    FactsHold(h, transport, address, rest);
    var split := SplitAddress(address);
    if split.Err? { return Err(split.error); }
    if !ValidPort(h, split.value.1) { return Err(InvalidPort); }
    if !ValidHost(h, split.value.0) { return Err(InvalidAddress); }
    var key := TransportKey(h, transport);
    var present := rest != [] && '=' !in rest[0];
    if key == "obfs4" && !present { return Err(InvalidFingerprint); }
    if present && !IsFingerprint(rest[0]) { return Err(InvalidFingerprint); }
    var options := ParseOptions(h, if present then rest[1..] else rest);
    var bad := OptionError(h, key, options);
    if bad.Some? { return Err(bad.value); }
    return Ok(Facts(split.value.0, split.value.1, if present then rest[0] else "", options));
  }

  /** The loop that counts lines with text. */
  method CountLines(line: string) returns (count: nat)
    ensures count == TextLines(line)
    ensures count > 1 <==> SeveralLines(line)
  {
    SeveralLinesIff(line);
    count := 0;
    var inputLines := Lines(line);
    for k := 0 to |inputLines|
      invariant count + CountText(inputLines[k..]) == TextLines(line)
    {
      if HasText(inputLines[k]) { count := count + 1; }
      assert inputLines[k..][1..] == inputLines[k + 1..];
    }
  }

  /** parseLine as it runs. */
  method ParseLine(h: Host, line: string) returns (r: Result<Profile, Error>)
    ensures r == Parse(h, line)
    ensures LineMeans(h, line, r)
  {
    LineHolds(h, line);
    var count := CountLines(line);
    if count > 1 { return Err(MissingBridgeData); }
    var clean := StripBridgePrefix(line);
    if clean == "" || clean[0] == '#' { return Err(MissingBridgeData); }
    var shape := ShapeOf(h, clean, Tokens(clean));
    if shape.Err? { return Err(shape.error); }
    var s := shape.value;
    var facts := ParseAddressed(h, s.transport, s.address, s.rest);
    if facts.Err? { return Err(facts.error); }
    return Ok(Profile(s.transport, clean, s.line, s.address, facts.value));
  }
}
