/** `parseLine` and `generateTorrc`: bridge lines in, torrc text out. */
module BridgeLine {
  import opened Wrappers
  import opened BridgeText
  import opened Text

  /** What the parser asks of Qt: case mapping, numbers, IPv6 and URL syntax; and which executable
      serves a transport.  All of them depend on their argument only. */
  datatype Host = Host(lower: string -> string, toInt: string -> Option<int>, isIpv6: string -> bool,
                       isWebUrl: string -> bool, executable: string -> Result<string, string>)

  /** What is assumed of them: ASCII letters map as usual, and paths and messages take one line. */
  ghost predicate Sane(h: Host) {
    && (forall s :: (forall i :: 0 <= i < |s| ==> s[i] as int < 128) ==> h.lower(s) == Lower(s))
    && (forall s :: match h.executable(s) case Ok(path) => '\n' !in path case Err(text) => '\n' !in text)
  }

  datatype Error =
    | MissingBridgeData | InvalidTransport | InvalidPort | InvalidAddress | InvalidFingerprint
    | MissingCert | UnsupportedIatMode | InvalidWebTunnelUrl | UnsupportedWebTunnelVersion | MissingPlugin

  /** The key=value options of a line. */
  datatype Options = Options(tokens: seq<string>, parameters: map<string, string>, cert: string, iatMode: string)

  /** What a line says about its bridge. */
  datatype Facts = Facts(host: string, port: string, fingerprint: string, options: Options)

  datatype Profile = Profile(transport: string, inputLine: string, line: string, address: string, facts: Facts)

  // ----- Transports ---------------------------------------------------------------------------

  function Canonical(clean: string): string {
    if clean == "meek_lite" || clean == "meeklite" then "meek-lite"
    else if clean == "plain" then "vanilla"
    else clean
  }

  function TransportKey(h: Host, transport: string): string {
    Canonical(h.lower(Trim(transport)))
  }

  const KNOWN := {"obfs4", "webtunnel", "snowflake", "meek", "meek-lite", "vanilla", "custom"}
  const PLUGINS := {"obfs4", "webtunnel", "snowflake", "meek", "meek-lite"}

  predicate IsLetter(c: char) { 'a' <= c <= 'z' || 'A' <= c <= 'Z' }
  predicate IsAlnum(c: char) { IsLetter(c) || IsDigit(c) }

  predicate IsTransportToken(t: string) {
    && 1 <= |t| <= 64 && IsLetter(t[0])
    && forall i :: 0 <= i < |t| ==> IsAlnum(t[i]) || t[i] == '_' || t[i] == '-'
  }

  /** normalizeTransport; the empty string stands for a refusal. */
  function NormalizeTransport(h: Host, transport: string): string {
    var clean := Trim(transport);
    var key := TransportKey(h, clean);
    if key in KNOWN then key else if IsTransportToken(clean) then clean else ""
  }

  // ----- Addresses ----------------------------------------------------------------------------

  function IndexOf(s: string, c: char): (i: int)
    ensures -1 <= i < |s| && (i >= 0 ==> s[i] == c)
    ensures forall k :: 0 <= k < (if i < 0 then |s| else i) ==> s[k] != c
  {
    if s == [] then -1
    else if s[0] == c then 0
    else var i := IndexOf(s[1..], c); if i < 0 then -1 else i + 1
  }

  function LastIndexOf(s: string, c: char): (i: int)
    ensures -1 <= i < |s| && (i >= 0 ==> s[i] == c)
    ensures forall k :: i < k < |s| ==> s[k] != c
  {
    if s == [] then -1
    else if s[|s| - 1] == c then |s| - 1
    else LastIndexOf(s[..|s| - 1], c)
  }

  function SplitClean(clean: string): Result<(string, string), Error> {
    if clean == [] then Err(InvalidAddress)
    else if clean[0] == '[' then
      var close := IndexOf(clean, ']');
      if close <= 1 || close + 1 >= |clean| || clean[close + 1] != ':' then Err(InvalidAddress)
      else if clean[close + 2..] == [] then Err(InvalidPort)
      else Ok((clean[1..close], clean[close + 2..]))
    else
      var colon := LastIndexOf(clean, ':');
      if colon <= 0 then Err(InvalidAddress)
      else if colon >= |clean| - 1 then Err(InvalidPort)
      else if ':' in clean[..colon] then Err(InvalidAddress)
      else Ok((clean[..colon], clean[colon + 1..]))
  }

  /** Host and port of an address token. */
  function SplitAddress(address: string): Result<(string, string), Error> {
    SplitClean(Trim(address))
  }

  predicate ValidPort(h: Host, port: string) {
    match h.toInt(port)
    case Some(n) => 1 <= n <= 65535
    case None => false
  }

  predicate IsOctets(s: string) {
    var parts := Split(s, '.');
    |parts| == 4 && forall i :: 0 <= i < 4 ==> 1 <= |parts[i]| <= 3 && AllDigits(parts[i])
  }

  predicate OctetsInRange(s: string)
    requires IsOctets(s)
  {
    var parts := Split(s, '.');
    forall i :: 0 <= i < 4 ==> Numeral(parts[i]) <= 255
  }

  predicate IsLabel(s: string) {
    && 1 <= |s| <= 63 && IsAlnum(s[0]) && IsAlnum(s[|s| - 1])
    && forall i :: 0 <= i < |s| ==> IsAlnum(s[i]) || s[i] == '-'
  }

  predicate IsHostname(s: string) {
    var parts := Split(s, '.');
    forall i :: 0 <= i < |parts| ==> IsLabel(parts[i])
  }

  predicate IsIpv6Char(c: char) {
    IsDigit(c) || 'a' <= c <= 'f' || 'A' <= c <= 'F' || c == ':' || c == '.'
  }

  predicate ValidHost(h: Host, host: string) {
    var clean := Trim(host);
    if clean == [] then false
    else if IsOctets(clean) then OctetsInRange(clean)
    else if ':' in clean then (forall i :: 0 <= i < |clean| ==> IsIpv6Char(clean[i])) && h.isIpv6(clean)
    else IsHostname(clean)
  }

  predicate IsHexDigit(c: char) {
    IsDigit(c) || 'a' <= c <= 'f' || 'A' <= c <= 'F'
  }

  predicate IsFingerprint(s: string) {
    |s| == 40 && forall i :: 0 <= i < 40 ==> IsHexDigit(s[i])
  }

  // ----- Options ------------------------------------------------------------------------------

  const NO_OPTIONS := Options([], map[], "", "")

  function WithOption(h: Host, o: Options, token: string): Options {
    var eq := IndexOf(token, '=');
    if eq <= 0 then o
    else
      var key, value := h.lower(token[..eq]), token[eq + 1..];
      Options(o.tokens + [token], o.parameters[key := value],
              if key == "cert" then value else o.cert, if key == "iat-mode" then value else o.iatMode)
  }

  function OptionsOf(h: Host, tokens: seq<string>): Options {
    if tokens == [] then NO_OPTIONS
    else WithOption(h, OptionsOf(h, tokens[..|tokens| - 1]), tokens[|tokens| - 1])
  }

  /** The option loop of parseLine. */
  method ParseOptions(h: Host, tokens: seq<string>) returns (o: Options)
    ensures o == OptionsOf(h, tokens)
  {
    o := NO_OPTIONS;
    for i := 0 to |tokens|
      invariant o == OptionsOf(h, tokens[..i])
    {
      assert tokens[..i + 1][..i] == tokens[..i];
      o := WithOption(h, o, tokens[i]);
    }
    assert tokens[..|tokens|] == tokens;
  }

  function Parameter(o: Options, key: string): string {
    if key in o.parameters then o.parameters[key] else ""
  }

  /** The two values kept apart are those of the parameter table: of repeated keys the last counts. */
  lemma {:induction false} CertIsParameter(h: Host, tokens: seq<string>)
    ensures var o := OptionsOf(h, tokens);
            o.cert == Parameter(o, "cert") && o.iatMode == Parameter(o, "iat-mode")
  {
    if tokens != [] { CertIsParameter(h, tokens[..|tokens| - 1]); }
  }

  predicate IsVersion(s: string) {
    && s != [] && IsAlnum(s[0])
    && forall i :: 0 <= i < |s| ==> IsAlnum(s[i]) || s[i] == '.' || s[i] == '_' || s[i] == '-'
  }

  function OptionError(h: Host, key: string, o: Options): Option<Error> {
    if key == "obfs4" then
      if o.cert == "" then Some(MissingCert)
      else if o.iatMode !in {"", "0", "1", "2"} then Some(UnsupportedIatMode)
      else None
    else if key == "webtunnel" then
      var version := if "version" in o.parameters then o.parameters["version"] else Parameter(o, "ver");
      if Parameter(o, "url") == "" then Some(MissingBridgeData)
      else if !h.isWebUrl(Parameter(o, "url")) then Some(InvalidWebTunnelUrl)
      else if version != "" && !IsVersion(version) then Some(UnsupportedWebTunnelVersion)
      else None
    else None
  }

  // ----- Lines --------------------------------------------------------------------------------

  predicate IsBridgeWord(s: string) {
    Lower(s) == "bridge"
  }

  /** `^Bridge\s+`, in any case. */
  predicate StartsWithBridge(s: string) {
    |s| > 6 && IsBridgeWord(s[..6]) && IsBlank(s[6])
  }

  function StripBridgePrefix(line: string): string {
    var clean := Trim(line);
    if StartsWithBridge(clean) then Trim(SkipBlanks(clean[6..])) else clean
  }

  function LineWithoutFirstToken(line: string): string {
    if Word(line) != [] && BehindWord(line) != [] then Trim(SkipBlanks(BehindWord(line))) else Trim(line)
  }

  /** Everything behind the transport: address token, then the remaining tokens. */
  function ParseFacts(h: Host, transport: string, address: string, rest: seq<string>): Result<Facts, Error> {
    var split := SplitAddress(address);
    if split.Err? then Err(split.error)
    else if !ValidPort(h, split.value.1) then Err(InvalidPort)
    else if !ValidHost(h, split.value.0) then Err(InvalidAddress)
    else
      var key := TransportKey(h, transport);
      var present := rest != [] && '=' !in rest[0];
      if (key == "obfs4" && !present) || (present && !IsFingerprint(rest[0])) then Err(InvalidFingerprint)
      else
        var options := OptionsOf(h, if present then rest[1..] else rest);
        var bad := OptionError(h, key, options);
        if bad.Some? then Err(bad.value)
        else Ok(Facts(split.value.0, split.value.1, if present then rest[0] else "", options))
  }

  /** How the tokens of a line are read: with or without a transport in front. */
  datatype Shape = Shape(transport: string, line: string, address: string, rest: seq<string>)

  function ShapeFrom(h: Host, isAddress: bool, transport: string, clean: string, parts: seq<string>)
    : Result<Shape, Error>
    requires parts != []
  {
    if isAddress then Ok(Shape("vanilla", clean, parts[0], parts[1..]))
    else if |parts| < 2 then Err(MissingBridgeData)
    else if transport == "" then Err(InvalidTransport)
    else
      var line := if TransportKey(h, transport) == "vanilla" then LineWithoutFirstToken(clean) else clean;
      Ok(Shape(transport, line, parts[1], parts[2..]))
  }

  function ShapeOf(h: Host, clean: string, parts: seq<string>): Result<Shape, Error> {
    if parts == [] then Err(MissingBridgeData)
    else ShapeFrom(h, SplitAddress(parts[0]).Ok?, NormalizeTransport(h, parts[0]), clean, parts)
  }

  function ParseTokens(h: Host, clean: string, parts: seq<string>): Result<Profile, Error> {
    var s := ShapeOf(h, clean, parts);
    if s.Err? then Err(s.error)
    else
      var f := ParseFacts(h, s.value.transport, s.value.address, s.value.rest);
      if f.Err? then Err(f.error)
      else Ok(Profile(s.value.transport, clean, s.value.line, s.value.address, f.value))
  }

  /** parseLine. */
  function Parse(h: Host, line: string): Result<Profile, Error> {
    var clean := StripBridgePrefix(line);
    if TextLines(line) > 1 || clean == "" || clean[0] == '#' then Err(MissingBridgeData)
    else ParseTokens(h, clean, Tokens(clean))
  }
}
