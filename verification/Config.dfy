/** The configuration record, what makes one valid, and how it is loaded. */
module Config {
  import opened Wrappers
  import opened Text
  import opened Address

  datatype Config = Config(
    interface: string,
    pollInterval: string,
    maxHandshakeAge: string,
    downCyclesToKill: int,
    killGrace: string,
    heartbeatInterval: string,
    pingTarget: string,
    verifyEgress: bool,
    expectedCountry: string,
    expectedIP: string,
    probeURL: string,
    countryPattern: string,
    ipPattern: string,
    probeInterval: string,
    probeTimeout: string,
    dnsblZones: seq<string>,
    targets: seq<string>,
    wgConf: string,
    extraAccept: seq<string>,
    socketPath: string,
    logFile: string)

  datatype Uri = Uri(scheme: string, host: string)

  /** The library parsers the daemon calls; nothing is assumed about them but that they are functions. */
  datatype Lib = Lib(
    parseDuration: string -> Option<int>, // nanoseconds
    compile: string -> Option<nat>,       // number of capture groups
    requestUri: string -> Option<Uri>,    // url.ParseRequestURI
    urlParses: string -> bool,            // url.Parse
    v6: V6Parser)

  datatype Durations = Durations(
    poll: int, maxHandshakeAge: int, killGrace: int, heartbeat: int, probeInterval: int, probeTimeout: int)

  datatype ConfigError =
    | BadInterface | NoTargets
    | UntrimmedTarget(target: string) | LongTarget(target: string)
    | ControlTarget(target: string) | DuplicateTarget(target: string)
    | MissingCountry | BadCountry | BadExpectedIP | BadProbeURL
    | BadPattern(key: string) | NoCaptureGroup(key: string)
    | BadZone(zone: string)
    | BadThreshold
    | UnparsableDuration(key: string) | DurationOutOfRange(key: string)

  const DEFAULTS: Config := Config(
    "wg0", "10s", "180s", 2, "3s", "10m", "", true, "", "",
    "https://1.1.1.1/cdn-cgi/trace", "(?m)^loc=([A-Z]{2})", "(?m)^ip=([0-9a-fA-F.:]+)", "300s", "5s",
    ["zen.spamhaus.org", "b.barracudacentral.org", "bl.spamcop.net"], [],
    "/etc/wireguard/wg0.conf", [], "/run/reptile/agent.sock", "/var/lib/reptile/events.log")

  // ----- durations -------------------------------------------------------------

  function ParseDurations(lib: Lib, c: Config): Result<Durations, ConfigError> {
    match lib.parseDuration(c.pollInterval)
    case None => Failure(UnparsableDuration("poll_interval"))
    case Some(poll) =>
      match lib.parseDuration(c.maxHandshakeAge)
      case None => Failure(UnparsableDuration("max_handshake_age"))
      case Some(age) =>
        match lib.parseDuration(c.killGrace)
        case None => Failure(UnparsableDuration("kill_grace"))
        case Some(grace) =>
          match lib.parseDuration(c.probeInterval)
          case None => Failure(UnparsableDuration("probe_interval"))
          case Some(interval) =>
            match lib.parseDuration(c.probeTimeout)
            case None => Failure(UnparsableDuration("probe_timeout"))
            case Some(timeout) =>
              match lib.parseDuration(c.heartbeatInterval)
              case None => Failure(UnparsableDuration("heartbeat_interval"))
              case Some(heartbeat) => Success(Durations(poll, age, grace, heartbeat, interval, timeout))
  }

  const DURATION_KEYS: seq<string> :=
    ["poll_interval", "max_handshake_age", "kill_grace", "probe_interval", "probe_timeout", "heartbeat_interval"]

  function DurationTexts(c: Config): seq<string> {
    [c.pollInterval, c.maxHandshakeAge, c.killGrace, c.probeInterval, c.probeTimeout, c.heartbeatInterval]
  }

  /** Durations: each from its own key; where one does not parse, the first that does not is named. */
  lemma DurationsMeaning(lib: Lib, c: Config)
    ensures match ParseDurations(lib, c)
            case Success(d) =>
              && lib.parseDuration(c.pollInterval) == Some(d.poll)
              && lib.parseDuration(c.maxHandshakeAge) == Some(d.maxHandshakeAge)
              && lib.parseDuration(c.killGrace) == Some(d.killGrace)
              && lib.parseDuration(c.probeInterval) == Some(d.probeInterval)
              && lib.parseDuration(c.probeTimeout) == Some(d.probeTimeout)
              && lib.parseDuration(c.heartbeatInterval) == Some(d.heartbeat)
            case Failure(e) =>
              exists i | 0 <= i < 6 ::
                && e == UnparsableDuration(DURATION_KEYS[i])
                && lib.parseDuration(DurationTexts(c)[i]).None?
                && forall j | 0 <= j < i :: lib.parseDuration(DurationTexts(c)[j]).Some?
  {
    var r := ParseDurations(lib, c);
    if r.Failure? {
      var i := if lib.parseDuration(c.pollInterval).None? then 0
               else if lib.parseDuration(c.maxHandshakeAge).None? then 1
               else if lib.parseDuration(c.killGrace).None? then 2
               else if lib.parseDuration(c.probeInterval).None? then 3
               else if lib.parseDuration(c.probeTimeout).None? then 4
               else 5;
      assert r.error == UnparsableDuration(DURATION_KEYS[i]) && lib.parseDuration(DurationTexts(c)[i]).None?;
    }
  }

  // ----- validity --------------------------------------------------------------

  predicate ValidInterface(s: string) {
    1 <= |s| <= 15 && forall ch <- s :: 'A' <= ch <= 'Z' || 'a' <= ch <= 'z' || IsDigit(ch) || ch in "_.-"
  }

  predicate HasControl(s: string) {
    exists ch <- s :: ch < ' ' || ch == '\U{007F}'
  }

  predicate ValidTarget(t: string) {
    t != "" && t == TrimSpace(t) && ByteLen(t) <= 15 && !HasControl(t)
  }

  predicate Distinct(s: seq<string>) {
    forall i, j | 0 <= i < j < |s| :: s[i] != s[j]
  }

  predicate ValidTargets(targets: seq<string>) {
    targets != [] && (forall t <- targets :: ValidTarget(t)) && Distinct(targets)
  }

  predicate ValidCountry(s: string) {
    |s| == 2 && forall ch <- s :: 'A' <= ch <= 'Z'
  }

  predicate ValidZone(z: string) {
    z != "" && z == TrimSpace(z) && forall ch <- z :: ch !in " \t\r\n"
  }

  predicate ValidURL(lib: Lib, url: string) {
    var u := lib.requestUri(url);
    u.Some? && u.value.scheme == "https" && u.value.host != ""
  }

  predicate ValidPattern(lib: Lib, p: string) {
    lib.compile(p).Some? && lib.compile(p).value >= 1
  }

  predicate InRange(d: Durations) {
    d.poll > 0 && d.maxHandshakeAge > 0 && d.killGrace >= 0 && d.heartbeat >= 0 && d.probeInterval >= 0 && d.probeTimeout > 0
  }

  /** What a configuration must satisfy, stated key by key. */
  predicate Valid(lib: Lib, c: Config) {
    && ValidInterface(c.interface)
    && ValidTargets(c.targets)
    && (c.verifyEgress ==> ValidCountry(c.expectedCountry))
    && (c.expectedIP == "" || ParseIP(lib.v6, c.expectedIP).Some?)
    && ValidURL(lib, c.probeURL)
    && ValidPattern(lib, c.countryPattern) && ValidPattern(lib, c.ipPattern)
    && (forall z <- c.dnsblZones :: ValidZone(z))
    && c.downCyclesToKill >= 1
    && ParseDurations(lib, c).Success? && InRange(ParseDurations(lib, c).value)
  }

  function DurationNamed(d: Durations, key: string): int {
    if key == "poll_interval" then d.poll
    else if key == "max_handshake_age" then d.maxHandshakeAge
    else if key == "kill_grace" then d.killGrace
    else if key == "heartbeat_interval" then d.heartbeat
    else if key == "probe_interval" then d.probeInterval
    else d.probeTimeout
  }

  /** What an error says about the configuration it was returned for. */
  predicate Blames(lib: Lib, c: Config, e: ConfigError) {
    match e
    case BadInterface => !ValidInterface(c.interface)
    case NoTargets => c.targets == []
    case UntrimmedTarget(t) => t in c.targets && (t == "" || t != TrimSpace(t))
    case LongTarget(t) => t in c.targets && ByteLen(t) > 15
    case ControlTarget(t) => t in c.targets && HasControl(t)
    case DuplicateTarget(t) => exists i, j | 0 <= i < j < |c.targets| :: c.targets[i] == t && c.targets[j] == t
    case MissingCountry => c.verifyEgress && Blank(c.expectedCountry)
    case BadCountry => c.verifyEgress && !Blank(c.expectedCountry) && !ValidCountry(c.expectedCountry)
    case BadExpectedIP => c.expectedIP != "" && ParseIP(lib.v6, c.expectedIP).None?
    case BadProbeURL => !ValidURL(lib, c.probeURL)
    case BadPattern(key) => lib.compile(if key == "country_pattern" then c.countryPattern else c.ipPattern).None?
    case NoCaptureGroup(key) => lib.compile(if key == "country_pattern" then c.countryPattern else c.ipPattern) == Some(0)
    case BadZone(z) => z in c.dnsblZones && !ValidZone(z)
    case BadThreshold => c.downCyclesToKill < 1
    case UnparsableDuration(key) => ParseDurations(lib, c) == Failure(e)
    case DurationOutOfRange(key) =>
      var d := ParseDurations(lib, c);
      d.Success? && (DurationNamed(d.value, key) < 0
        || (key in ["poll_interval", "max_handshake_age", "probe_timeout"] && DurationNamed(d.value, key) == 0))
  }

  /** Which of the checks an error comes from; they are made in this order. */
  function Stage(e: ConfigError): nat {
    match e
    case BadInterface => 0
    case NoTargets | UntrimmedTarget(_) | LongTarget(_) | ControlTarget(_) | DuplicateTarget(_) => 1
    case MissingCountry | BadCountry => 2
    case BadExpectedIP => 3
    case BadProbeURL => 4
    case BadPattern(_) | NoCaptureGroup(_) => 5
    case BadZone(_) => 6
    case BadThreshold => 7
    case UnparsableDuration(_) => 8
    case DurationOutOfRange(_) => 9
  }

  /** The configuration passes the first n checks. */
  predicate PassesChecks(lib: Lib, c: Config, n: nat) {
    && (n > 0 ==> ValidInterface(c.interface))
    && (n > 1 ==> ValidTargets(c.targets))
    && (n > 2 ==> c.verifyEgress ==> ValidCountry(c.expectedCountry))
    && (n > 3 ==> c.expectedIP == "" || ParseIP(lib.v6, c.expectedIP).Some?)
    && (n > 4 ==> ValidURL(lib, c.probeURL))
    && (n > 5 ==> ValidPattern(lib, c.countryPattern) && ValidPattern(lib, c.ipPattern))
    && (n > 6 ==> forall z <- c.dnsblZones :: ValidZone(z))
    && (n > 7 ==> c.downCyclesToKill >= 1)
    && (n > 8 ==> ParseDurations(lib, c).Success?)
  }

  /** A text without blanks at its ends. */
  predicate Bare(s: string) {
    s != "" && !IsSpace(s[0]) && !IsSpace(s[|s| - 1])
  }

  lemma BareMeaning(s: string)
    ensures s != "" && s == TrimSpace(s) <==> Bare(s)
  {
    var i, j := TrimSpaceSplits(s);
    if Bare(s) {
      TrimTrimmed(s);
    }
  }

  lemma {:induction false} DistinctMeaning(s: seq<string>)
    ensures Distinct(s) <==> forall t <- s :: multiset(s)[t] == 1
  {
    if s != [] {
      var init, last := s[..|s| - 1], s[|s| - 1];
      DistinctMeaning(init);
      assert s == init + [last];
      if Distinct(s) {
        assert last !in init;
      } else if Distinct(init) {
        assert last in init;
        assert multiset(s)[last] >= 2;
      } else {
        var t :| t in init && multiset(init)[t] != 1;
        assert t in s && multiset(s)[t] >= 2;
      }
    }
  }

  /** The text of a duration of at least that many nanoseconds. */
  predicate DurationIn(lib: Lib, text: string, least: int) {
    lib.parseDuration(text).Some? && lib.parseDuration(text).value >= least
  }

  /** Validity, spelled out on the texts of the configuration. */
  lemma ValidMeaning(lib: Lib, c: Config)
    ensures Valid(lib, c) <==>
              && NameMeaning(c.interface) && TargetsMeaning(c.targets)
              && (c.verifyEgress ==> |c.expectedCountry| == 2 && forall ch <- c.expectedCountry :: 'A' <= ch <= 'Z')
              && (c.expectedIP != "" ==> ParseIP(lib.v6, c.expectedIP).Some?)
              && (exists host :: host != "" && lib.requestUri(c.probeURL) == Some(Uri("https", host)))
              && (exists n: nat :: n > 0 && lib.compile(c.countryPattern) == Some(n))
              && (exists n: nat :: n > 0 && lib.compile(c.ipPattern) == Some(n))
              && (forall z <- c.dnsblZones :: Bare(z) && ' ' !in z && '\t' !in z && '\r' !in z && '\n' !in z)
              && c.downCyclesToKill > 0
              && DurationIn(lib, c.pollInterval, 1) && DurationIn(lib, c.maxHandshakeAge, 1)
              && DurationIn(lib, c.killGrace, 0) && DurationIn(lib, c.heartbeatInterval, 0)
              && DurationIn(lib, c.probeInterval, 0) && DurationIn(lib, c.probeTimeout, 1)
  {
    TargetsRead(c.targets);
    UrlRead(lib, c.probeURL);
    PatternRead(lib, c.countryPattern);
    PatternRead(lib, c.ipPattern);
    DurationsRead(lib, c);
    forall z ensures ValidZone(z) <==> Bare(z) && ' ' !in z && '\t' !in z && '\r' !in z && '\n' !in z {
      BareMeaning(z);
    }
  }

  lemma UrlRead(lib: Lib, url: string)
    ensures ValidURL(lib, url) <==> exists host :: host != "" && lib.requestUri(url) == Some(Uri("https", host))
  {
    var u := lib.requestUri(url);
    assert u.Some? ==> u == Some(Uri(u.value.scheme, u.value.host));
  }

  lemma PatternRead(lib: Lib, p: string)
    ensures ValidPattern(lib, p) <==> exists n: nat :: n > 0 && lib.compile(p) == Some(n)
  {
  }

  lemma DurationsRead(lib: Lib, c: Config)
    ensures ParseDurations(lib, c).Success? && InRange(ParseDurations(lib, c).value)
            <==> && DurationIn(lib, c.pollInterval, 1) && DurationIn(lib, c.maxHandshakeAge, 1)
                 && DurationIn(lib, c.killGrace, 0) && DurationIn(lib, c.heartbeatInterval, 0)
                 && DurationIn(lib, c.probeInterval, 0) && DurationIn(lib, c.probeTimeout, 1)
  {
  }

  predicate NameMeaning(s: string) {
    && |s| > 0 && |s| < 16
    && forall ch <- s :: 'a' <= ch <= 'z' || 'A' <= ch <= 'Z' || '0' <= ch <= '9' || ch == '_' || ch == '.' || ch == '-'
  }

  /** At least one name, none twice, each of at most 15 bytes, without outer blanks and control characters. */
  predicate TargetsMeaning(targets: seq<string>) {
    && |targets| > 0 && (forall t <- targets :: multiset(targets)[t] == 1)
    && forall t <- targets :: Bare(t) && ByteLen(t) < 16 && forall ch <- t :: ch >= '\U{0020}' && ch != '\U{007F}'
  }

  lemma TargetsRead(targets: seq<string>)
    ensures ValidTargets(targets) <==> TargetsMeaning(targets)
  {
    DistinctMeaning(targets);
    forall t ensures t != "" && t == TrimSpace(t) <==> Bare(t) {
      BareMeaning(t);
    }
  }

  method ValidateTargets(targets: seq<string>) returns (err: Option<ConfigError>)
    ensures err.None? <==> ValidTargets(targets)
    ensures forall lib: Lib, c: Config | err.Some? && c.targets == targets :: Blames(lib, c, err.value)
    ensures err.Some? ==> Stage(err.value) == 1
  {
    if targets == [] {
      return Some(NoTargets);
    }
    var seen: set<string> := {};
    for i := 0 to |targets|
      invariant seen == set t | t in targets[..i]
      invariant forall t <- targets[..i] :: ValidTarget(t)
      invariant Distinct(targets[..i])
    {
      var target := targets[i];
      assert target in targets;
      if target == "" || target != TrimSpace(target) {
        return Some(UntrimmedTarget(target));
      }
      if ByteLen(target) > 15 {
        return Some(LongTarget(target));
      }
      if HasControl(target) {
        return Some(ControlTarget(target));
      }
      if target in seen {
        var k :| 0 <= k < i && targets[..i][k] == target;
        assert targets[k] == target && targets[i] == target;
        return Some(DuplicateTarget(target));
      }
      seen := seen + {target};
      assert targets[..i + 1] == targets[..i] + [target];
    }
    assert targets[..|targets|] == targets;
    return None;
  }

  lemma BlankTrims(s: string)
    ensures TrimSpace(s) == "" <==> Blank(s)
    ensures Blank(s) ==> !ValidCountry(s)
  {
    var i, j := TrimSpaceSplits(s);
    assert s == s[..i] + s[i..j] + s[j..];
    assert s != "" ==> s[0] in s;
  }

  /** Config.Validate: silent exactly on the valid configurations, and otherwise right about the key it names. */
  method Validate(lib: Lib, c: Config) returns (err: Option<ConfigError>)
    ensures err.None? <==> Valid(lib, c)
    ensures err.Some? ==> Blames(lib, c, err.value) && PassesChecks(lib, c, Stage(err.value))
  {
    if !ValidInterface(c.interface) {
      return Some(BadInterface);
    }
    err := ValidateTargets(c.targets);
    if err.Some? {
      return;
    }
    err := ValidateCountry(lib, c);
    if err.Some? {
      return;
    }
    if c.expectedIP != "" && ParseIP(lib.v6, c.expectedIP).None? {
      return Some(BadExpectedIP);
    }
    var url := lib.requestUri(c.probeURL);
    if url.None? || url.value.scheme != "https" || url.value.host == "" {
      return Some(BadProbeURL);
    }
    err := ValidatePatterns(lib, c);
    if err.Some? {
      return;
    }
    err := ValidateZones(c.dnsblZones);
    if err.Some? {
      return;
    }
    if c.downCyclesToKill < 1 {
      return Some(BadThreshold);
    }
    err := ValidateDurations(lib, c);
  }

  method ValidateCountry(lib: Lib, c: Config) returns (err: Option<ConfigError>)
    ensures err.None? <==> (c.verifyEgress ==> ValidCountry(c.expectedCountry))
    ensures err.Some? ==> Blames(lib, c, err.value) && Stage(err.value) == 2
  {
    if c.verifyEgress {
      BlankTrims(c.expectedCountry);
      if TrimSpace(c.expectedCountry) == "" {
        return Some(MissingCountry);
      }
      if !ValidCountry(c.expectedCountry) {
        return Some(BadCountry);
      }
    }
    return None;
  }

  method ValidateDurations(lib: Lib, c: Config) returns (err: Option<ConfigError>)
    ensures err.None? <==> ParseDurations(lib, c).Success? && InRange(ParseDurations(lib, c).value)
    ensures err.Some? ==> Blames(lib, c, err.value) && Stage(err.value) == if ParseDurations(lib, c).Success? then 9 else 8
  {
    var d := ParseDurations(lib, c);
    if d.Failure? {
      return Some(d.error);
    }
    err := CheckRanges(d.value);
  }

  method ValidatePatterns(lib: Lib, c: Config) returns (err: Option<ConfigError>)
    ensures err.None? <==> ValidPattern(lib, c.countryPattern) && ValidPattern(lib, c.ipPattern)
    ensures err.Some? ==> Blames(lib, c, err.value) && Stage(err.value) == 5
  {
    err := CheckPatterns(lib, [("country_pattern", c.countryPattern), ("ip_pattern", c.ipPattern)]);
  }

  method CheckPatterns(lib: Lib, items: seq<(string, string)>) returns (err: Option<ConfigError>)
    ensures err.None? <==> forall it <- items :: ValidPattern(lib, it.1)
    ensures err.Some? ==> exists it <- items ::
              || (err.value == BadPattern(it.0) && lib.compile(it.1).None?)
              || (err.value == NoCaptureGroup(it.0) && lib.compile(it.1) == Some(0))
  {
    for i := 0 to |items|
      invariant forall j | 0 <= j < i :: ValidPattern(lib, items[j].1)
    {
      var groups := lib.compile(items[i].1);
      if groups.None? {
        return Some(BadPattern(items[i].0));
      }
      if groups.value < 1 {
        return Some(NoCaptureGroup(items[i].0));
      }
    }
    return None;
  }

  method ValidateZones(zones: seq<string>) returns (err: Option<ConfigError>)
    ensures err.None? <==> forall z <- zones :: ValidZone(z)
    ensures err.Some? ==> err.value.BadZone? && err.value.zone in zones && !ValidZone(err.value.zone)
  {
    for i := 0 to |zones|
      invariant forall z <- zones[..i] :: ValidZone(z)
    {
      if !ValidZone(zones[i]) {
        return Some(BadZone(zones[i]));
      }
      assert zones[..i + 1] == zones[..i] + [zones[i]];
    }
    assert zones[..|zones|] == zones;
    return None;
  }

  method CheckRanges(d: Durations) returns (err: Option<ConfigError>)
    ensures err.None? <==> InRange(d)
    ensures err.Some? ==>
              && err.value.DurationOutOfRange?
              && (DurationNamed(d, err.value.key) < 0
                  || (err.value.key in ["poll_interval", "max_handshake_age", "probe_timeout"]
                      && DurationNamed(d, err.value.key) == 0))
  {
    if d.poll <= 0 { return Some(DurationOutOfRange("poll_interval")); }
    if d.maxHandshakeAge <= 0 { return Some(DurationOutOfRange("max_handshake_age")); }
    if d.killGrace < 0 { return Some(DurationOutOfRange("kill_grace")); }
    if d.heartbeat < 0 { return Some(DurationOutOfRange("heartbeat_interval")); }
    if d.probeInterval < 0 { return Some(DurationOutOfRange("probe_interval")); }
    if d.probeTimeout <= 0 { return Some(DurationOutOfRange("probe_timeout")); }
    return None;
  }

  // ----- loading -----------------------------------------------------------------

  /** What reading the file and decoding it over the defaults can come to; decoding itself is the library's. */
  datatype ConfigFile = Missing | Unreadable | Malformed | Json(config: Config)

  datatype LoadError = NotExist | IOError | ParseError

  function Normalised(c: Config): Config {
    c.(expectedCountry := Country(c.expectedCountry), expectedIP := TrimSpace(c.expectedIP))
  }

  function LoadConfig(file: ConfigFile): Result<Config, LoadError> {
    match file
    case Missing => Failure(NotExist)
    case Unreadable => Failure(IOError)
    case Malformed => Failure(ParseError)
    case Json(c) => Success(Normalised(c))
  }

  /** What loading makes of each kind of file: country and address are normalised, everything else is taken as it stands. */
  lemma LoadMeaning(c: Config)
    ensures LoadConfig(Missing) == Failure(NotExist) && LoadConfig(Unreadable) == Failure(IOError)
    ensures LoadConfig(Malformed) == Failure(ParseError) && LoadConfig(Json(c)).Success?
    ensures var l := LoadConfig(Json(c)).value;
            && l.expectedCountry == ToUpper(TrimSpace(c.expectedCountry)) && l.expectedIP == TrimSpace(c.expectedIP)
            && l.(expectedCountry := c.expectedCountry, expectedIP := c.expectedIP) == c
  {
  }

  /** A loaded configuration is a fixed point of loading: writing it back and loading it again changes nothing. */
  lemma LoadStable(file: ConfigFile)
    requires LoadConfig(file).Success?
    ensures LoadConfig(Json(LoadConfig(file).value)) == LoadConfig(file)
  {
    CountryIdempotent(file.config.expectedCountry);
    TrimIdempotent(file.config.expectedIP);
  }
}
