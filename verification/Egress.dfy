/** The egress proof: what one probe decides, and the cache that keeps its verdict for a while. */
module Egress {
  import opened Wrappers
  import opened Text
  import opened Address
  import opened Config
  import opened Agent

  // ----- settings and the outside world ------------------------------------------

  datatype ProbeSpec = ProbeSpec(
    iface: string, url: string, countryPattern: string, ipPattern: string, timeout: int, ttl: int,
    expectedCountry: string, expectedIP: string)

  /** Everything Apply takes from a configuration. */
  datatype Settings = Settings(spec: ProbeSpec, zones: seq<string>)

  /** An HTTP client is bound to an interface and a timeout when it is first needed. */
  datatype Dialer = Dialer(iface: string, timeout: int)

  /** What a probe request comes to; `body` is what the length-limited read yields, None if the read failed. */
  datatype HttpAnswer = CannotBuild | NoResponse | Response(code: int, body: Option<string>)

  /** Every answer of the outside world at one moment. */
  datatype World = World(
    http: (Dialer, string) -> HttpAnswer,
    submatch: (string, string) -> Option<string>, // first capture of a pattern in a text
    lookup: string -> Option<seq<string>>,        // A records of a host; None is a failed query
    v6: V6Parser)

  datatype Observation = Observation(country: string, ip: string)

  // ----- DNSBL ------------------------------------------------------------------

  /** An A record in 127.0.0.0/8 outside 127.255.255.0/24. */
  predicate ListedAnswer(v6: V6Parser, answer: string) {
    match ParseIP(v6, TrimSpace(answer))
    case Some(V4(q)) => q.a == 127 && !(q.b == 255 && q.c == 255)
    case _ => false
  }

  predicate ZoneLists(w: World, reversed: string, zone: string) {
    var answers := w.lookup(reversed + "." + zone);
    answers.Some? && exists a <- answers.value :: ListedAnswer(w.v6, a)
  }

  /** The first zone whose successful lookup holds a listed answer; none for an address that is not IPv4. */
  function FirstListing(w: World, zones: seq<string>, ip: string): Option<string> {
    match ReverseIPv4(w.v6, ip)
    case None => None
    case Some(reversed) => FirstZone(w, zones, reversed)
  }

  function FirstZone(w: World, zones: seq<string>, reversed: string): Option<string> {
    if zones == [] then None
    else if ZoneLists(w, reversed, zones[0]) then Some(zones[0])
    else FirstZone(w, zones[1..], reversed)
  }

  lemma {:induction false} FirstZoneMeaning(w: World, zones: seq<string>, reversed: string)
    ensures match FirstZone(w, zones, reversed)
            case None => forall i | 0 <= i < |zones| :: !ZoneLists(w, reversed, zones[i])
            case Some(zone) => exists i | 0 <= i < |zones| ::
              zones[i] == zone && ZoneLists(w, reversed, zone) && forall j | 0 <= j < i :: !ZoneLists(w, reversed, zones[j])
  {
    if zones != [] && !ZoneLists(w, reversed, zones[0]) {
      FirstZoneMeaning(w, zones[1..], reversed);
      match FirstZone(w, zones, reversed) {
        case None =>
          forall i | 0 <= i < |zones| ensures !ZoneLists(w, reversed, zones[i]) {
            if i > 0 {
              assert zones[i] == zones[1..][i - 1];
            }
          }
        case Some(zone) =>
          var i :| 0 <= i < |zones[1..]| && zones[1..][i] == zone && forall j | 0 <= j < i :: !ZoneLists(w, reversed, zones[1..][j]);
          assert zones[i + 1] == zone;
          forall j | 0 <= j < i + 1 ensures !ZoneLists(w, reversed, zones[j]) {
            if j > 0 {
              assert zones[j] == zones[1..][j - 1];
            }
          }
      }
    }
  }

  // ----- the same, on the texts that go out and come back ---------------------------

  /** The name looked up for an address: its octets in reverse, then the zone. */
  function QueryName(q: Quad, zone: string): string {
    Digits(q.d) + "." + Digits(q.c) + "." + Digits(q.b) + "." + Digits(q.a) + "." + zone
  }

  lemma QueryNameReversed(q: Quad, zone: string)
    ensures Dotted(q.Reversed()) + "." + zone == QueryName(q, zone)
  {
    var d, c, b, a := Digits(q.d), Digits(q.c), Digits(q.b), Digits(q.a);
    DottedText(q.Reversed());
    assert d + "." + c + "." + b + "." + a + "." + zone == QueryName(q, zone);
  }

  /** A text that says an address is listed: any in 127.0.0.0/8 but the refusals in 127.255.255.0/24. */
  predicate SaysListed(q: Quad) {
    q.a == 127 && !(q.b == 255 && q.c == 255)
  }

  /** The lookup failed or holds nothing but addresses that say not listed. */
  ghost predicate AnswersClean(w: World, name: string) {
    w.lookup(name).Some? ==> forall a <- w.lookup(name).value :: exists q :: a == Dotted(q) && !SaysListed(q)
  }

  ghost predicate AnswersListed(w: World, name: string) {
    w.lookup(name).Some? && exists q :: SaysListed(q) && Dotted(q) in w.lookup(name).value
  }

  lemma DottedAnswer(v6: V6Parser, q: Quad)
    ensures ListedAnswer(v6, Dotted(q)) <==> SaysListed(q)
  {
    ParseDotted(v6, q);
    DottedTrimmed(q);
    TrimTrimmed(Dotted(q));
  }

  lemma ZoneAnswers(w: World, q: Quad, zone: string)
    ensures AnswersClean(w, QueryName(q, zone)) ==> !ZoneLists(w, Dotted(q.Reversed()), zone)
    ensures AnswersListed(w, QueryName(q, zone)) ==> ZoneLists(w, Dotted(q.Reversed()), zone)
  {
    QueryNameReversed(q, zone);
    forall r: Quad ensures ListedAnswer(w.v6, Dotted(r)) <==> SaysListed(r) {
      DottedAnswer(w.v6, r);
    }
  }

  /** Where every zone's lookup fails or says not listed, no zone is named; the first that says listed is. */
  lemma FirstListingOnTexts(w: World, zones: seq<string>, q: Quad, i: nat)
    requires i <= |zones| && forall j | 0 <= j < i :: AnswersClean(w, QueryName(q, zones[j]))
    requires i < |zones| ==> AnswersListed(w, QueryName(q, zones[i]))
    ensures FirstListing(w, zones, Dotted(q)) == if i < |zones| then Some(zones[i]) else None
  {
    var reversed := Dotted(q.Reversed());
    ParseDotted(w.v6, q);
    FirstZoneMeaning(w, zones, reversed);
    forall j | 0 <= j < i ensures !ZoneLists(w, reversed, zones[j]) {
      ZoneAnswers(w, q, zones[j]);
    }
    if i < |zones| {
      ZoneAnswers(w, q, zones[i]);
      FirstZoneFound(w, zones, reversed, i);
    }
  }

  lemma {:induction false} FirstZoneFound(w: World, zones: seq<string>, reversed: string, i: nat)
    requires i < |zones| && ZoneLists(w, reversed, zones[i]) && forall j | 0 <= j < i :: !ZoneLists(w, reversed, zones[j])
    ensures FirstZone(w, zones, reversed) == Some(zones[i])
  {
    if i > 0 {
      assert forall j | 0 <= j < i - 1 :: zones[1..][j] == zones[j + 1];
      FirstZoneFound(w, zones[1..], reversed, i - 1);
    }
  }

  // ----- one probe ----------------------------------------------------------------

  /** Verdict, reason, and the observation recorded if the body was read. */
  datatype Outcome = Outcome(ok: bool, reason: Reason, observed: Option<Observation>)

  function Observe(s: Settings, w: World, body: string): Observation {
    Observation(
      match w.submatch(s.spec.countryPattern, body) case Some(m) => Country(m) case None => "",
      match w.submatch(s.spec.ipPattern, body) case Some(m) => TrimSpace(m) case None => "")
  }

  function Judge(s: Settings, w: World, o: Observation): (bool, Reason) {
    if o.country == "" then (false, NoCountry)
    else if o.country != s.spec.expectedCountry then (false, WrongCountry(o.country, s.spec.expectedCountry))
    else if s.spec.expectedIP != "" && o.ip != s.spec.expectedIP then (false, WrongIP(o.ip, s.spec.expectedIP))
    else if s.zones == [] then (true, NoReason)
    else if o.ip == "" then (false, NoExitIP)
    else match FirstListing(w, s.zones, o.ip)
      case Some(zone) => (false, Listed(o.ip, zone))
      case None => (true, NoReason)
  }

  function Probe(s: Settings, w: World): Outcome {
    match w.http(Dialer(s.spec.iface, s.spec.timeout), s.spec.url)
    case CannotBuild => Outcome(false, RequestBuildFailed, None)
    case NoResponse => Outcome(false, RequestFailed, None)
    case Response(code, body) =>
      if code != 200 then Outcome(false, BadStatus(code), None)
      else match body
        case None => Outcome(false, ReadFailed, None)
        case Some(text) =>
          var o := Observe(s, w, text);
          var (ok, reason) := Judge(s, w, o);
          Outcome(ok, reason, Some(o))
  }

  /** The proof an OK verdict stands for, condition by condition. */
  predicate Proven(s: Settings, w: World) {
    var answer := w.http(Dialer(s.spec.iface, s.spec.timeout), s.spec.url);
    && answer.Response? && answer.code == 200 && answer.body.Some?
    && var country := w.submatch(s.spec.countryPattern, answer.body.value);
    && var ip := w.submatch(s.spec.ipPattern, answer.body.value);
    && country.Some? && Country(country.value) == s.spec.expectedCountry != ""
    && (s.spec.expectedIP != "" ==> ip.Some? && TrimSpace(ip.value) == s.spec.expectedIP)
    && (s.zones != [] ==>
          && ip.Some? && !Blank(ip.value)
          && Clean(w, s.zones, TrimSpace(ip.value)))
  }

  /** Not an IPv4 address, or in no zone that answers. */
  predicate Clean(w: World, zones: seq<string>, ip: string) {
    var r := ReverseIPv4(w.v6, ip);
    r.None? || forall i | 0 <= i < |zones| :: !ZoneLists(w, r.value, zones[i])
  }

  /** A probe answers OK exactly when the exit is proven, and an OK probe has recorded what it proved. */
  lemma ProbeMeaning(s: Settings, w: World)
    ensures Probe(s, w).ok <==> Proven(s, w)
    ensures Probe(s, w).ok ==>
              var o := Probe(s, w).observed;
              && Probe(s, w).reason == NoReason
              && o.Some? && o.value.country == s.spec.expectedCountry != ""
              && (s.spec.expectedIP != "" ==> o.value.ip == s.spec.expectedIP)
  {
    var answer := w.http(Dialer(s.spec.iface, s.spec.timeout), s.spec.url);
    if answer.Response? && answer.code == 200 && answer.body.Some? {
      var ip := w.submatch(s.spec.ipPattern, answer.body.value);
      if ip.Some? {
        BlankTrims(ip.value);
        var r := ReverseIPv4(w.v6, TrimSpace(ip.value));
        if r.Some? {
          FirstZoneMeaning(w, s.zones, r.value);
        }
      }
    }
  }

  /** A listing verdict names the first zone that lists the address. */
  lemma ListedNamesFirstZone(s: Settings, w: World, ip: string, zone: string)
    requires Probe(s, w).reason == Listed(ip, zone)
    ensures var r := ReverseIPv4(w.v6, ip);
            r.Some? && exists i | 0 <= i < |s.zones| ::
              s.zones[i] == zone && ZoneLists(w, r.value, zone) && forall j | 0 <= j < i :: !ZoneLists(w, r.value, s.zones[j])
  {
    FirstZoneMeaning(w, s.zones, ReverseIPv4(w.v6, ip).value);
  }

  /**
   What a probe makes of an exit in the right country whose address is an IPv4
   text, on the texts that the zones answer: OK where none says listed, and the
   first that does otherwise.
   */
  lemma ProbeOnTexts(s: Settings, w: World, body: string, country: string, q: Quad, i: nat)
    requires w.http(Dialer(s.spec.iface, s.spec.timeout), s.spec.url) == Response(200, Some(body))
    requires w.submatch(s.spec.countryPattern, body) == Some(country) && Country(country) == s.spec.expectedCountry != ""
    requires w.submatch(s.spec.ipPattern, body) == Some(Dotted(q)) && s.spec.expectedIP in {"", Dotted(q)}
    requires i <= |s.zones| && forall j | 0 <= j < i :: AnswersClean(w, QueryName(q, s.zones[j]))
    requires i < |s.zones| ==> AnswersListed(w, QueryName(q, s.zones[i]))
    ensures Probe(s, w).ok == (i == |s.zones|)
    ensures Probe(s, w).reason == if i < |s.zones| then Listed(Dotted(q), s.zones[i]) else NoReason
    ensures Probe(s, w).observed == Some(Observation(s.spec.expectedCountry, Dotted(q)))
  {
    DottedTrimmed(q);
    TrimTrimmed(Dotted(q));
    FirstListingOnTexts(w, s.zones, q, i);
  }

  /** A failing probe says what failed, and a read body is recorded whatever it is judged to be. */
  lemma ProbeFailureNamed(s: Settings, w: World)
    ensures var answer, p := w.http(Dialer(s.spec.iface, s.spec.timeout), s.spec.url), Probe(s, w);
            && (p.reason == RequestBuildFailed <==> answer.CannotBuild?)
            && (p.reason == RequestFailed <==> answer.NoResponse?)
            && (forall code :: p.reason == BadStatus(code) <==> answer.Response? && answer.code == code != 200)
            && (p.reason == ReadFailed <==> answer.Response? && answer.code == 200 && answer.body.None?)
            && (p.observed.Some? <==> answer.Response? && answer.code == 200 && answer.body.Some?)
  {
  }

  lemma ReadBodyRecorded(s: Settings, w: World, body: string)
    requires w.http(Dialer(s.spec.iface, s.spec.timeout), s.spec.url) == Response(200, Some(body))
    ensures var p := Probe(s, w);
            && p.observed.Some?
            && var country, ip := w.submatch(s.spec.countryPattern, body), w.submatch(s.spec.ipPattern, body);
            && p.observed.value.country == (if country.Some? then ToUpper(TrimSpace(country.value)) else "")
            && p.observed.value.ip == (if ip.Some? then TrimSpace(ip.value) else "")
            && (p.reason == NoCountry <==> p.observed.value.country == "")
            && (p.reason.WrongCountry? <==> p.observed.value.country !in {"", s.spec.expectedCountry})
            && (p.reason.WrongCountry? ==> p.reason == WrongCountry(p.observed.value.country, s.spec.expectedCountry))
  {
  }

  /** In the right country: which address is refused for what. */
  lemma AddressJudged(s: Settings, w: World, body: string)
    requires w.http(Dialer(s.spec.iface, s.spec.timeout), s.spec.url) == Response(200, Some(body))
    requires Probe(s, w).observed.Some? && Probe(s, w).observed.value.country == s.spec.expectedCountry != ""
    ensures var p := Probe(s, w);
            var ip := p.observed.value.ip;
            && (p.reason.WrongIP? <==> s.spec.expectedIP !in {"", ip})
            && (p.reason.WrongIP? ==> p.reason == WrongIP(ip, s.spec.expectedIP))
            && (p.reason == NoExitIP <==> s.spec.expectedIP == ip == "" && s.zones != [])
            && (p.reason.Listed? ==> p.reason.ip == ip && s.spec.expectedIP in {"", ip})
  {
  }

  // ----- the cache -----------------------------------------------------------------

  /** The cached verdict and the last observation; `held` is the source's `set`. */
  datatype Cache = Cache(
    verdict: bool, reason: Reason, ts: int, held: bool, lastCountry: string, lastIP: string, probed: bool)

  const NO_PROOF: Cache := Cache(false, NoReason, 0, false, "", "", false)

  /** Everything the checker's mutex guards. */
  datatype EgressState = EgressState(settings: Settings, client: Option<Dialer>, cache: Cache)

  datatype Evaluation = Evaluation(ok: bool, reason: Reason, ip: string, country: string, probed: bool)

  function DialerOf(s: ProbeSpec): Dialer {
    Dialer(s.iface, s.timeout)
  }

  /** A client still in place was built from the settings still in place. */
  predicate ClientCurrent(e: EgressState) {
    e.client.Some? ==> e.client.value == DialerOf(e.settings.spec)
  }

  predicate Hit(e: EgressState, force: bool, now: int) {
    !force && e.cache.held && now - e.cache.ts < e.settings.spec.ttl
  }

  /** The cache after a probe made at `now` came to `p`; an unread body leaves the last observation alone. */
  function Recorded(c: Cache, p: Outcome, now: int): Cache {
    Cache(p.ok, p.reason, now, true,
          if p.observed.Some? then p.observed.value.country else c.lastCountry,
          if p.observed.Some? then p.observed.value.ip else c.lastIP,
          true)
  }

  function Evaluated(e: EgressState, force: bool, now: int, w: World): (EgressState, Evaluation) {
    if Hit(e, force, now) then
      (e.(cache := e.cache.(probed := false)),
       Evaluation(e.cache.verdict, e.cache.reason, e.cache.lastIP, e.cache.lastCountry, false))
    else
      var p := Probe(e.settings, w);
      var c := Recorded(e.cache, p, now);
      (EgressState(e.settings, if p.reason == RequestBuildFailed then e.client else Some(DialerOf(e.settings.spec)), c),
       Evaluation(c.verdict, c.reason, c.lastIP, c.lastCountry, true))
  }

  /**
   An evaluation probes exactly when it is forced, nothing is held or the
   lifetime is over. Otherwise it answers from the cache and leaves it alone;
   if it probes, the cache takes the verdict and the time, and the observation
   if the body was read.
   */
  lemma EvaluateMeaning(e: EgressState, force: bool, now: int, w: World)
    ensures var (n, r) := Evaluated(e, force, now, w);
            && n.settings == e.settings && n.cache.probed == r.probed
            && r.ok == n.cache.verdict && r.reason == n.cache.reason
            && r.country == n.cache.lastCountry && r.ip == n.cache.lastIP
            && (r.probed <==> force || !e.cache.held || now >= e.cache.ts + e.settings.spec.ttl)
            && (if r.probed then ProbeTaken(e.cache, n.cache, Probe(e.settings, w), now)
                else n.cache == e.cache.(probed := false))
  {
  }

  predicate ProbeTaken(before: Cache, c: Cache, p: Outcome, now: int) {
    && c.verdict == p.ok && c.reason == p.reason && c.held && c.ts == now
    && (p.observed.Some? ==> c.lastCountry == p.observed.value.country && c.lastIP == p.observed.value.ip)
    && (p.observed.None? ==> c.lastCountry == before.lastCountry && c.lastIP == before.lastIP)
  }

  function Invalidated(e: EgressState): EgressState {
    e.(cache := NO_PROOF)
  }

  /** The settings a configuration asks of the checker. */
  function SettingsOf(lib: Lib, c: Config): Option<Settings> {
    match (lib.parseDuration(c.probeTimeout), lib.parseDuration(c.probeInterval))
    case (Some(timeout), Some(ttl)) =>
      Some(Settings(ProbeSpec(c.interface, c.probeURL, c.countryPattern, c.ipPattern, timeout, ttl,
                              Country(c.expectedCountry), c.expectedIP), c.dnsblZones))
    case _ => None
  }

  /** Whether Apply accepts a configuration; url.Parse is not the parser Validate uses. */
  predicate Applicable(lib: Lib, c: Config) {
    lib.compile(c.countryPattern).Some? && lib.compile(c.ipPattern).Some? && lib.urlParses(c.probeURL)
    && SettingsOf(lib, c).Some?
  }

  /** The checker before its first probe, and again after every Apply. */
  function Initial(s: Settings): EgressState {
    EgressState(s, None, NO_PROOF)
  }

  /**
   Validity leaves url.Parse as the only thing Apply can still object to. It
   can object: a fragment with a bad escape behind a query is no error to
   url.ParseRequestURI.
   */
  lemma ValidIsApplicable(lib: Lib, c: Config)
    requires Valid(lib, c)
    ensures Applicable(lib, c) <==> lib.urlParses(c.probeURL)
  {
  }

  /** The held verdict and observation are what probing `w` under the current settings gave. */
  ghost predicate CachedFrom(e: EgressState, w: World) {
    e.cache.held && exists before: Cache :: e.cache.(probed := true) == Recorded(before, Probe(e.settings, w), e.cache.ts)
  }

  lemma CachedFromAlike(e: EgressState, v: World, w: World)
    requires CachedFrom(e, v) && Probe(e.settings, v) == Probe(e.settings, w)
    ensures CachedFrom(e, w)
  {
  }

  /** If the world has not changed since the cached probe, a cached answer is what a fresh probe would give, apart from `probed`. */
  lemma CacheRefinesFresh(e: EgressState, now: int, w: World)
    requires CachedFrom(e, w)
    ensures Evaluated(e, false, now, w).1.(probed := true) == Evaluated(e, true, now, w).1
    ensures CachedFrom(Evaluated(e, false, now, w).0, w)
  {
    var before: Cache :| e.cache.(probed := true) == Recorded(before, Probe(e.settings, w), e.cache.ts);
    var n := Evaluated(e, false, now, w).0;
    assert n.cache.(probed := true) == Recorded(if Hit(e, false, now) then before else e.cache, Probe(e.settings, w), n.cache.ts);
  }

  /** A held OK verdict comes with the country and address it was given for, and these meet the current expectations. */
  predicate VerdictBacked(e: EgressState) {
    e.cache.held && e.cache.verdict ==>
      && e.cache.lastCountry == e.settings.spec.expectedCountry != ""
      && (e.settings.spec.expectedIP != "" ==> e.cache.lastIP == e.settings.spec.expectedIP)
  }

  lemma BackingKept(e: EgressState, force: bool, now: int, w: World, s: Settings)
    requires VerdictBacked(e) && ClientCurrent(e)
    ensures VerdictBacked(Evaluated(e, force, now, w).0) && ClientCurrent(Evaluated(e, force, now, w).0)
    ensures VerdictBacked(Invalidated(e)) && ClientCurrent(Invalidated(e))
    ensures VerdictBacked(Initial(s)) && ClientCurrent(Initial(s))
  {
    ProbeMeaning(e.settings, w);
  }

  // ----- the checker -----------------------------------------------------------------

  lemma Overwritten(list: seq<string>, was: seq<string>, i: nat)
    requires i < |list| <= |was|
    ensures (list[..i] + was[i..])[i := list[i]] == list[..i + 1] + was[i + 1..]
  {
  }

  class EgressChecker {
    var spec: ProbeSpec
    var zones: array<string>
    var zonesLen: nat
    var client: Option<Dialer>
    var cache: Cache

    predicate Valid()
      reads this
    {
      zonesLen <= zones.Length && (client.Some? ==> client.value == DialerOf(spec))
    }

    function View(): EgressState
      requires Valid()
      reads this, zones
      ensures ClientCurrent(View())
    {
      EgressState(Settings(spec, zones[..zonesLen]), client, cache)
    }

    /** The zone slice is the caller's: backing array and length are shared with the configuration. */
    constructor (spec: ProbeSpec, zones: array<string>, zonesLen: nat)
      requires zonesLen <= zones.Length
      ensures Valid() && View() == Initial(Settings(spec, zones[..zonesLen]))
      ensures this.zones == zones && this.zonesLen == zonesLen
    {
      this.spec, this.zones, this.zonesLen, client, cache := spec, zones, zonesLen, None, NO_PROOF;
    }

    method Client() returns (d: Dialer)
      requires Valid()
      modifies this`client
      ensures Valid() && d == DialerOf(spec) && client == Some(d)
    {
      if client.None? {
        client := Some(DialerOf(spec));
      }
      d := client.value;
    }

    method Blacklisted(w: World, ip: string) returns (zone: Option<string>)
      requires Valid()
      ensures zone == FirstListing(w, zones[..zonesLen], ip)
    {
      var reversed := ReverseIPv4(w.v6, ip);
      if reversed.None? {
        return None;
      }
      ghost var all := zones[..zonesLen];
      for i := 0 to zonesLen
        invariant FirstZone(w, all, reversed.value) == FirstZone(w, all[i..], reversed.value)
      {
        assert all[i..][0] == zones[i] && all[i..][1..] == all[i + 1..];
        var listed := ListedIn(w, reversed.value, zones[i]);
        if listed {
          return Some(zones[i]);
        }
      }
      return None;
    }

    static method ListedIn(w: World, reversed: string, zone: string) returns (listed: bool)
      ensures listed == ZoneLists(w, reversed, zone)
    {
      var answers := w.lookup(reversed + "." + zone);
      if answers.None? {
        return false;
      }
      for j := 0 to |answers.value|
        invariant forall k | 0 <= k < j :: !ListedAnswer(w.v6, answers.value[k])
      {
        if ListedAnswer(w.v6, answers.value[j]) {
          return true;
        }
      }
      return false;
    }

    /** Records the observation before judging it, so a mismatch still shows what was seen. */
    method RunProbe(w: World) returns (ok: bool, why: Reason)
      requires Valid()
      modifies this`client, this`cache
      ensures Valid()
      ensures var p := Probe(Settings(spec, zones[..zonesLen]), w);
              && ok == p.ok && why == p.reason
              && client == (if p.reason == RequestBuildFailed then old(client) else Some(DialerOf(spec)))
              && cache == (if p.observed.Some?
                           then old(cache).(lastCountry := p.observed.value.country, lastIP := p.observed.value.ip)
                           else old(cache))
    {
      if w.http(DialerOf(spec), spec.url).CannotBuild? {
        return false, RequestBuildFailed;
      }
      var d := Client();
      var answer := w.http(d, spec.url);
      if answer.NoResponse? {
        return false, RequestFailed;
      }
      if answer.code != 200 {
        return false, BadStatus(answer.code);
      }
      if answer.body.None? {
        return false, ReadFailed;
      }
      var m := w.submatch(spec.countryPattern, answer.body.value);
      var cc := if m.Some? then Country(m.value) else "";
      m := w.submatch(spec.ipPattern, answer.body.value);
      var ip := if m.Some? then TrimSpace(m.value) else "";
      cache := cache.(lastCountry := cc, lastIP := ip);
      if cc == "" {
        return false, NoCountry;
      }
      if cc != spec.expectedCountry {
        return false, WrongCountry(cc, spec.expectedCountry);
      }
      if spec.expectedIP != "" && ip != spec.expectedIP {
        return false, WrongIP(ip, spec.expectedIP);
      }
      if zonesLen > 0 {
        if ip == "" {
          return false, NoExitIP;
        }
        var zone := Blacklisted(w, ip);
        if zone.Some? {
          return false, Listed(ip, zone.value);
        }
      }
      return true, NoReason;
    }

    method Evaluate(force: bool, now: int, w: World) returns (r: Evaluation)
      requires Valid()
      modifies this`client, this`cache
      ensures Valid()
      ensures (View(), r) == Evaluated(old(View()), force, now, w)
    {
      if !force && cache.held && now - cache.ts < spec.ttl {
        cache := cache.(probed := false);
        return Evaluation(cache.verdict, cache.reason, cache.lastIP, cache.lastCountry, false);
      }
      var ok, why := RunProbe(w);
      cache := cache.(verdict := ok, reason := why, ts := now, held := true, probed := true);
      return Evaluation(ok, why, cache.lastIP, cache.lastCountry, true);
    }

    method Invalidate()
      requires Valid()
      modifies this`cache
      ensures Valid() && View() == Invalidated(old(View()))
      ensures cache == Cache(false, NoReason, 0, false, "", "", false)
    {
      cache := NO_PROOF;
    }

    method Proof() returns (ip: string, country: string, probed: bool)
      ensures ip == cache.lastIP && country == cache.lastCountry && probed == cache.probed
    {
      return cache.lastIP, cache.lastCountry, cache.probed;
    }

    /**
     `append(e.Zones[:0], list...)`: writes into the backing array when it is
     large enough, whoever else holds it, and otherwise moves to a new one.
     */
    method ReplaceZones(list: seq<string>)
      requires zonesLen <= zones.Length
      modifies this`zones, this`zonesLen, zones
      ensures zonesLen == |list| <= zones.Length && zones[..zonesLen] == list
      ensures if |list| <= old(zones.Length)
              then zones == old(zones) && zones[..] == list + old(zones[..])[|list|..]
              else fresh(zones) && old(zones)[..] == old(zones[..])
    {
      if |list| > zones.Length {
        zones := new string[|list|](i requires 0 <= i < |list| => list[i]);
      } else {
        ghost var was := zones[..];
        for i := 0 to |list|
          modifies zones
          invariant zones[..] == list[..i] + was[i..]
        {
          Overwritten(list, was, i);
          zones[i] := list[i];
        }
      }
      zonesLen := |list|;
    }

    /** Validates first; on an error nothing is changed, otherwise the settings are swapped and all proof is dropped. */
    method Apply(lib: Lib, c: Config) returns (ok: bool)
      requires Valid()
      modifies this, zones
      ensures Valid() && ok == Applicable(lib, c)
      ensures !ok ==> unchanged(this) && unchanged(old(zones))
      ensures ok ==> View() == Initial(SettingsOf(lib, c).value)
      ensures ok ==> if |c.dnsblZones| <= old(zones.Length)
                     then zones == old(zones) && zones[..] == c.dnsblZones + old(zones[..])[|c.dnsblZones|..]
                     else fresh(zones) && old(zones)[..] == old(zones[..])
    {
      if lib.compile(c.countryPattern).None? || lib.compile(c.ipPattern).None? || !lib.urlParses(c.probeURL) {
        return false;
      }
      var timeout, ttl := lib.parseDuration(c.probeTimeout), lib.parseDuration(c.probeInterval);
      if timeout.None? || ttl.None? {
        return false;
      }
      spec := ProbeSpec(c.interface, c.probeURL, c.countryPattern, c.ipPattern, timeout.value, ttl.value,
                        Country(c.expectedCountry), c.expectedIP);
      ReplaceZones(c.dnsblZones);
      client := None;
      Invalidate();
      return true;
    }
  }
}
