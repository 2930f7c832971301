/** The shared configuration cell, start-up wiring, hot reload and forced probes, on the live objects. */
module Reload {
  import opened Wrappers
  import opened Text
  import opened Config
  import opened ConfigOps
  import opened Agent
  import opened Egress
  import opened Tunnel

  /** The configuration cell. Its zone list is a slice of an array it may share with the egress checker. */
  class Live {
    var config: Config
    var zones: array<string>
    var zonesLen: nat

    predicate Valid()
      reads this
    {
      zonesLen <= zones.Length
    }

    function View(): Config
      requires Valid()
      reads this, zones
    {
      config.(dnsblZones := zones[..zonesLen])
    }

    constructor (c: Config, zones: array<string>, zonesLen: nat)
      requires zonesLen <= zones.Length && zones[..zonesLen] == c.dnsblZones
      ensures Valid() && View() == c && this.zones == zones && this.zonesLen == zonesLen
    {
      this.config, this.zones, this.zonesLen := c, zones, zonesLen;
    }

    method Get() returns (c: Config)
      requires Valid()
      ensures c == View()
    {
      c := config.(dnsblZones := zones[..zonesLen]);
    }

    method Set(c: Config, zones: array<string>)
      requires zones[..] == c.dnsblZones
      modifies this
      ensures Valid() && View() == c && this.zones == zones
    {
      this.config, this.zones, this.zonesLen := c, zones, zones.Length;
    }
  }

  /** What a daemon has in common with the configuration it was started with, whatever it reloads later. */
  function Effective(current: Config, loaded: Config): Config {
    loaded.(interface := current.interface, socketPath := current.socketPath, logFile := current.logFile)
  }

  /** Setting by setting: the three start-up ones are the daemon's, every other one is the file's. */
  lemma EffectiveFields(current: Config, loaded: Config, k: Key)
    ensures Field(Effective(current, loaded), k)
            == if Name(k) in {"interface", "socket_path", "log_file"} then Field(current, k) else Field(loaded, k)
  {
  }

  predicate TakesOver(current: Config, loaded: Config, c: Config) {
    forall k: Key ::
      Field(c, k) == if Name(k) in {"interface", "socket_path", "log_file"} then Field(current, k) else Field(loaded, k)
  }

  lemma EffectiveTakesOver(current: Config, loaded: Config)
    ensures TakesOver(current, loaded, Effective(current, loaded))
  {
    forall k: Key
      ensures Field(Effective(current, loaded), k)
              == if Name(k) in {"interface", "socket_path", "log_file"} then Field(current, k) else Field(loaded, k)
    {
      EffectiveFields(current, loaded, k);
    }
  }

  function TunnelOf(lib: Lib, c: Config): Option<TunnelState> {
    match lib.parseDuration(c.maxHandshakeAge)
    case Some(age) => Some(TunnelState(c.interface, age, c.pingTarget))
    case None => None
  }

  /** The two checkers hold exactly what the configuration asks of them. */
  predicate Agrees(lib: Lib, c: Config, e: Settings, t: TunnelState) {
    SettingsOf(lib, c) == Some(e) && TunnelOf(lib, c) == Some(t)
  }

  /** What the two checkers hold, setting by setting, when they hold what a file says. */
  predicate HoldsFile(lib: Lib, iface: string, c: Config, s: Settings, t: TunnelState) {
    && s.spec.iface == t.iface == iface
    && s.spec.url == c.probeURL && s.spec.countryPattern == c.countryPattern && s.spec.ipPattern == c.ipPattern
    && lib.parseDuration(c.probeTimeout) == Some(s.spec.timeout)
    && lib.parseDuration(c.probeInterval) == Some(s.spec.ttl)
    && s.spec.expectedCountry == c.expectedCountry && s.spec.expectedIP == c.expectedIP && s.zones == c.dnsblZones
    && lib.parseDuration(c.maxHandshakeAge) == Some(t.maxAge) && t.pingTarget == c.pingTarget
  }

  lemma LoadedCountry(file: ConfigFile)
    requires LoadConfig(file).Success?
    ensures Country(LoadConfig(file).value.expectedCountry) == LoadConfig(file).value.expectedCountry
  {
    CountryIdempotent(file.config.expectedCountry);
  }

  /** Checkers that agree with the effective configuration hold what the file says. */
  lemma AgreeingHoldFile(lib: Lib, current: Config, c: Config, s: Settings, t: TunnelState)
    requires Agrees(lib, Effective(current, c), s, t) && Country(c.expectedCountry) == c.expectedCountry
    ensures HoldsFile(lib, current.interface, c, s, t)
  {
  }

  /** buildCheckers: on a loaded configuration the checkers start in agreement, sharing the zone array with the cell. */
  method BuildCheckers(lib: Lib, c: Config, live: Live) returns (tc: TunnelChecker, eg: EgressChecker)
    requires live.Valid() && live.View() == c
    requires ParseDurations(lib, c).Success? && Normalised(c) == c
    ensures eg.Valid() && eg.zones == live.zones && eg.zonesLen == live.zonesLen
    ensures SettingsOf(lib, c).Some? && eg.View() == Initial(SettingsOf(lib, c).value)
    ensures Agrees(lib, c, eg.View().settings, tc.View())
    ensures HoldsFile(lib, c.interface, c, eg.View().settings, tc.View())
  {
    var d := ParseDurations(lib, c).value;
    tc := new TunnelChecker(c.interface, d.maxHandshakeAge, c.pingTarget);
    eg := new EgressChecker(
      ProbeSpec(c.interface, c.probeURL, c.countryPattern, c.ipPattern, d.probeTimeout, d.probeInterval,
                c.expectedCountry, c.expectedIP),
      live.zones, live.zonesLen);
  }

  /** Whether a reload succeeds: the file loads to a valid configuration whose probe URL url.Parse accepts too. */
  predicate ReloadAccepts(lib: Lib, file: ConfigFile) {
    var loaded := LoadConfig(file);
    loaded.Success? && Valid(lib, loaded.value) && lib.urlParses(loaded.value.probeURL)
  }

  datatype ReloadError = CannotLoad(load: LoadError) | InvalidConfig(config: ConfigError) | EgressRejects

  /** The part of a reload that touches nothing: load, validate, and report what differs from the current configuration. */
  method Prepare(lib: Lib, file: ConfigFile, current: Config) returns (r: Result<(Config, ReloadResult), ReloadError>)
    ensures r.Success? <==> LoadConfig(file).Success? && Valid(lib, LoadConfig(file).value)
    ensures r.Success? ==>
              && r.value.0 == Effective(current, LoadConfig(file).value)
              && TakesOver(current, LoadConfig(file).value, r.value.0)
              && Reports(DiffOf(current, LoadConfig(file).value), r.value.1)
    ensures r.Failure? ==>
              match r.error
              case CannotLoad(e) => LoadConfig(file) == Failure(e)
              case InvalidConfig(e) => LoadConfig(file).Success? && Blames(lib, LoadConfig(file).value, e)
              case EgressRejects => false
  {
    var load := LoadConfig(file);
    if load.Failure? {
      return Failure(CannotLoad(load.error));
    }
    var err := Validate(lib, load.value);
    if err.Some? {
      return Failure(InvalidConfig(err.value));
    }
    var changed := DiffKeys(current, load.value);
    var result := ClassifyReload(changed);
    EffectiveTakesOver(current, load.value);
    return Success((Effective(current, load.value), result));
  }

  /** Validity survives the substitution of the start-up keys, and leaves url.Parse as the only possible objection. */
  lemma EffectiveValid(lib: Lib, current: Config, loaded: Config)
    requires Valid(lib, loaded) && ValidInterface(current.interface)
    ensures Valid(lib, Effective(current, loaded))
    ensures Applicable(lib, Effective(current, loaded)) <==> lib.urlParses(loaded.probeURL)
  {
    ValidIsApplicable(lib, Effective(current, loaded));
  }

  /** The part that installs an effective configuration: egress checker, tunnel checker, cell, in that order. */
  method Install(lib: Lib, c: Config, live: Live, tc: TunnelChecker, eg: EgressChecker) returns (ok: bool)
    requires eg.Valid() && tc.iface == c.interface && lib.parseDuration(c.maxHandshakeAge).Some?
    modifies live, tc, eg, eg.zones
    ensures eg.Valid() && ok == Applicable(lib, c)
    ensures !ok ==> unchanged(live) && unchanged(tc) && unchanged(eg) && unchanged(old(eg.zones))
    ensures ok ==>
              && live.Valid() && live.View() == c && fresh(live.zones)
              && Agrees(lib, c, eg.View().settings, tc.View())
              && eg.View().cache == NO_PROOF
  {
    // The decoder made this slice for the new configuration alone.
    var decoded := new string[|c.dnsblZones|](i requires 0 <= i < |c.dnsblZones| => c.dnsblZones[i]);
    assert decoded[..] == c.dnsblZones;
    ok := eg.Apply(lib, c);
    if ok {
      var applied := tc.Apply(lib, c);
      // Validation has parsed the only thing tc.Apply can reject.
      assert applied;
      live.Set(c, decoded);
    }
  }

  lemma ReloadTakesOver(lib: Lib, current: Config, file: ConfigFile, s: Settings, t: TunnelState)
    requires LoadConfig(file).Success? && Agrees(lib, Effective(current, LoadConfig(file).value), s, t)
    ensures TakesOver(current, LoadConfig(file).value, Effective(current, LoadConfig(file).value))
    ensures HoldsFile(lib, current.interface, LoadConfig(file).value, s, t)
  {
    var c := LoadConfig(file).value;
    EffectiveTakesOver(current, c);
    LoadedCountry(file);
    AgreeingHoldFile(lib, current, c, s, t);
  }

  /**
   The function makeReloader returns, run with nothing in between. It fails
   before anything is touched or succeeds with both checkers in agreement with
   the cell, even though the egress checker may have been writing into the
   very array the old configuration's zones live in.
   */
  method Reload(lib: Lib, file: ConfigFile, live: Live, tc: TunnelChecker, eg: EgressChecker)
    returns (r: Result<ReloadResult, ReloadError>)
    requires live.Valid() && eg.Valid() && tc.iface == live.config.interface && ValidInterface(tc.iface)
    modifies live, tc, eg, eg.zones
    ensures live.Valid() && eg.Valid()
    ensures r.Success? <==> ReloadAccepts(lib, file)
    ensures r.Failure? ==> unchanged(live) && unchanged(tc) && unchanged(eg) && unchanged(old(eg.zones))
    ensures r.Success? ==>
              && live.View() == Effective(old(live.View()), LoadConfig(file).value)
              && Agrees(lib, live.View(), eg.View().settings, tc.View())
              && eg.View().cache == NO_PROOF
              && Reports(DiffOf(old(live.View()), LoadConfig(file).value), r.value)
              && fresh(live.zones)
    ensures r.Success? ==>
              && TakesOver(old(live.View()), LoadConfig(file).value, live.View())
              && HoldsFile(lib, old(live.config.interface), LoadConfig(file).value, eg.View().settings, tc.View())
  {
    var current := live.Get();
    var prepared := Prepare(lib, file, current);
    if prepared.Failure? {
      return Failure(prepared.error);
    }
    EffectiveValid(lib, current, LoadConfig(file).value);
    var ok := Install(lib, prepared.value.0, live, tc, eg);
    if ok {
      ReloadTakesOver(lib, current, file, eg.View().settings, tc.View());
    }
    return if ok then Success(prepared.value.1) else Failure(EgressRejects);
  }

  const NOT_EVALUATED: Evaluation := Evaluation(false, NoReason, "", "", false)

  /** What a forced probe publishes, from its configuration snapshot and the answers of the two checkers. */
  function ProbeWriteOf(verify: bool, tunnelOK: bool, tunnelReason: Reason, e: Evaluation, now: int): Write {
    if tunnelOK && verify then
      ProbeWrite(if e.ok then Up else Down, e.reason, e.ip, e.country, now)
    else
      ProbeWrite(if tunnelOK then Up else Down, tunnelReason, "", "", now)
  }

  /** probeNow, run with nothing in between: a fresh evaluation that leaves the published streak alone. */
  method ProbeNow(live: Live, tc: TunnelChecker, eg: EgressChecker, store: Store,
                  wg: string -> Option<string>, now: int, w: World)
    returns (status: Status)
    requires live.Valid() && eg.Valid()
    modifies eg`client, eg`cache, store
    ensures eg.Valid() && status == store.View() && status.streak == old(store.streak)
    ensures var up, verify := CheckPasses(tc.View(), wg, now), live.config.verifyEgress;
            var (e, r) := Evaluated(old(eg.View()), true, now, w);
            && eg.View() == (if !up then Invalidated(old(eg.View())) else if verify then e else old(eg.View()))
            && store.View() == Written(old(store.View()), ProbeWriteOf(verify, up, CheckReason(tc.View(), wg, now), r, now))
    ensures var up, verify := CheckPasses(tc.View(), wg, now), live.config.verifyEgress;
            var r := Evaluated(old(eg.View()), true, now, w).1;
            status == if up && verify then
                        Status(if r.ok then Up else Down, old(store.streak), r.reason, r.ip, r.country, Some(now))
                      else
                        Status(if up then Up else Down, old(store.streak), CheckReason(tc.View(), wg, now), "", "", Some(now))
  {
    var c := live.Get();
    var up, reason, result := AskCheckers(c.verifyEgress, tc, eg, wg, now, w);
    var state := Up;
    if !(up && (!c.verifyEgress || result.ok)) {
      state := Down;
    }
    store.SetProbe(state, reason, result.ip, result.country, now);
    status := store.Snapshot();
  }

  /** The two checkers asked in turn; a failed tunnel check drops the egress proof instead. */
  method AskCheckers(verify: bool, tc: TunnelChecker, eg: EgressChecker, wg: string -> Option<string>, now: int, w: World)
    returns (up: bool, reason: Reason, result: Evaluation)
    requires eg.Valid()
    modifies eg`client, eg`cache
    ensures eg.Valid() && up == CheckPasses(tc.View(), wg, now)
    ensures !(up && verify) ==> reason == CheckReason(tc.View(), wg, now) && result == NOT_EVALUATED
    ensures !(up && verify) ==> eg.View() == if up then old(eg.View()) else Invalidated(old(eg.View()))
    ensures up && verify ==> reason == result.reason && (eg.View(), result) == Evaluated(old(eg.View()), true, now, w)
  {
    up, reason := tc.Check(wg, now);
    result := NOT_EVALUATED;
    if !up {
      eg.Invalidate();
    } else if verify {
      result := eg.Evaluate(true, now, w);
      reason := result.reason;
    }
  }
}
