/** The configuration side of the daemon's invariants: validity, start-up wiring, agreement and reload reports. */
module DaemonConfig {
  import opened Wrappers
  import opened Config
  import opened ConfigOps
  import opened Egress
  import opened Reload
  import opened Daemon
  import opened DaemonFrames

  predicate SameWiring(c: Config, d: Config) {
    c.interface == d.interface && c.socketPath == d.socketPath && c.logFile == d.logFile
  }

  // ----- validity of the live configuration ---------------------------------------

  /** The cell's zones are the front of the shared array as long as it is shared. */
  ghost predicate ZonesShown(d: State) {
    d.shared ==>
      && |d.live.dnsblZones| <= |d.backing|
      && d.live.dnsblZones == d.backing[..|d.live.dnsblZones|]
  }

  /** Everything a reload carries is valid and wired as at start-up, and its report is about the start-up values of the wired keys. */
  ghost predicate ReloadGood(lib: Lib, startup: Config, pc: ReloadPc) {
    && Valid(lib, pc.loaded)
    && (!pc.Loaded? ==> pc.effective == Effective(startup, pc.loaded) && PlanGood(lib, startup, pc.loaded, pc.effective, pc.changed))
  }

  ghost predicate PlanGood(lib: Lib, startup: Config, loaded: Config, effective: Config, changed: seq<Key>) {
    Valid(lib, effective) && ReportGood(startup, loaded, changed)
  }

  ghost predicate ReportGood(startup: Config, loaded: Config, changed: seq<Key>) {
    forall k <- RESTART_KEYS :: k in changed <==> Field(startup, k) != Field(loaded, k)
  }

  ghost predicate PollConfigGood(lib: Lib, d: State) {
    match d.poll
    case Ticked(_, c) => Valid(lib, c)
    case Disproving(_, c, _) => Valid(lib, c)
    case Proving(_, c) => Valid(lib, c)
    case Judging(_, p, _) => p.downCycles >= 1
    case _ => true
  }

  ghost predicate WiringInv(lib: Lib, d: State) {
    && Valid(lib, d.startup)
    && Valid(lib, d.live) && SameWiring(d.startup, d.live) && ZonesShown(d)
    && d.eg.settings.spec.iface == d.startup.interface && d.tc.iface == d.startup.interface && d.tc.maxAge > 0
  }

  /** A completed poll used a threshold of at least 1, and a kill went for a valid list of targets. */
  ghost predicate PollSound(r: PollRecord) {
    r.poll.downCycles >= 1 && (r.killed ==> ValidTargets(r.targets))
  }

  ghost predicate ThresholdInv(lib: Lib, d: State) {
    PollConfigGood(lib, d) && forall i | 0 <= i < |d.polls| :: PollSound(d.polls[i])
  }

  ghost predicate ReloadsInv(lib: Lib, d: State) {
    && (forall id <- d.reloads :: ReloadGood(lib, d.startup, d.reloads[id]))
    && (forall i | 0 <= i < |d.reports| :: ReportGood(d.startup, d.reports[i].loaded, d.reports[i].changed))
  }

  ghost predicate ConfigInv(lib: Lib, d: State) {
    WiringInv(lib, d) && ThresholdInv(lib, d) && ReloadsInv(lib, d)
  }

  /** Another valid zone list makes another valid configuration. */
  lemma ZonesSwapped(lib: Lib, c: Config, zones: seq<string>)
    requires Valid(lib, c) && forall z <- zones :: ValidZone(z)
    ensures Valid(lib, c.(dnsblZones := zones))
  {
  }

  /** Zones written into the shared array show through in the cell, but what shows is valid. */
  lemma ReconfiguringGood(lib: Lib, d: State, s: Settings, spare: seq<string>)
    requires Valid(lib, d.live) && ZonesShown(d) && forall z <- s.zones :: ValidZone(z)
    ensures var n := Reconfiguring(d, s, spare);
            Valid(lib, n.live) && SameWiring(d.live, n.live) && ZonesShown(n)
  {
    var n := Reconfiguring(d, s, spare);
    if d.shared && |s.zones| <= |d.backing| {
      forall z <- n.live.dnsblZones ensures ValidZone(z) {
        var i :| 0 <= i < |n.live.dnsblZones| && n.live.dnsblZones[i] == z;
        if i < |s.zones| {
          assert z == s.zones[i];
        } else {
          assert z == d.backing[i] == d.live.dnsblZones[i];
        }
      }
      ZonesSwapped(lib, d.live, n.live.dnsblZones);
    }
  }

  lemma WiringKept(lib: Lib, d: State, n: State)
    requires WiringInv(lib, d) && n.startup == d.startup && n.live == d.live && n.shared == d.shared && n.backing == d.backing
    requires n.eg.settings == d.eg.settings && n.tc == d.tc
    ensures WiringInv(lib, n)
  {
  }

  lemma ThresholdKept(lib: Lib, d: State, n: State)
    requires ThresholdInv(lib, d) && n.poll == d.poll && n.polls == d.polls
    ensures ThresholdInv(lib, n)
  {
  }

  lemma ReloadsKept(lib: Lib, d: State, n: State)
    requires ReloadsInv(lib, d) && n.startup == d.startup && n.reloads == d.reloads && n.reports == d.reports
    ensures ReloadsInv(lib, n)
  {
  }

  lemma ThresholdTick(lib: Lib, d: State, now: int)
    requires Valid(lib, d.live) && ThresholdInv(lib, d)
    ensures ThresholdInv(lib, AfterTick(d, now))
  {
  }

  lemma ThresholdTunnel(lib: Lib, d: State, now: int, wg: string -> Option<string>)
    requires ThresholdInv(lib, d) && d.poll.Ticked?
    ensures ThresholdInv(lib, AfterPollTunnel(d, now, wg))
  {
  }

  lemma ThresholdInvalidate(lib: Lib, d: State)
    requires ThresholdInv(lib, d) && d.poll.Disproving?
    ensures ThresholdInv(lib, AfterPollInvalidate(d))
  {
  }

  lemma ThresholdEvaluate(lib: Lib, d: State, now: int, w: World)
    requires ThresholdInv(lib, d) && d.poll.Proving?
    ensures ThresholdInv(lib, AfterPollEvaluate(d, now, w))
  {
  }

  lemma ThresholdCycle(lib: Lib, d: State, now: int)
    requires ValidTargets(d.live.targets) && ThresholdInv(lib, d) && d.poll.Judging?
    ensures ThresholdInv(lib, AfterCycle(d, now))
  {
  }

  lemma ThresholdPoll(lib: Lib, d: State, a: Action)
    requires Valid(lib, d.live) && ThresholdInv(lib, d) && PollEnabled(d, a)
    ensures ThresholdInv(lib, PollNext(d, a))
  {
    match a {
      case Tick(now) => ThresholdTick(lib, d, now);
      case PollTunnel(now, wg) => ThresholdTunnel(lib, d, now, wg);
      case PollInvalidate => ThresholdInvalidate(lib, d);
      case PollEvaluate(now, w) => ThresholdEvaluate(lib, d, now, w);
      case PollCycle(now) => ThresholdCycle(lib, d, now);
      case PollProof =>
      case PollPublish(_) =>
    }
  }

  lemma ConfigPoll(lib: Lib, d: State, a: Action)
    requires ConfigInv(lib, d) && PollEnabled(d, a)
    ensures ConfigInv(lib, PollNext(d, a))
  {
    PollFrame(d, a);
    WiringKept(lib, d, PollNext(d, a));
    ThresholdPoll(lib, d, a);
    ReloadsKept(lib, d, PollNext(d, a));
  }

  lemma ConfigProbe(lib: Lib, d: State, n: State)
    requires ConfigInv(lib, d) && ProbeFramed(d, n)
    ensures ConfigInv(lib, n)
  {
    WiringKept(lib, d, n);
    ThresholdKept(lib, d, n);
    ReloadsKept(lib, d, n);
  }

  // ----- the steps of a reload ---------------------------------------------------------

  lemma ReportPrepared(startup: Config, live: Config, loaded: Config)
    requires SameWiring(startup, live)
    ensures ReportGood(startup, loaded, DiffOf(live, loaded))
  {
    forall k <- RESTART_KEYS ensures k in DiffOf(live, loaded) <==> Field(startup, k) != Field(loaded, k) {
      RestartKeyDiffers(live, loaded, k);
      RestartFieldWired(startup, live, k);
    }
  }

  lemma RestartFieldWired(c: Config, d: Config, k: Key)
    requires SameWiring(c, d) && k in RESTART_KEYS
    ensures Field(c, k) == Field(d, k)
  {
  }

  lemma PlanMade(lib: Lib, startup: Config, live: Config, loaded: Config)
    requires Valid(lib, loaded) && Valid(lib, live) && SameWiring(startup, live)
    ensures Effective(live, loaded) == Effective(startup, loaded)
    ensures PlanGood(lib, startup, loaded, Effective(live, loaded), DiffOf(live, loaded))
  {
    EffectiveValid(lib, live, loaded);
    ReportPrepared(startup, live, loaded);
  }

  /** Only the reload that moves changes. */
  lemma ReloadsMoved(lib: Lib, d: State, n: State, id: nat, pc: ReloadPc)
    requires ReloadsInv(lib, d) && ReloadGood(lib, d.startup, pc)
    requires n.startup == d.startup && n.reports == d.reports && n.reloads == d.reloads[id := pc]
    ensures ReloadsInv(lib, n)
  {
  }

  /** A reload that leaves may leave its report behind. */
  lemma ReloadsLeft(lib: Lib, d: State, n: State, id: nat)
    requires ReloadsInv(lib, d) && id in d.reloads && !d.reloads[id].Loaded?
    requires n.startup == d.startup && n.reloads == d.reloads - {id}
    requires n.reports == d.reports || n.reports == d.reports + [Report(d.reloads[id].loaded, d.reloads[id].changed)]
    ensures ReloadsInv(lib, n)
  {
    assert ReloadGood(lib, d.startup, d.reloads[id]);
  }

  lemma ReloadsPrepare(lib: Lib, d: State, id: nat)
    requires WiringInv(lib, d) && ReloadsInv(lib, d) && id in d.reloads && d.reloads[id].Loaded?
    ensures ReloadsInv(lib, AfterPrepare(d, id))
  {
    var n := AfterPrepare(d, id);
    assert ReloadGood(lib, d.startup, d.reloads[id]);
    PlanMade(lib, d.startup, d.live, d.reloads[id].loaded);
    ReloadsMoved(lib, d, n, id, n.reloads[id]);
  }

  lemma ReloadsEgress(lib: Lib, d: State, id: nat, spare: seq<string>)
    requires ReloadsInv(lib, d) && id in d.reloads && d.reloads[id].Prepared?
    ensures ReloadsInv(lib, AfterEgress(lib, d, id, spare))
  {
    var n, pc := AfterEgress(lib, d, id, spare), d.reloads[id];
    assert ReloadGood(lib, d.startup, pc);
    if Applicable(lib, pc.effective) {
      ReloadsMoved(lib, d, n, id, EgressDone(pc.loaded, pc.effective, pc.changed));
    } else {
      ReloadsLeft(lib, d, n, id);
    }
  }

  lemma ReloadsTunnel(lib: Lib, d: State, id: nat)
    requires ReloadsInv(lib, d) && id in d.reloads && d.reloads[id].EgressDone?
    ensures ReloadsInv(lib, AfterTunnel(lib, d, id))
  {
    var n, pc := AfterTunnel(lib, d, id), d.reloads[id];
    assert ReloadGood(lib, d.startup, pc);
    if lib.parseDuration(pc.effective.maxHandshakeAge).Some? {
      ReloadsMoved(lib, d, n, id, TunnelDone(pc.loaded, pc.effective, pc.changed));
    } else {
      ReloadsLeft(lib, d, n, id);
    }
  }

  lemma ReloadsLoad(lib: Lib, d: State, id: nat, file: ConfigFile)
    requires ReloadsInv(lib, d)
    ensures ReloadsInv(lib, AfterLoad(lib, d, id, file))
  {
    var n, load := AfterLoad(lib, d, id, file), LoadConfig(file);
    if load.Success? && Valid(lib, load.value) {
      ReloadsMoved(lib, d, n, id, Loaded(load.value));
    }
  }

  lemma ReloadsReload(lib: Lib, d: State, a: Action)
    requires WiringInv(lib, d) && ReloadsInv(lib, d) && ReloadEnabled(d, a)
    ensures ReloadsInv(lib, ReloadNext(lib, d, a))
  {
    match a {
      case ReloadLoad(id, file) => ReloadsLoad(lib, d, id, file);
      case ReloadPrepare(id) => ReloadsPrepare(lib, d, id);
      case ReloadEgress(id, spare) => ReloadsEgress(lib, d, id, spare);
      case ReloadTunnel(id) => ReloadsTunnel(lib, d, id);
      case ReloadInstall(id) => ReloadsLeft(lib, d, AfterInstall(d, id), id);
    }
  }

  lemma WiringEgress(lib: Lib, d: State, id: nat, spare: seq<string>)
    requires WiringInv(lib, d) && id in d.reloads && d.reloads[id].Prepared?
    requires ReloadGood(lib, d.startup, d.reloads[id])
    ensures WiringInv(lib, AfterEgress(lib, d, id, spare))
  {
    var c := d.reloads[id].effective;
    if Applicable(lib, c) {
      ReconfiguringGood(lib, d, SettingsOf(lib, c).value, spare);
    }
  }

  lemma WiringTunnel(lib: Lib, d: State, id: nat)
    requires WiringInv(lib, d) && ReloadsInv(lib, d) && id in d.reloads && d.reloads[id].EgressDone?
    ensures WiringInv(lib, AfterTunnel(lib, d, id))
  {
    CarriedGood(lib, d, id);
  }

  lemma WiringInstall(lib: Lib, d: State, id: nat)
    requires WiringInv(lib, d) && id in d.reloads && d.reloads[id].TunnelDone?
    requires ReloadGood(lib, d.startup, d.reloads[id])
    ensures WiringInv(lib, AfterInstall(d, id))
  {
  }

  lemma WiringReload(lib: Lib, d: State, a: Action)
    requires WiringInv(lib, d) && ReloadsInv(lib, d) && ReloadEnabled(d, a)
    ensures WiringInv(lib, ReloadNext(lib, d, a))
  {
    match a {
      case ReloadLoad(id, file) => WiringKept(lib, d, AfterLoad(lib, d, id, file));
      case ReloadPrepare(id) => WiringKept(lib, d, AfterPrepare(d, id));
      case ReloadEgress(id, spare) => WiringEgress(lib, d, id, spare);
      case ReloadTunnel(id) => WiringTunnel(lib, d, id);
      case ReloadInstall(id) => WiringInstall(lib, d, id);
    }
  }

  lemma ConfigReload(lib: Lib, d: State, a: Action)
    requires ConfigInv(lib, d) && ReloadEnabled(d, a)
    ensures ConfigInv(lib, ReloadNext(lib, d, a))
  {
    ReloadFrame(lib, d, a);
    WiringReload(lib, d, a);
    ThresholdKept(lib, d, ReloadNext(lib, d, a));
    ReloadsReload(lib, d, a);
  }

  // ----- agreement of the checkers with the cell --------------------------------------

  predicate Touching(pc: ReloadPc) {
    pc.EgressDone? || pc.TunnelDone?
  }

  /** What a reload that has begun to touch the checkers has left in them. */
  ghost predicate LeftBehind(lib: Lib, d: State, pc: ReloadPc)
    requires Touching(pc)
  {
    && SettingsOf(lib, pc.effective) == Some(d.eg.settings)
    && pc.effective.interface == d.tc.iface
    && (pc.TunnelDone? ==> TunnelOf(lib, pc.effective) == Some(d.tc))
  }

  ghost predicate AgreeInv(lib: Lib, d: State) {
    !d.overlapped ==>
      && (forall i, j | i in d.reloads && j in d.reloads :: i == j)
      && ((forall id <- d.reloads :: !Touching(d.reloads[id])) ==> Agrees(lib, d.live, d.eg.settings, d.tc))
      && (forall id <- d.reloads | Touching(d.reloads[id]) :: LeftBehind(lib, d, d.reloads[id]))
  }

  lemma AgreeKept(lib: Lib, d: State, n: State)
    requires AgreeInv(lib, d) && SameConfiguration(d, n)
    ensures AgreeInv(lib, n)
  {
  }

  lemma AgreeLoad(lib: Lib, d: State, id: nat, file: ConfigFile)
    requires AgreeInv(lib, d) && id !in d.reloads
    ensures AgreeInv(lib, AfterLoad(lib, d, id, file))
  {
    assert d.reloads != map[] || forall i :: i !in d.reloads;
  }

  lemma AgreePrepare(lib: Lib, d: State, id: nat)
    requires AgreeInv(lib, d) && id in d.reloads && d.reloads[id].Loaded?
    ensures AgreeInv(lib, AfterPrepare(d, id))
  {
  }

  lemma AgreeEgress(lib: Lib, d: State, id: nat, spare: seq<string>)
    requires AgreeInv(lib, d) && id in d.reloads && d.reloads[id].Prepared?
    requires d.reloads[id].effective.interface == d.tc.iface
    ensures AgreeInv(lib, AfterEgress(lib, d, id, spare))
  {
    var n := AfterEgress(lib, d, id, spare);
    if !d.overlapped {
      assert forall i <- d.reloads :: i == id;
      if Applicable(lib, d.reloads[id].effective) {
        assert id in n.reloads && Touching(n.reloads[id]);
      } else {
        assert n.reloads == map[];
      }
    }
  }

  /** tc.Apply cannot refuse what validation has passed. */
  lemma AgreeTunnel(lib: Lib, d: State, id: nat)
    requires AgreeInv(lib, d) && id in d.reloads && d.reloads[id].EgressDone?
    requires lib.parseDuration(d.reloads[id].effective.maxHandshakeAge).Some?
    ensures AgreeInv(lib, AfterTunnel(lib, d, id))
  {
    var n := AfterTunnel(lib, d, id);
    if !d.overlapped {
      assert forall i <- d.reloads :: i == id;
      assert id in n.reloads && Touching(n.reloads[id]);
    }
  }

  lemma AgreeInstall(lib: Lib, d: State, id: nat)
    requires AgreeInv(lib, d) && id in d.reloads && d.reloads[id].TunnelDone?
    ensures AgreeInv(lib, AfterInstall(d, id))
    ensures !d.overlapped ==> Agrees(lib, d.reloads[id].effective, d.eg.settings, d.tc)
  {
    assert Touching(d.reloads[id]);
  }

  /** What a reload carries keeps the start-up interface and a readable age. */
  lemma CarriedGood(lib: Lib, d: State, id: nat)
    requires WiringInv(lib, d) && ReloadsInv(lib, d) && id in d.reloads && !d.reloads[id].Loaded?
    ensures d.reloads[id].effective.interface == d.tc.iface
    ensures var age := lib.parseDuration(d.reloads[id].effective.maxHandshakeAge); age.Some? && age.value > 0
  {
    assert ReloadGood(lib, d.startup, d.reloads[id]);
  }

  lemma AgreeReload(lib: Lib, d: State, a: Action)
    requires WiringInv(lib, d) && ReloadsInv(lib, d) && AgreeInv(lib, d) && ReloadEnabled(d, a)
    ensures AgreeInv(lib, ReloadNext(lib, d, a))
  {
    match a {
      case ReloadLoad(id, file) => AgreeLoad(lib, d, id, file);
      case ReloadPrepare(id) => AgreePrepare(lib, d, id);
      case ReloadEgress(id, spare) =>
        CarriedGood(lib, d, id);
        AgreeEgress(lib, d, id, spare);
      case ReloadTunnel(id) =>
        CarriedGood(lib, d, id);
        AgreeTunnel(lib, d, id);
      case ReloadInstall(id) => AgreeInstall(lib, d, id);
    }
  }
}
