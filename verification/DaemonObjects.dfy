/** The shared objects follow the transition system: each locked operation takes the objects of a state to those of the next. */
module DaemonObjects {
  import opened Wrappers
  import opened Config
  import opened ConfigOps
  import opened Agent
  import opened Egress
  import opened Tunnel
  import opened Watchdog
  import opened Reload
  import opened Daemon

  /** The objects hold the state, and share the zone array exactly when the state says so. */
  ghost predicate Represents(d: State, live: Live, tc: TunnelChecker, eg: EgressChecker, store: Store)
    reads live, live.zones, tc, eg, eg.zones, store
  {
    && live.Valid() && eg.Valid()
    && live.View() == d.live && eg.View() == d.eg && tc.View() == d.tc && store.View() == d.store
    && eg.zones[..] == d.backing && (d.shared <==> live.zones == eg.zones)
  }

  /** Start-up: the cell is filled and the checkers are built from it, sharing its zones. */
  method StartDaemon(lib: Lib, c: Config, now: int)
    returns (live: Live, tc: TunnelChecker, eg: EgressChecker, store: Store, ghost d: State)
    requires Valid(lib, c) && Normalised(c) == c
    ensures live.Valid() && eg.Valid() && live.View() == c && eg.zones == live.zones
    ensures Agrees(lib, c, eg.View().settings, tc.View()) && store.View() == INITIAL
    ensures Daemon.Initial(lib, d) && d.startup == c && d.clock == now
    ensures Represents(d, live, tc, eg, store)
  {
    var zones := new string[|c.dnsblZones|](i requires 0 <= i < |c.dnsblZones| => c.dnsblZones[i]);
    assert zones[..] == c.dnsblZones;
    live := new Live(c, zones, zones.Length);
    tc, eg := BuildCheckers(lib, c, live);
    store := new Store();
    d := State(c, c, true, zones[..], eg.View(), tc.View(), INITIAL, START, Waiting, map[], map[], false, now, [], [], []);
  }

  // ----- polls and probes -------------------------------------------------------------

  method CheckTunnel(ghost d: State, live: Live, tc: TunnelChecker, eg: EgressChecker, store: Store,
                     now: int, wg: string -> Option<string>)
    returns (ok: bool, reason: Reason)
    requires Represents(d, live, tc, eg, store)
    ensures ok == CheckPasses(d.tc, wg, now) && reason == CheckReason(d.tc, wg, now)
    ensures d.poll.Ticked? ==>
              var n, c := AfterPollTunnel(d, now, wg), d.poll.config;
              && Represents(n, live, tc, eg, store)
              && n.poll == if !ok then Disproving(d.poll.tick, c, reason)
                           else if c.verifyEgress then Proving(d.poll.tick, c)
                           else Judging(d.poll.tick, Poll(true, false, false, c.downCyclesToKill, reason), None)
  {
    ok, reason := tc.Check(wg, now);
    SilentWhenPassing(d.tc, wg(d.tc.iface), now / SECOND);
  }

  method InvalidateProof(ghost d: State, live: Live, tc: TunnelChecker, eg: EgressChecker, store: Store)
    requires Represents(d, live, tc, eg, store)
    modifies eg`cache
    ensures Represents(Clearing(d), live, tc, eg, store)
    ensures d.poll.Disproving? ==>
              var n, c := AfterPollInvalidate(d), d.poll.config;
              && Represents(n, live, tc, eg, store) && n.poll.Judging? && n.poll.tick == d.poll.tick
              && n.poll.poll == Poll(false, c.verifyEgress, false, c.downCyclesToKill, d.poll.reason)
  {
    eg.Invalidate();
  }

  method EvaluateProof(ghost d: State, live: Live, tc: TunnelChecker, eg: EgressChecker, store: Store,
                       force: bool, now: int, w: World)
    returns (r: Evaluation)
    requires Represents(d, live, tc, eg, store)
    modifies eg`client, eg`cache
    ensures r == Evaluating(d, force, now, w).1 && Represents(Evaluating(d, force, now, w).0, live, tc, eg, store)
    ensures d.poll.Proving? && !force ==>
              var n := AfterPollEvaluate(d, now, w);
              && Represents(n, live, tc, eg, store) && n.poll.Judging? && n.poll.tick == d.poll.tick
              && n.poll.poll == Poll(true, true, r.ok, d.poll.config.downCyclesToKill, r.reason)
  {
    r := eg.Evaluate(force, now, w);
  }

  /** The last two steps of a poll: reading the proof and publishing it with the state of the machine. */
  method PublishPoll(ghost d: State, live: Live, tc: TunnelChecker, eg: EgressChecker, store: Store,
                     wd: WdState, reason: Reason, now: int)
    requires Represents(d, live, tc, eg, store) && d.poll == Cycled(reason) && wd == d.wd
    modifies store
    ensures Represents(AfterPollPublish(AfterProof(d), now), live, tc, eg, store)
    ensures store.View() == Status(wd.announced, wd.streak, reason, eg.cache.lastIP, eg.cache.lastCountry, Some(now))
  {
    var ip, country, probed := eg.Proof();
    store.Set(wd.announced, wd.streak, reason, ip, country, now);
  }

  // ----- a reload ---------------------------------------------------------------------------

  method PrepareReload(ghost d: State, id: nat, live: Live, tc: TunnelChecker, eg: EgressChecker, store: Store, loaded: Config)
    returns (effective: Config, changed: seq<Key>)
    requires Represents(d, live, tc, eg, store) && id in d.reloads && d.reloads[id] == Loaded(loaded)
    ensures Represents(AfterPrepare(d, id), live, tc, eg, store)
    ensures AfterPrepare(d, id).reloads[id] == Prepared(loaded, effective, changed)
  {
    var current := live.Get();
    changed := DiffKeys(current, loaded);
    effective := Effective(current, loaded);
  }

  /** eg.Apply: the in-place write shows through in the cell exactly as the transition says. */
  method ReloadEgressChecker(lib: Lib, ghost d: State, id: nat, live: Live, tc: TunnelChecker, eg: EgressChecker, store: Store,
                             effective: Config)
    returns (ok: bool, ghost spare: seq<string>)
    requires Represents(d, live, tc, eg, store)
    requires id in d.reloads && d.reloads[id].Prepared? && effective == d.reloads[id].effective
    modifies eg, eg.zones
    ensures ok == Applicable(lib, effective)
    ensures Represents(AfterEgress(lib, d, id, spare), live, tc, eg, store)
  {
    ok := eg.Apply(lib, effective);
    spare := if |effective.dnsblZones| <= |d.backing| || !ok then [] else eg.zones[|effective.dnsblZones|..];
  }

  method ReloadTunnelChecker(lib: Lib, ghost d: State, id: nat, live: Live, tc: TunnelChecker, eg: EgressChecker, store: Store,
                             effective: Config)
    returns (ok: bool)
    requires Represents(d, live, tc, eg, store)
    requires id in d.reloads && d.reloads[id].EgressDone? && effective == d.reloads[id].effective
    modifies tc
    ensures ok == lib.parseDuration(effective.maxHandshakeAge).Some?
    ensures Represents(AfterTunnel(lib, d, id), live, tc, eg, store)
  {
    ok := tc.Apply(lib, effective);
  }

  /** live.Set: the decoder made the new configuration's zones for it alone, so the sharing ends. */
  method InstallConfig(ghost d: State, id: nat, live: Live, tc: TunnelChecker, eg: EgressChecker, store: Store, effective: Config)
    requires Represents(d, live, tc, eg, store)
    requires id in d.reloads && d.reloads[id].TunnelDone? && effective == d.reloads[id].effective
    modifies live
    ensures Represents(AfterInstall(d, id), live, tc, eg, store)
  {
    var zones := effective.dnsblZones;
    var decoded := new string[|zones|](i requires 0 <= i < |zones| => zones[i]);
    assert decoded[..] == zones;
    live.Set(effective, decoded);
  }
}
