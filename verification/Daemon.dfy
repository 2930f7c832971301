/**
 The running daemon as a transition system. The poll loop, any number of
 forced probes and any number of reloads interleave at the steps their locks
 make atomic; every answer of the outside world comes with the action.
 */
module Daemon {
  import opened Wrappers
  import opened Config
  import opened ConfigOps
  import opened Agent
  import opened Egress
  import opened Tunnel
  import opened Watchdog
  import opened Reload

  /** Where the poll loop stands. */
  datatype PollPc =
    | Waiting
    | Ticked(tick: int, config: Config)                    // configuration read, tunnel check next
    | Disproving(tick: int, config: Config, reason: Reason) // tunnel failed, Invalidate next
    | Proving(tick: int, config: Config)                   // tunnel passed, evaluate next
    | Judging(tick: int, poll: Poll, mark: Option<nat>)    // cycle next
    | Cycled(reason: Reason)                               // Proof next
    | Publishing(reason: Reason, ip: string, country: string)

  /**
   Where a forced probe stands: `asked` is the length of the history when the
   request came in, `verify` is from its configuration snapshot, and its mark is
   the event it left on the egress checker.
   */
  datatype ProbePc =
    | Asked(asked: nat, verify: bool)
    | Failing(asked: nat, reason: Reason)
    | Passing(asked: nat)
    | Answering(asked: nat, verify: bool, tunnelOK: bool, reason: Reason, evaluation: Evaluation, mark: Option<nat>)

  /** Where a reload stands. */
  datatype ReloadPc =
    | Loaded(loaded: Config)
    | Prepared(loaded: Config, effective: Config, changed: seq<Key>)
    | EgressDone(loaded: Config, effective: Config, changed: seq<Key>)
    | TunnelDone(loaded: Config, effective: Config, changed: seq<Key>)

  /** What happened to the egress checker, in order. */
  datatype Event =
    | Probed(at: int, force: bool, settings: Settings, world: World, ok: bool)
    | Cleared
    | Reconfigured
    | Verdict(tick: int, at: int, settings: Settings, ok: bool) // handed to the poll begun at `tick`

  /**
   A completed poll: begun at `tick`, judged at `at`. Its mark is the event it
   left on the egress checker: the verdict it was given, or the invalidation
   it ordered. Its targets are those the killer read, if it ran.
   */
  datatype PollRecord = PollRecord(
    tick: int, at: int, poll: Poll, killed: bool, targets: seq<string>, mark: Option<nat>)

  /** A successful reload, with the keys it reported as changed. */
  datatype Report = Report(loaded: Config, changed: seq<Key>)

  datatype State = State(
    startup: Config,
    live: Config,          // as a reader of the cell sees it
    shared: bool,          // its zones still lie in the egress checker's backing array
    backing: seq<string>,  // that array, to its full capacity
    eg: EgressState,
    tc: TunnelState,
    store: Status,
    wd: WdState,
    poll: PollPc,
    probes: map<nat, ProbePc>,
    reloads: map<nat, ReloadPc>,
    overlapped: bool,      // two reloads have been under way at once
    clock: int,
    events: seq<Event>,
    polls: seq<PollRecord>,
    reports: seq<Report>)

  datatype Action =
    | Tick(now: int)
    | PollTunnel(now: int, wg: string -> Option<string>)
    | PollInvalidate
    | PollEvaluate(now: int, world: World)
    | PollCycle(now: int)
    | PollProof
    | PollPublish(now: int)
    | ProbeStart(id: nat)
    | ProbeTunnel(id: nat, now: int, wg: string -> Option<string>)
    | ProbeInvalidate(id: nat)
    | ProbeEvaluate(id: nat, now: int, world: World)
    | ProbePublish(id: nat, now: int)
    | ReloadLoad(id: nat, file: ConfigFile)
    | ReloadPrepare(id: nat)
    | ReloadEgress(id: nat, spare: seq<string>)
    | ReloadTunnel(id: nat)
    | ReloadInstall(id: nat)

  /** Start-up on a loaded, validated configuration: the checkers agree with it and the zone array is shared. */
  ghost predicate Initial(lib: Lib, d: State) {
    && Valid(lib, d.startup) && Normalised(d.startup) == d.startup
    && d.live == d.startup && d.shared
    && |d.startup.dnsblZones| <= |d.backing| && d.backing[..|d.startup.dnsblZones|] == d.startup.dnsblZones
    && SettingsOf(lib, d.startup).Some? && d.eg == Egress.Initial(SettingsOf(lib, d.startup).value)
    && TunnelOf(lib, d.startup) == Some(d.tc)
    && d.store == INITIAL && d.wd == START && d.poll == Waiting
    && d.probes == map[] && d.reloads == map[] && !d.overlapped
    && d.events == [] && d.polls == [] && d.reports == []
  }

  // ----- the egress steps -----------------------------------------------------------

  /** evaluate, with the probe it may make put on record. */
  function Evaluating(d: State, force: bool, now: int, w: World): (State, Evaluation) {
    var (e, r) := Evaluated(d.eg, force, now, w);
    (d.(eg := e, clock := now,
        events := if r.probed then d.events + [Probed(now, force, d.eg.settings, w, r.ok)] else d.events), r)
  }

  function Clearing(d: State): State {
    d.(eg := Invalidated(d.eg), events := d.events + [Cleared])
  }

  /**
   eg.Apply: the zones go into the backing array when it is large enough, and
   show through in the cell while the cell still shares it; otherwise the
   checker moves to a new array with some spare room.
   */
  function Reconfiguring(d: State, s: Settings, spare: seq<string>): State {
    var fits := |s.zones| <= |d.backing|;
    var backing := if fits then s.zones + d.backing[|s.zones|..] else s.zones + spare;
    var live := if fits && d.shared && |d.live.dnsblZones| <= |backing|
      then d.live.(dnsblZones := backing[..|d.live.dnsblZones|]) else d.live;
    d.(eg := Egress.Initial(s), backing := backing, live := live, shared := d.shared && fits,
       events := d.events + [Reconfigured])
  }

  // ----- enabled actions and their effect ------------------------------------------------

  predicate PollEnabled(d: State, a: Action) {
    match a
    case Tick(now) => d.poll.Waiting? && d.clock <= now
    case PollTunnel(now, _) => d.poll.Ticked? && d.clock <= now
    case PollInvalidate => d.poll.Disproving?
    case PollEvaluate(now, _) => d.poll.Proving? && d.clock <= now
    case PollCycle(now) => d.poll.Judging? && d.clock <= now
    case PollProof => d.poll.Cycled?
    case PollPublish(now) => d.poll.Publishing? && d.clock <= now
    case _ => false
  }

  predicate ProbeEnabled(d: State, a: Action) {
    match a
    case ProbeStart(id) => id !in d.probes
    case ProbeTunnel(id, now, _) => id in d.probes && d.probes[id].Asked? && d.clock <= now
    case ProbeInvalidate(id) => id in d.probes && d.probes[id].Failing?
    case ProbeEvaluate(id, now, _) => id in d.probes && d.probes[id].Passing? && d.clock <= now
    case ProbePublish(id, now) => id in d.probes && d.probes[id].Answering? && d.clock <= now
    case _ => false
  }

  predicate ReloadEnabled(d: State, a: Action) {
    match a
    case ReloadLoad(id, _) => id !in d.reloads
    case ReloadPrepare(id) => id in d.reloads && d.reloads[id].Loaded?
    case ReloadEgress(id, _) => id in d.reloads && d.reloads[id].Prepared?
    case ReloadTunnel(id) => id in d.reloads && d.reloads[id].EgressDone?
    case ReloadInstall(id) => id in d.reloads && d.reloads[id].TunnelDone?
    case _ => false
  }

  predicate Enabled(d: State, a: Action) {
    PollEnabled(d, a) || ProbeEnabled(d, a) || ReloadEnabled(d, a)
  }

  function AfterTick(d: State, now: int): State {
    d.(clock := now, poll := Ticked(now, d.live))
  }

  function AfterPollTunnel(d: State, now: int, wg: string -> Option<string>): State
    requires d.poll.Ticked?
  {
    var (tick, c) := (d.poll.tick, d.poll.config);
    d.(clock := now,
       poll := if !CheckPasses(d.tc, wg, now) then Disproving(tick, c, CheckReason(d.tc, wg, now))
               else if c.verifyEgress then Proving(tick, c)
               else Judging(tick, Poll(true, false, false, c.downCyclesToKill, NoReason), None))
  }

  function AfterPollInvalidate(d: State): State
    requires d.poll.Disproving?
  {
    var (tick, c) := (d.poll.tick, d.poll.config);
    Clearing(d).(poll := Judging(tick, Poll(false, c.verifyEgress, false, c.downCyclesToKill, d.poll.reason), Some(|d.events|)))
  }

  function AfterPollEvaluate(d: State, now: int, w: World): State
    requires d.poll.Proving?
  {
    var (tick, c) := (d.poll.tick, d.poll.config);
    var (n, r) := Evaluating(d, false, now, w);
    n.(events := n.events + [Verdict(tick, now, d.eg.settings, r.ok)],
       poll := Judging(tick, Poll(true, true, r.ok, c.downCyclesToKill, r.reason), Some(|n.events|)))
  }

  /** cycle; the killer reads the targets of the cell, not those the poll began with. */
  function AfterCycle(d: State, now: int): State
    requires d.poll.Judging?
  {
    var step := Cycle(d.wd, d.poll.poll);
    d.(clock := now, wd := step.state, poll := Cycled(d.poll.poll.reason),
       polls := d.polls + [PollRecord(d.poll.tick, now, d.poll.poll, step.killed,
                                      if step.killed then d.live.targets else [], d.poll.mark)])
  }

  function AfterProof(d: State): State
    requires d.poll.Cycled?
  {
    d.(poll := Publishing(d.poll.reason, d.eg.cache.lastIP, d.eg.cache.lastCountry))
  }

  function AfterPollPublish(d: State, now: int): State
    requires d.poll.Publishing?
  {
    d.(clock := now, poll := Waiting,
       store := Written(d.store, PollWrite(d.wd.announced, d.wd.streak, d.poll.reason, d.poll.ip, d.poll.country, now)))
  }

  function PollNext(d: State, a: Action): State
    requires PollEnabled(d, a)
  {
    match a
    case Tick(now) => AfterTick(d, now)
    case PollTunnel(now, wg) => AfterPollTunnel(d, now, wg)
    case PollInvalidate => AfterPollInvalidate(d)
    case PollEvaluate(now, w) => AfterPollEvaluate(d, now, w)
    case PollCycle(now) => AfterCycle(d, now)
    case PollProof => AfterProof(d)
    case PollPublish(now) => AfterPollPublish(d, now)
  }

  function AfterProbeStart(d: State, id: nat): State {
    d.(probes := d.probes[id := Asked(|d.events|, d.live.verifyEgress)])
  }

  function AfterProbeTunnel(d: State, id: nat, now: int, wg: string -> Option<string>): State
    requires id in d.probes && d.probes[id].Asked?
  {
    var (asked, verify) := (d.probes[id].asked, d.probes[id].verify);
    d.(clock := now,
       probes := d.probes[id :=
         if !CheckPasses(d.tc, wg, now) then Failing(asked, CheckReason(d.tc, wg, now))
         else if verify then Passing(asked)
         else Answering(asked, false, true, NoReason, NOT_EVALUATED, None)])
  }

  function AfterProbeInvalidate(d: State, id: nat): State
    requires id in d.probes && d.probes[id].Failing?
  {
    var pc := d.probes[id];
    Clearing(d).(probes := d.probes[id := Answering(pc.asked, false, false, pc.reason, NOT_EVALUATED, Some(|d.events|))])
  }

  function AfterProbeEvaluate(d: State, id: nat, now: int, w: World): State
    requires id in d.probes && d.probes[id].Passing?
  {
    var (n, r) := Evaluating(d, true, now, w);
    n.(probes := d.probes[id := Answering(d.probes[id].asked, true, true, NoReason, r, Some(|d.events|))])
  }

  function AfterProbePublish(d: State, id: nat, now: int): State
    requires id in d.probes && d.probes[id].Answering?
  {
    var pc := d.probes[id];
    d.(clock := now, probes := d.probes - {id},
       store := Written(d.store, ProbeWriteOf(pc.verify, pc.tunnelOK, pc.reason, pc.evaluation, now)))
  }

  function ProbeNext(d: State, a: Action): State
    requires ProbeEnabled(d, a)
  {
    match a
    case ProbeStart(id) => AfterProbeStart(d, id)
    case ProbeTunnel(id, now, wg) => AfterProbeTunnel(d, id, now, wg)
    case ProbeInvalidate(id) => AfterProbeInvalidate(d, id)
    case ProbeEvaluate(id, now, w) => AfterProbeEvaluate(d, id, now, w)
    case ProbePublish(id, now) => AfterProbePublish(d, id, now)
  }

  function AfterLoad(lib: Lib, d: State, id: nat, file: ConfigFile): State {
    var load := LoadConfig(file);
    if load.Success? && Valid(lib, load.value) then
      d.(reloads := d.reloads[id := Loaded(load.value)], overlapped := d.overlapped || d.reloads != map[])
    else d
  }

  function AfterPrepare(d: State, id: nat): State
    requires id in d.reloads
  {
    var loaded := d.reloads[id].loaded;
    d.(reloads := d.reloads[id := Prepared(loaded, Effective(d.live, loaded), DiffOf(d.live, loaded))])
  }

  function AfterEgress(lib: Lib, d: State, id: nat, spare: seq<string>): State
    requires id in d.reloads && d.reloads[id].Prepared?
  {
    var pc := d.reloads[id];
    if Applicable(lib, pc.effective) then
      Reconfiguring(d, SettingsOf(lib, pc.effective).value, spare)
        .(reloads := d.reloads[id := EgressDone(pc.loaded, pc.effective, pc.changed)])
    else d.(reloads := d.reloads - {id})
  }

  function AfterTunnel(lib: Lib, d: State, id: nat): State
    requires id in d.reloads && d.reloads[id].EgressDone?
  {
    var pc := d.reloads[id];
    if lib.parseDuration(pc.effective.maxHandshakeAge).Some? then
      d.(tc := Applied(d.tc, lib, pc.effective), reloads := d.reloads[id := TunnelDone(pc.loaded, pc.effective, pc.changed)])
    else d.(reloads := d.reloads - {id})
  }

  function AfterInstall(d: State, id: nat): State
    requires id in d.reloads && d.reloads[id].TunnelDone?
  {
    var pc := d.reloads[id];
    d.(live := pc.effective, shared := false, reloads := d.reloads - {id},
       reports := d.reports + [Report(pc.loaded, pc.changed)])
  }

  function ReloadNext(lib: Lib, d: State, a: Action): State
    requires ReloadEnabled(d, a)
  {
    match a
    case ReloadLoad(id, file) => AfterLoad(lib, d, id, file)
    case ReloadPrepare(id) => AfterPrepare(d, id)
    case ReloadEgress(id, spare) => AfterEgress(lib, d, id, spare)
    case ReloadTunnel(id) => AfterTunnel(lib, d, id)
    case ReloadInstall(id) => AfterInstall(d, id)
  }

  function Next(lib: Lib, d: State, a: Action): State
    requires Enabled(d, a)
  {
    if PollEnabled(d, a) then PollNext(d, a)
    else if ProbeEnabled(d, a) then ProbeNext(d, a)
    else ReloadNext(lib, d, a)
  }

  /** States linked by enabled actions. */
  ghost predicate IsPath(lib: Lib, path: seq<State>, actions: seq<Action>) {
    && |path| == |actions| + 1
    && forall i | 0 <= i < |actions| :: Enabled(path[i], actions[i]) && path[i + 1] == Next(lib, path[i], actions[i])
  }

  /** A run: a path from start-up on. */
  ghost predicate IsRun(lib: Lib, run: seq<State>, actions: seq<Action>) {
    IsPath(lib, run, actions) && Initial(lib, run[0])
  }

  ghost predicate Reachable(lib: Lib, d: State) {
    exists run, actions :: IsRun(lib, run, actions) && run[|run| - 1] == d
  }
}
