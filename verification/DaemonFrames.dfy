/** What each kind of step leaves alone. */
module DaemonFrames {
  import opened Wrappers
  import opened Config
  import opened Egress
  import opened Daemon

  /** Everything reloads work on. */
  ghost predicate SameConfiguration(d: State, n: State) {
    && n.startup == d.startup && n.live == d.live && n.shared == d.shared && n.backing == d.backing
    && n.eg.settings == d.eg.settings && n.tc == d.tc
    && n.reloads == d.reloads && n.overlapped == d.overlapped && n.reports == d.reports
  }

  /** Everything the poll loop works on, but for the event history and the clock. */
  ghost predicate SamePolling(d: State, n: State) {
    n.wd == d.wd && n.poll == d.poll && n.polls == d.polls && n.store.streak == d.store.streak
  }

  ghost predicate Later(d: State, n: State) {
    d.clock <= n.clock && |d.events| <= |n.events| && n.events[..|d.events|] == d.events
  }

  ghost predicate PollFramed(d: State, n: State) {
    SameConfiguration(d, n) && Later(d, n) && n.probes == d.probes
  }

  lemma EvaluateFrame(d: State, now: int, w: World)
    requires d.poll.Proving? && d.clock <= now
    ensures PollFramed(d, AfterPollEvaluate(d, now, w))
  {
  }

  lemma CheckFrame(d: State, now: int, wg: string -> Option<string>)
    requires d.poll.Ticked? && d.clock <= now
    ensures PollFramed(d, AfterPollTunnel(d, now, wg))
  {
  }

  lemma InvalidateFrame(d: State)
    requires d.poll.Disproving?
    ensures PollFramed(d, AfterPollInvalidate(d))
  {
  }

  lemma CycleFrame(d: State, now: int)
    requires d.poll.Judging? && d.clock <= now
    ensures PollFramed(d, AfterCycle(d, now))
  {
  }

  lemma PublishFrame(d: State, now: int)
    requires d.poll.Publishing? && d.clock <= now
    ensures PollFramed(d, AfterPollPublish(d, now))
  {
  }

  lemma PollFrame(d: State, a: Action)
    requires PollEnabled(d, a)
    ensures PollFramed(d, PollNext(d, a))
  {
    match a {
      case Tick(now) =>
      case PollTunnel(now, wg) => CheckFrame(d, now, wg);
      case PollInvalidate => InvalidateFrame(d);
      case PollEvaluate(now, w) => EvaluateFrame(d, now, w);
      case PollCycle(now) => CycleFrame(d, now);
      case PollProof =>
      case PollPublish(now) => PublishFrame(d, now);
    }
  }

  /** Steps that do not touch the egress checker only let time pass for it. */
  lemma PollQuiet(d: State, a: Action)
    requires PollEnabled(d, a) && !a.PollInvalidate? && !a.PollEvaluate?
    ensures var n := PollNext(d, a); n.eg == d.eg && n.events == d.events && d.clock <= n.clock
  {
  }

  /** Whether the poll under way has been judged but not yet published. */
  predicate Unpublished(pc: PollPc) {
    pc.Cycled? || pc.Publishing?
  }

  lemma PollPhase(d: State, a: Action)
    requires PollEnabled(d, a) && !a.PollCycle? && !a.PollPublish?
    ensures var n := PollNext(d, a);
            n.polls == d.polls && n.store == d.store && Unpublished(n.poll) == Unpublished(d.poll)
  {
  }

  ghost predicate ProbeFramed(d: State, n: State) {
    SameConfiguration(d, n) && Later(d, n) && SamePolling(d, n)
  }

  lemma ForcedFrame(d: State, id: nat, now: int, w: World)
    requires ProbeEnabled(d, ProbeEvaluate(id, now, w))
    ensures ProbeFramed(d, AfterProbeEvaluate(d, id, now, w))
  {
  }

  lemma ProbeFrame(d: State, a: Action)
    requires ProbeEnabled(d, a)
    ensures ProbeFramed(d, ProbeNext(d, a))
  {
    match a {
      case ProbeEvaluate(id, now, w) => ForcedFrame(d, id, now, w);
      case ProbeStart(_) =>
      case ProbeTunnel(_, _, _) =>
      case ProbeInvalidate(_) =>
      case ProbePublish(_, _) =>
    }
  }

  ghost predicate ReloadFramed(d: State, n: State) {
    SamePolling(d, n) && Later(d, n) && n.probes == d.probes && n.startup == d.startup
  }

  lemma EgressFrame(lib: Lib, d: State, id: nat, spare: seq<string>)
    requires ReloadEnabled(d, ReloadEgress(id, spare))
    ensures ReloadFramed(d, AfterEgress(lib, d, id, spare))
  {
  }

  lemma ReloadFrame(lib: Lib, d: State, a: Action)
    requires ReloadEnabled(d, a)
    ensures ReloadFramed(d, ReloadNext(lib, d, a))
  {
    if a.ReloadEgress? {
      EgressFrame(lib, d, a.id, a.spare);
    }
  }
}
