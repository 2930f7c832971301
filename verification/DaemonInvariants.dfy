/** The inductive invariants of the daemon, one concern at a time. */
module DaemonInvariants {
  import opened Wrappers
  import opened Config
  import opened Egress
  import opened Watchdog
  import opened Daemon
  import opened DaemonCache
  import opened DaemonFrames

  // ----- polls -------------------------------------------------------------------

  function PollsIn(rs: seq<PollRecord>): (ps: seq<Poll>)
    ensures |ps| == |rs| && forall i | 0 <= i < |ps| :: ps[i] == rs[i].poll
  {
    seq(|rs|, i requires 0 <= i < |rs| => rs[i].poll)
  }

  /** A poll asked the egress checker for a verdict exactly when it had to, and invalidated it exactly when the tunnel failed. */
  ghost predicate Linked(h: seq<Event>, tick: int, p: Poll, mark: Option<nat>) {
    && (mark.None? <==> p.tunnelOK && !p.verify)
    && (mark.Some? ==> mark.value < |h|)
    && (p.tunnelOK && p.verify ==>
          h[mark.value].Verdict? && h[mark.value].tick == tick && h[mark.value].ok == p.egressOK)
    && (!p.tunnelOK ==> h[mark.value].Cleared?)
    && (p.egressOK ==> p.tunnelOK && p.verify)
  }

  predicate Before(a: Option<nat>, b: Option<nat>) {
    a.Some? && b.Some? ==> a.value < b.value
  }

  ghost predicate RecordGood(d: State, i: nat)
    requires i < |d.polls|
  {
    var r := d.polls[i];
    && r.killed == Trace(START, PollsIn(d.polls))[i].killed
    && Linked(d.events, r.tick, r.poll, r.mark)
    && r.tick <= r.at <= d.clock
    && (forall j | 0 <= j < i :: d.polls[j].at <= r.tick && Before(d.polls[j].mark, r.mark))
  }

  /** The poll under way began after every completed one was judged. */
  ghost predicate UnderWay(d: State, tick: int) {
    tick <= d.clock && forall i | 0 <= i < |d.polls| :: d.polls[i].at <= tick
  }

  ghost predicate MarkLatest(d: State, mark: Option<nat>) {
    forall i | 0 <= i < |d.polls| :: Before(d.polls[i].mark, mark)
  }

  /** The poll under way, if there is one, stands where its own step has put it. */
  ghost predicate PollGood(d: State) {
    match d.poll
    case Ticked(tick, _) => UnderWay(d, tick)
    case Disproving(tick, _, _) => UnderWay(d, tick)
    case Proving(tick, c) => UnderWay(d, tick) && c.verifyEgress
    case Judging(tick, p, mark) => UnderWay(d, tick) && Linked(d.events, tick, p, mark) && MarkLatest(d, mark)
    case _ => true
  }

  ghost predicate RecordsGood(d: State) {
    d.wd == End(START, PollsIn(d.polls)) && forall i | 0 <= i < |d.polls| :: RecordGood(d, i)
  }

  ghost predicate PollsInv(d: State) {
    RecordsGood(d) && PollGood(d)
  }

  lemma LinkKept(h: seq<Event>, g: seq<Event>, tick: int, p: Poll, mark: Option<nat>)
    requires |h| <= |g| && g[..|h|] == h && Linked(h, tick, p, mark)
    ensures Linked(g, tick, p, mark)
  {
    if mark.Some? {
      assert g[mark.value] == g[..|h|][mark.value];
    }
  }

  /** Records stay good while events are only added, the clock only advances and the polls stay as they are. */
  lemma RecordsKept(d: State, n: State)
    requires RecordsGood(d) && Later(d, n) && n.polls == d.polls && n.wd == d.wd
    ensures RecordsGood(n) && MarkLatest(n, Some(|d.events|)) && MarkLatest(n, None)
  {
    forall i | 0 <= i < |n.polls| ensures RecordGood(n, i) && Before(n.polls[i].mark, Some(|d.events|)) {
      assert RecordGood(d, i);
      LinkKept(d.events, n.events, d.polls[i].tick, d.polls[i].poll, d.polls[i].mark);
    }
  }

  lemma PollsKept(d: State, n: State)
    requires PollsInv(d) && Later(d, n) && SamePolling(d, n)
    ensures PollsInv(n)
  {
    RecordsKept(d, n);
    if d.poll.Judging? {
      LinkKept(d.events, n.events, d.poll.tick, d.poll.poll, d.poll.mark);
    }
  }

  lemma PollsTick(d: State, now: int)
    requires PollsInv(d) && d.clock <= now
    ensures PollsInv(AfterTick(d, now))
  {
    var n := AfterTick(d, now);
    RecordsKept(d, n);
    forall i | 0 <= i < |d.polls| ensures d.polls[i].at <= now {
      assert RecordGood(d, i);
    }
  }

  lemma PollsTunnel(d: State, now: int, wg: string -> Option<string>)
    requires PollsInv(d) && d.poll.Ticked? && d.clock <= now
    ensures PollsInv(AfterPollTunnel(d, now, wg))
  {
    RecordsKept(d, AfterPollTunnel(d, now, wg));
  }

  lemma PollsInvalidate(d: State)
    requires PollsInv(d) && d.poll.Disproving?
    ensures PollsInv(AfterPollInvalidate(d))
  {
    RecordsKept(d, AfterPollInvalidate(d));
  }

  lemma PollsEvaluate(d: State, now: int, w: World)
    requires PollsInv(d) && d.poll.Proving? && d.clock <= now
    ensures PollsInv(AfterPollEvaluate(d, now, w))
  {
    var n := AfterPollEvaluate(d, now, w);
    EvaluateFrame(d, now, w);
    RecordsKept(d, n);
  }

  lemma PollsCycle(d: State, now: int)
    requires PollsInv(d) && d.poll.Judging? && d.clock <= now
    ensures PollsInv(AfterCycle(d, now))
  {
    var n := AfterCycle(d, now);
    var ps, p := PollsIn(d.polls), d.poll.poll;
    assert PollsIn(n.polls) == ps + [p];
    RunSnoc(START, ps, p);
    forall i | 0 <= i < |n.polls| ensures RecordGood(n, i) {
      if i < |d.polls| {
        assert RecordGood(d, i);
        assert n.polls[i] == d.polls[i];
        assert forall j | 0 <= j < i :: n.polls[j] == d.polls[j];
      }
    }
  }

  lemma PollsPublish(d: State, now: int)
    requires PollsInv(d) && d.poll.Publishing? && d.clock <= now
    ensures PollsInv(AfterPollPublish(d, now))
  {
    RecordsKept(d, AfterPollPublish(d, now));
  }

  lemma PollsProof(d: State)
    requires PollsInv(d) && d.poll.Cycled?
    ensures PollsInv(AfterProof(d))
  {
    RecordsKept(d, AfterProof(d));
  }

  lemma PollsPoll(d: State, a: Action)
    requires PollsInv(d) && PollEnabled(d, a)
    ensures PollsInv(PollNext(d, a))
  {
    match a {
      case Tick(now) => PollsTick(d, now);
      case PollTunnel(now, wg) => PollsTunnel(d, now, wg);
      case PollInvalidate => PollsInvalidate(d);
      case PollEvaluate(now, w) => PollsEvaluate(d, now, w);
      case PollCycle(now) => PollsCycle(d, now);
      case PollProof => PollsProof(d);
      case PollPublish(now) => PollsPublish(d, now);
    }
  }

  // ----- the cache and its history ---------------------------------------------------

  ghost predicate HistoryInv(d: State) {
    Good(d.eg, d.events, d.clock)
  }

  lemma HistoryEvaluate(d: State, now: int, w: World)
    requires HistoryInv(d) && d.poll.Proving? && d.clock <= now && d.poll.tick <= now
    ensures HistoryInv(AfterPollEvaluate(d, now, w))
  {
    EvaluateKeeps(d, false, now, w);
    var (n, r) := Evaluating(d, false, now, w);
    VerdictKeeps(n.eg, n.events, now, d.poll.tick, r.ok);
  }

  /** Steps that only let time pass leave the history as it is. */
  lemma HistoryLater(d: State, n: State)
    requires HistoryInv(d) && n.eg == d.eg && n.events == d.events && d.clock <= n.clock
    ensures HistoryInv(n)
  {
    EventsLater(d.events, d.clock, n.clock);
  }

  lemma HistoryPoll(d: State, a: Action)
    requires HistoryInv(d) && PollGood(d) && PollEnabled(d, a)
    ensures HistoryInv(PollNext(d, a))
  {
    if a.PollInvalidate? {
      ClearKeeps(d);
    } else if a.PollEvaluate? {
      HistoryEvaluate(d, a.now, a.world);
    } else {
      PollQuiet(d, a);
      HistoryLater(d, PollNext(d, a));
    }
  }

  lemma HistoryProbe(d: State, a: Action)
    requires HistoryInv(d) && ProbeEnabled(d, a)
    ensures HistoryInv(ProbeNext(d, a))
  {
    match a {
      case ProbeInvalidate(_) => ClearKeeps(d);
      case ProbeEvaluate(_, now, w) => EvaluateKeeps(d, true, now, w);
      case ProbeTunnel(id, now, wg) => HistoryLater(d, AfterProbeTunnel(d, id, now, wg));
      case ProbePublish(id, now) => HistoryLater(d, AfterProbePublish(d, id, now));
      case ProbeStart(id) => HistoryLater(d, AfterProbeStart(d, id));
    }
  }

  lemma HistoryEgress(lib: Lib, d: State, id: nat, spare: seq<string>)
    requires HistoryInv(d) && ReloadEnabled(d, ReloadEgress(id, spare))
    ensures HistoryInv(AfterEgress(lib, d, id, spare))
  {
    var c := d.reloads[id].effective;
    if Applicable(lib, c) {
      ReconfigureKeeps(d, SettingsOf(lib, c).value, spare);
    }
  }

  lemma HistoryReload(lib: Lib, d: State, a: Action)
    requires HistoryInv(d) && ReloadEnabled(d, a)
    ensures HistoryInv(ReloadNext(lib, d, a))
  {
    match a {
      case ReloadEgress(id, spare) => HistoryEgress(lib, d, id, spare);
      case ReloadLoad(id, file) => HistoryLater(d, AfterLoad(lib, d, id, file));
      case ReloadPrepare(id) => HistoryLater(d, AfterPrepare(d, id));
      case ReloadTunnel(id) => HistoryLater(d, AfterTunnel(lib, d, id));
      case ReloadInstall(id) => HistoryLater(d, AfterInstall(d, id));
    }
  }

  // ----- the published streak ------------------------------------------------------------

  /** How many of the completed polls have been published. */
  function PublishedPolls(d: State): nat {
    if Unpublished(d.poll) && d.polls != [] then |d.polls| - 1 else |d.polls|
  }

  ghost predicate StoreInv(d: State) {
    && (Unpublished(d.poll) ==> d.polls != [])
    && d.store.streak == End(START, PollsIn(d.polls[..PublishedPolls(d)])).streak
  }

  lemma StoreCycle(d: State, now: int)
    requires StoreInv(d) && RecordsGood(d) && d.poll.Judging?
    ensures StoreInv(AfterCycle(d, now))
  {
    var n := AfterCycle(d, now);
    assert n.polls[..|d.polls|] == d.polls == d.polls[..|d.polls|];
  }

  lemma StorePublish(d: State, now: int)
    requires StoreInv(d) && RecordsGood(d) && d.poll.Publishing?
    ensures StoreInv(AfterPollPublish(d, now))
  {
    assert d.polls[..|d.polls|] == d.polls;
  }

  lemma StoreKept(d: State, n: State)
    requires StoreInv(d) && n.polls == d.polls && n.store.streak == d.store.streak
    requires Unpublished(n.poll) == Unpublished(d.poll)
    ensures StoreInv(n)
  {
  }

  lemma StorePoll(d: State, a: Action)
    requires StoreInv(d) && RecordsGood(d) && PollEnabled(d, a)
    ensures StoreInv(PollNext(d, a))
  {
    if a.PollCycle? {
      StoreCycle(d, a.now);
    } else if a.PollPublish? {
      StorePublish(d, a.now);
    } else {
      PollPhase(d, a);
      StoreKept(d, PollNext(d, a));
    }
  }
}
