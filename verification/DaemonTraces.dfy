/** The actions of a run that made each poll, each forced probe and each reload what it is. */
module DaemonTraces {
  import opened Wrappers
  import opened Config
  import opened ConfigOps
  import opened Agent
  import opened Egress
  import opened Tunnel
  import opened Watchdog
  import opened Reload
  import opened Daemon
  import opened DaemonRuns
  import opened DaemonFrames
  import opened DaemonInvariants
  import opened DaemonConfig
  import opened DaemonTheorems

  // ----- polls -------------------------------------------------------------------------

  /** The actions behind a poll: its tick, its tunnel check and, if it came to that, its evaluation. */
  datatype Trail = Trail(tick: nat, check: nat, evaluate: nat)

  /** The tick at k read the configuration, and the poll begun by it has not ended since. */
  ghost predicate Began(path: seq<State>, actions: seq<Action>, i: nat, k: nat, tick: int) {
    && i < |path| == |actions| + 1 && k < i && actions[k] == Action.Tick(tick)
    && forall m | k < m < i :: !actions[m].Tick? && !actions[m].PollCycle?
  }

  ghost predicate Unchecked(actions: seq<Action>, from: nat, to: nat) {
    forall m | from < m < to && m < |actions| :: !actions[m].PollTunnel?
  }

  /** The tunnel check at k is the only one since the tick. */
  ghost predicate Checked(path: seq<State>, actions: seq<Action>, i: nat, tick: nat, k: nat) {
    && i < |path| == |actions| + 1 && tick < k < i && actions[k].PollTunnel?
    && Unchecked(actions, tick, k) && Unchecked(actions, k, i)
  }

  /** What the tunnel check at k found. */
  predicate FoundUp(path: seq<State>, actions: seq<Action>, k: nat)
    requires k < |path| && k < |actions| && actions[k].PollTunnel?
  {
    CheckPasses(path[k].tc, actions[k].wg, actions[k].now)
  }

  function FoundReason(path: seq<State>, actions: seq<Action>, k: nat): Reason
    requires k < |path| && k < |actions| && actions[k].PollTunnel?
  {
    CheckReason(path[k].tc, actions[k].wg, actions[k].now)
  }

  /** What the evaluation at k answered. */
  function Answered(path: seq<State>, actions: seq<Action>, k: nat): Evaluation
    requires k < |path| && k < |actions| && actions[k].PollEvaluate?
  {
    Evaluated(path[k].eg, false, actions[k].now, actions[k].world).1
  }

  /** A poll is what its own actions made it. */
  ghost predicate MadeBy(path: seq<State>, actions: seq<Action>, i: nat, t: Trail, tick: int, p: Poll) {
    && Began(path, actions, i, t.tick, tick) && Checked(path, actions, i, t.tick, t.check)
    && p.verify == path[t.tick].live.verifyEgress
    && p.downCycles == path[t.tick].live.downCyclesToKill
    && p.tunnelOK == FoundUp(path, actions, t.check)
    && (if p.tunnelOK && p.verify then
          && t.check < t.evaluate < i && actions[t.evaluate].PollEvaluate?
          && p.egressOK == Answered(path, actions, t.evaluate).ok && p.reason == Answered(path, actions, t.evaluate).reason
        else
          !p.egressOK && p.reason == FoundReason(path, actions, t.check))
  }

  /** Where the poll loop stands is where its actions have put it. */
  ghost predicate Placed(path: seq<State>, actions: seq<Action>, i: nat, t: Trail)
    requires i < |path|
  {
    match path[i].poll
    case Ticked(tick, c) =>
      Began(path, actions, i, t.tick, tick) && c == path[t.tick].live && Unchecked(actions, t.tick, i)
    case Disproving(tick, c, reason) =>
      && Began(path, actions, i, t.tick, tick) && c == path[t.tick].live && Checked(path, actions, i, t.tick, t.check)
      && !FoundUp(path, actions, t.check) && reason == FoundReason(path, actions, t.check)
    case Proving(tick, c) =>
      && Began(path, actions, i, t.tick, tick) && c == path[t.tick].live && Checked(path, actions, i, t.tick, t.check)
      && FoundUp(path, actions, t.check) && c.verifyEgress
    case Judging(tick, p, _) => MadeBy(path, actions, i, t, tick, p)
    case _ => true
  }

  lemma PlacedTick(lib: Lib, path: seq<State>, actions: seq<Action>, i: nat) returns (t: Trail)
    requires IsPath(lib, path, actions) && i < |actions| && actions[i].Tick?
    ensures Placed(path, actions, i + 1, t)
  {
    t := Trail(i, i, i);
    assert path[i + 1] == AfterTick(path[i], actions[i].now);
  }

  lemma BeganNext(path: seq<State>, actions: seq<Action>, i: nat, k: nat, tick: int)
    requires Began(path, actions, i, k, tick) && i < |actions| && !actions[i].Tick? && !actions[i].PollCycle?
    ensures Began(path, actions, i + 1, k, tick)
  {
  }

  lemma CheckedNow(path: seq<State>, actions: seq<Action>, i: nat, tick: nat)
    requires tick < i < |actions| < |path| == |actions| + 1 && actions[i].PollTunnel? && Unchecked(actions, tick, i)
    ensures Checked(path, actions, i + 1, tick, i)
  {
  }

  lemma CheckedNext(path: seq<State>, actions: seq<Action>, i: nat, tick: nat, k: nat)
    requires Checked(path, actions, i, tick, k) && i < |actions| && !actions[i].PollTunnel?
    ensures Checked(path, actions, i + 1, tick, k)
  {
  }

  /** The next place after a tunnel check, by what the check found. */
  lemma PlaceAfterTunnel(d: State, now: int, wg: string -> Option<string>)
    requires d.poll.Ticked?
    ensures AfterPollTunnel(d, now, wg).poll
            == if !CheckPasses(d.tc, wg, now) then Disproving(d.poll.tick, d.poll.config, CheckReason(d.tc, wg, now))
               else if d.poll.config.verifyEgress then Proving(d.poll.tick, d.poll.config)
               else Judging(d.poll.tick, Poll(true, false, false, d.poll.config.downCyclesToKill, NoReason), None)
  {
  }

  lemma PlacedTunnel(lib: Lib, path: seq<State>, actions: seq<Action>, i: nat, before: Trail) returns (t: Trail)
    requires IsPath(lib, path, actions) && i < |actions| && actions[i].PollTunnel?
    requires Placed(path, actions, i, before)
    ensures Placed(path, actions, i + 1, t)
  {
    t := before.(check := i);
    BeganNext(path, actions, i, t.tick, path[i].poll.tick);
    CheckedNow(path, actions, i, t.tick);
    PlaceAfterTunnel(path[i], actions[i].now, actions[i].wg);
    SilentCheck(path[i].tc, actions[i].wg, actions[i].now);
    TunnelStepTaken(lib, path, actions, i);
  }

  lemma TunnelStepTaken(lib: Lib, path: seq<State>, actions: seq<Action>, i: nat)
    requires IsPath(lib, path, actions) && i < |actions| && actions[i].PollTunnel?
    ensures path[i].poll.Ticked? && path[i + 1] == AfterPollTunnel(path[i], actions[i].now, actions[i].wg)
  {
  }

  lemma SilentCheck(t: TunnelState, wg: string -> Option<string>, now: int)
    ensures CheckPasses(t, wg, now) <==> CheckReason(t, wg, now) == NoReason
  {
    SilentWhenPassing(t, wg(t.iface), now / SECOND);
  }

  lemma PlacedInvalidate(lib: Lib, path: seq<State>, actions: seq<Action>, i: nat, t: Trail)
    requires IsPath(lib, path, actions) && i < |actions| && actions[i].PollInvalidate?
    requires Placed(path, actions, i, t)
    ensures Placed(path, actions, i + 1, t)
  {
    assert path[i + 1] == AfterPollInvalidate(path[i]);
    BeganNext(path, actions, i, t.tick, path[i].poll.tick);
    CheckedNext(path, actions, i, t.tick, t.check);
  }

  lemma PlacedEvaluate(lib: Lib, path: seq<State>, actions: seq<Action>, i: nat, before: Trail) returns (t: Trail)
    requires IsPath(lib, path, actions) && i < |actions| && actions[i].PollEvaluate?
    requires Placed(path, actions, i, before)
    ensures Placed(path, actions, i + 1, t)
  {
    t := before.(evaluate := i);
    assert path[i + 1] == AfterPollEvaluate(path[i], actions[i].now, actions[i].world);
    BeganNext(path, actions, i, t.tick, path[i].poll.tick);
    CheckedNext(path, actions, i, t.tick, t.check);
  }

  lemma PlacedStill(path: seq<State>, actions: seq<Action>, i: nat, t: Trail)
    requires |path| == |actions| + 1 && i < |actions| && path[i + 1].poll == path[i].poll
    requires !actions[i].Tick? && !actions[i].PollTunnel? && !actions[i].PollCycle?
    requires Placed(path, actions, i, t)
    ensures Placed(path, actions, i + 1, t)
  {
    var pc := path[i].poll;
    if pc.Ticked? {
      BeganNext(path, actions, i, t.tick, pc.tick);
    } else if pc.Disproving? || pc.Proving? || pc.Judging? {
      BeganNext(path, actions, i, t.tick, pc.tick);
      CheckedNext(path, actions, i, t.tick, t.check);
    }
  }

  lemma PlacedPublishing(lib: Lib, path: seq<State>, actions: seq<Action>, i: nat, t: Trail)
    requires IsPath(lib, path, actions) && i < |actions|
    requires actions[i].PollCycle? || actions[i].PollProof? || actions[i].PollPublish?
    ensures Placed(path, actions, i + 1, t)
  {
  }

  lemma OthersLeavePoll(lib: Lib, d: State, a: Action)
    requires Enabled(d, a) && !PollEnabled(d, a)
    ensures Next(lib, d, a).poll == d.poll && !a.Tick? && !a.PollTunnel? && !a.PollCycle?
  {
    if ProbeEnabled(d, a) {
      ProbeFrame(d, a);
    } else {
      ReloadFrame(lib, d, a);
    }
  }

  lemma PlacedNext(lib: Lib, path: seq<State>, actions: seq<Action>, i: nat, before: Trail) returns (t: Trail)
    requires IsPath(lib, path, actions) && i < |actions| && Placed(path, actions, i, before)
    ensures Placed(path, actions, i + 1, t)
  {
    var a := actions[i];
    t := before;
    if !PollEnabled(path[i], a) {
      OthersLeavePoll(lib, path[i], a);
      PlacedStill(path, actions, i, t);
    } else if a.Tick? {
      t := PlacedTick(lib, path, actions, i);
    } else if a.PollTunnel? {
      t := PlacedTunnel(lib, path, actions, i, t);
    } else if a.PollInvalidate? {
      PlacedInvalidate(lib, path, actions, i, t);
    } else if a.PollEvaluate? {
      t := PlacedEvaluate(lib, path, actions, i, t);
    } else {
      PlacedPublishing(lib, path, actions, i, t);
    }
  }

  lemma {:induction false} PollTraced(lib: Lib, path: seq<State>, actions: seq<Action>, i: nat) returns (t: Trail)
    requires IsPath(lib, path, actions) && i < |path| && path[0].poll.Waiting?
    ensures Placed(path, actions, i, t)
  {
    t := Trail(0, 0, 0);
    if i > 0 {
      t := PollTraced(lib, path, actions, i - 1);
      t := PlacedNext(lib, path, actions, i - 1, t);
    }
  }

  /** A completed poll: made by its own actions, and judged by the cycle at j, where the killer read the targets. */
  ghost predicate CompletedBy(path: seq<State>, actions: seq<Action>, j: nat, t: Trail, r: PollRecord) {
    && j < |actions| < |path| && actions[j] == PollCycle(r.at)
    && MadeBy(path, actions, j, t, r.tick, r.poll)
    && r.targets == (if r.killed then path[j].live.targets else [])
  }

  /** Each cycle of a path adds one record, and nothing else touches the records. */
  ghost predicate Grows(path: seq<State>, actions: seq<Action>) {
    && |path| == |actions| + 1
    && forall i | 0 <= i < |actions| ::
         && |path[i + 1].polls| == |path[i].polls| + (if actions[i].PollCycle? then 1 else 0)
         && forall r | 0 <= r < |path[i].polls| :: path[i + 1].polls[r] == path[i].polls[r]
  }

  lemma PathGrows(lib: Lib, path: seq<State>, actions: seq<Action>)
    requires IsPath(lib, path, actions)
    ensures Grows(path, actions)
  {
    forall i | 0 <= i < |actions|
      ensures |path[i + 1].polls| == |path[i].polls| + (if actions[i].PollCycle? then 1 else 0)
      ensures forall r | 0 <= r < |path[i].polls| :: path[i + 1].polls[r] == path[i].polls[r]
    {
      GrownAt(lib, path, actions, i);
    }
  }

  /** The cycle that completed a poll. */
  lemma {:induction false} CycleOf(path: seq<State>, actions: seq<Action>, i: nat, r: nat) returns (j: nat)
    requires Grows(path, actions) && i < |path| && path[0].polls == [] && r < |path[i].polls|
    ensures j < i && actions[j].PollCycle? && |path[j].polls| == r && r < |path[j + 1].polls|
    ensures path[j + 1].polls[r] == path[i].polls[r]
  {
    if r < |path[i - 1].polls| {
      j := CycleOf(path, actions, i - 1, r);
    } else {
      j := i - 1;
    }
  }

  lemma RecordTraced(lib: Lib, path: seq<State>, actions: seq<Action>, i: nat, r: nat) returns (t: Trail, j: nat)
    requires IsPath(lib, path, actions) && i < |path| && path[0].poll.Waiting? && path[0].polls == []
    requires r < |path[i].polls|
    ensures j < i && |path[j].polls| == r && CompletedBy(path, actions, j, t, path[i].polls[r])
  {
    PathGrows(lib, path, actions);
    j := CycleOf(path, actions, i, r);
    t := PollTraced(lib, path, actions, j);
    RecordedNow(lib, path, actions, j, t);
  }

  lemma GrownAt(lib: Lib, path: seq<State>, actions: seq<Action>, i: nat)
    requires IsPath(lib, path, actions) && i < |actions|
    ensures |path[i + 1].polls| == |path[i].polls| + (if actions[i].PollCycle? then 1 else 0)
    ensures forall r | 0 <= r < |path[i].polls| :: path[i + 1].polls[r] == path[i].polls[r]
  {
    PollsGrow(lib, path[i], actions[i]);
    var before, after := path[i].polls, path[i + 1].polls;
    forall r | 0 <= r < |before| ensures after[r] == before[r] {
      assert after[..|before|][r] == after[r];
    }
  }

  lemma RecordedNow(lib: Lib, path: seq<State>, actions: seq<Action>, j: nat, t: Trail)
    requires IsPath(lib, path, actions) && j < |actions| && actions[j].PollCycle? && Placed(path, actions, j, t)
    ensures |path[j + 1].polls| == |path[j].polls| + 1
    ensures CompletedBy(path, actions, j, t, path[j + 1].polls[|path[j].polls|])
  {
    assert path[j + 1] == AfterCycle(path[j], actions[j].now);
  }

  lemma PollsGrow(lib: Lib, d: State, a: Action)
    requires Enabled(d, a)
    ensures var n := Next(lib, d, a);
            if a.PollCycle? then PollEnabled(d, a) && |n.polls| == |d.polls| + 1 && n.polls[..|d.polls|] == d.polls
            else n.polls == d.polls
  {
    if !PollEnabled(d, a) {
      if ProbeEnabled(d, a) {
        ProbeFrame(d, a);
      } else {
        ReloadFrame(lib, d, a);
      }
    }
  }

  /**
   Every recorded poll of a run is what its own actions made it. Its tunnel was
   up exactly when the dump its own check read showed a handshake young enough
   under the settings the checker held; whether it verified, and its threshold,
   are those of the configuration live at its own tick; and a kill went for the
   targets live at its own cycle.
   */
  lemma PollExplained(lib: Lib, run: seq<State>, actions: seq<Action>, i: nat, r: nat) returns (t: Trail, j: nat)
    requires IsRun(lib, run, actions) && i < |run| && r < |run[i].polls|
    ensures var p := run[i].polls[r];
            && j < i && |run[j].polls| == r && CompletedBy(run, actions, j, t, p)
            && t.tick < t.check < j && actions[t.check].PollTunnel?
            && var c := actions[t.check];
            && p.poll.verify == run[t.tick].live.verifyEgress
            && p.poll.downCycles == run[t.tick].live.downCyclesToKill
            && (p.poll.tunnelOK <==> ShowsFresh(c.wg(run[t.check].tc.iface), c.now, run[t.check].tc.maxAge))
            && (p.killed ==> p.targets == run[j].live.targets)
  {
    t, j := RecordTraced(lib, run, actions, i, r);
    RunWiring(lib, run, actions, t.check);
    CheckMeaning(run[t.check].tc, actions[t.check].wg, actions[t.check].now);
  }

  lemma RunWiring(lib: Lib, run: seq<State>, actions: seq<Action>, i: nat)
    requires IsRun(lib, run, actions) && i < |run|
    ensures WiringInv(lib, run[i])
  {
    RunInv(lib, run, actions, i);
  }

  lemma RunReachable(lib: Lib, run: seq<State>, actions: seq<Action>, i: nat)
    requires IsRun(lib, run, actions) && i < |run|
    ensures Reachable(lib, run[i])
  {
    RunReaches(lib, run[..i + 1], actions[..i], run[i]);
  }

  /**
   When a recorded poll of a run is safe: its dump showed a fresh handshake
   and, if the configuration at its tick asked for verification, the probe
   behind its verdict proved the exit.
   */
  lemma SafeExactly(lib: Lib, run: seq<State>, actions: seq<Action>, i: nat, r: nat)
    returns (t: Trail, j: nat, probe: nat, verdict: nat)
    requires IsRun(lib, run, actions) && i < |run| && r < |run[i].polls|
    ensures var p, h := run[i].polls[r], run[i].events;
            && CompletedBy(run, actions, j, t, p) && j < i
            && t.tick < t.check < j && actions[t.check].PollTunnel?
            && var c := actions[t.check];
            && var up := ShowsFresh(c.wg(run[t.check].tc.iface), c.now, run[t.check].tc.maxAge);
            && var verify := run[t.tick].live.verifyEgress;
            && (up && verify ==> Backing(h, probe, verdict) && p.mark == Some(verdict))
            && (p.poll.Safe() <==> up && (verify ==> Proven(h[probe].settings, h[probe].world)))
  {
    t, j := PollExplained(lib, run, actions, i, r);
    probe, verdict := 0, 0;
    var p := run[i].polls[r].poll;
    if p.tunnelOK && p.verify {
      RunReachable(lib, run, actions, i);
      probe, verdict := VerdictExplained(lib, run[i], r);
    }
  }

  // ----- what polls publish -------------------------------------------------------------

  /** Between its cycle and its publication a poll carries its record's reason, and then the proof it read at q. */
  ghost predicate Publishes(path: seq<State>, actions: seq<Action>, i: nat, q: nat)
    requires i < |path|
  {
    var d := path[i];
    && (d.poll.Cycled? ==> d.polls != [] && d.poll.reason == d.polls[|d.polls| - 1].poll.reason)
    && (d.poll.Publishing? ==>
          && d.polls != [] && d.poll.reason == d.polls[|d.polls| - 1].poll.reason
          && q < i && q < |actions| && actions[q].PollProof? && |path[q].polls| == |d.polls|
          && d.poll.ip == path[q].eg.cache.lastIP && d.poll.country == path[q].eg.cache.lastCountry)
  }

  lemma PublishesStep(lib: Lib, path: seq<State>, actions: seq<Action>, i: nat, q: nat)
    requires IsPath(lib, path, actions) && i < |actions| && PollEnabled(path[i], actions[i])
    requires Publishes(path, actions, i, q)
    ensures Publishes(path, actions, i + 1, if actions[i].PollProof? then i else q)
  {
    if actions[i].PollCycle? {
      assert path[i + 1] == AfterCycle(path[i], actions[i].now);
    } else if actions[i].PollProof? {
      assert path[i + 1] == AfterProof(path[i]);
    }
  }

  lemma PublishesStill(path: seq<State>, actions: seq<Action>, i: nat, q: nat)
    requires |path| == |actions| + 1 && i < |actions| && Publishes(path, actions, i, q)
    requires path[i + 1].poll == path[i].poll && path[i + 1].polls == path[i].polls
    ensures Publishes(path, actions, i + 1, q)
  {
  }

  lemma PublishesNext(lib: Lib, path: seq<State>, actions: seq<Action>, i: nat, before: nat) returns (q: nat)
    requires IsPath(lib, path, actions) && i < |actions| && Publishes(path, actions, i, before)
    ensures Publishes(path, actions, i + 1, q)
  {
    q := before;
    if PollEnabled(path[i], actions[i]) {
      PublishesStep(lib, path, actions, i, q);
      q := if actions[i].PollProof? then i else q;
    } else {
      OthersLeavePoll(lib, path[i], actions[i]);
      PollsGrow(lib, path[i], actions[i]);
      PublishesStill(path, actions, i, q);
    }
  }

  lemma {:induction false} PublishingTraced(lib: Lib, path: seq<State>, actions: seq<Action>, i: nat) returns (q: nat)
    requires IsPath(lib, path, actions) && i < |path| && path[0].poll.Waiting?
    ensures Publishes(path, actions, i, q)
  {
    q := 0;
    if i > 0 {
      q := PublishingTraced(lib, path, actions, i - 1);
      q := PublishesNext(lib, path, actions, i - 1, q);
    }
  }

  /**
   What a poll of a run publishes: label and streak after all polls so far, the
   reason of the last of them, and the proof the egress checker held when the
   poll read it, after its own cycle.
   */
  lemma PublishTraced(lib: Lib, run: seq<State>, actions: seq<Action>, i: nat) returns (q: nat)
    requires IsRun(lib, run, actions) && i < |actions| && actions[i].PollPublish?
    ensures q < i && actions[q].PollProof? && run[i].polls != [] && |run[q].polls| == |run[i].polls|
    ensures var polls := PollsIn(run[i].polls);
            var end := End(START, polls);
            run[i + 1].store == Status(end.announced, end.streak, polls[|polls| - 1].reason,
                                       run[q].eg.cache.lastIP, run[q].eg.cache.lastCountry, Some(actions[i].now))
  {
    q := PublishingTraced(lib, run, actions, i);
    assert run[i + 1] == AfterPollPublish(run[i], actions[i].now);
    RunPolls(lib, run, actions, i);
  }

  lemma RunPolls(lib: Lib, run: seq<State>, actions: seq<Action>, i: nat)
    requires IsRun(lib, run, actions) && i < |run|
    ensures run[i].wd == End(START, PollsIn(run[i].polls))
  {
    RunInv(lib, run, actions, i);
  }

  // ----- forced probes -------------------------------------------------------------------

  /** A forced probe is what its own request and its own tunnel check made it. */
  ghost predicate AskedBy(path: seq<State>, actions: seq<Action>, i: nat, id: nat, start: nat, check: nat)
    requires i < |path| && id in path[i].probes
  {
    var pc := path[i].probes[id];
    && i < |path| == |actions| + 1 && start < i && actions[start] == ProbeStart(id)
    && pc.asked == |path[start].events|
    && (pc.Asked? ==> pc.verify == path[start].live.verifyEgress)
    && (!pc.Asked? ==>
          && start < check < i && actions[check].ProbeTunnel? && actions[check].id == id
          && var up := CheckPasses(path[check].tc, actions[check].wg, actions[check].now);
          && var reason := CheckReason(path[check].tc, actions[check].wg, actions[check].now);
          && (pc.Failing? ==> !up && pc.reason == reason)
          && (pc.Passing? ==> up && path[start].live.verifyEgress)
          && (pc.Answering? ==>
                && pc.tunnelOK == up
                && (up ==> pc.verify == path[start].live.verifyEgress)
                && (!up ==> pc.reason == reason)))
  }

  lemma AskedKept(path: seq<State>, actions: seq<Action>, i: nat, id: nat, start: nat, check: nat)
    requires |path| == |actions| + 1 && i < |actions| && id in path[i].probes && id in path[i + 1].probes
    requires path[i + 1].probes[id] == path[i].probes[id] && AskedBy(path, actions, i, id, start, check)
    ensures AskedBy(path, actions, i + 1, id, start, check)
  {
  }

  lemma AskedTunnel(lib: Lib, path: seq<State>, actions: seq<Action>, i: nat, id: nat, start: nat, check: nat)
    requires IsPath(lib, path, actions) && i < |actions| && actions[i].ProbeTunnel? && actions[i].id == id
    requires id in path[i].probes && path[i].probes[id].Asked? && AskedBy(path, actions, i, id, start, check)
    ensures id in path[i + 1].probes && AskedBy(path, actions, i + 1, id, start, i)
  {
    assert path[i + 1] == AfterProbeTunnel(path[i], id, actions[i].now, actions[i].wg);
  }

  lemma AskedOn(lib: Lib, path: seq<State>, actions: seq<Action>, i: nat, id: nat, start: nat, check: nat)
    requires IsPath(lib, path, actions) && i < |actions|
    requires actions[i] == ProbeInvalidate(id) || (actions[i].ProbeEvaluate? && actions[i].id == id)
    requires id in path[i].probes && AskedBy(path, actions, i, id, start, check)
    ensures id in path[i + 1].probes && AskedBy(path, actions, i + 1, id, start, check)
  {
    if actions[i].ProbeInvalidate? {
      assert path[i + 1] == AfterProbeInvalidate(path[i], id);
    } else {
      assert path[i + 1] == AfterProbeEvaluate(path[i], id, actions[i].now, actions[i].world);
    }
  }

  lemma AskedFirst(lib: Lib, path: seq<State>, actions: seq<Action>, i: nat, id: nat)
    requires IsPath(lib, path, actions) && i < |actions| && actions[i] == ProbeStart(id)
    ensures id in path[i + 1].probes && AskedBy(path, actions, i + 1, id, i, i)
  {
    assert path[i + 1] == AfterProbeStart(path[i], id);
  }

  /** Steps that are not this probe's own leave it where it is. */
  lemma OthersLeaveProbe(lib: Lib, d: State, a: Action, id: nat)
    requires Enabled(d, a) && id in Next(lib, d, a).probes && a != ProbeStart(id)
    requires !(a.ProbeTunnel? && a.id == id) && a != ProbeInvalidate(id) && !(a.ProbeEvaluate? && a.id == id)
    ensures id in d.probes && Next(lib, d, a).probes[id] == d.probes[id]
  {
    if PollEnabled(d, a) {
      PollFrame(d, a);
    } else if ReloadEnabled(d, a) {
      ReloadFrame(lib, d, a);
    }
  }

  /** The probe was under way before any step but its own request. */
  lemma AskedBefore(lib: Lib, path: seq<State>, actions: seq<Action>, i: nat, id: nat)
    requires IsPath(lib, path, actions) && i < |actions| && id in path[i + 1].probes && actions[i] != ProbeStart(id)
    ensures id in path[i].probes
    ensures actions[i].ProbeTunnel? && actions[i].id == id ==> path[i].probes[id].Asked?
    ensures path[i + 1].probes[id] == path[i].probes[id] || actions[i] == ProbeInvalidate(id)
            || (actions[i].ProbeTunnel? && actions[i].id == id) || (actions[i].ProbeEvaluate? && actions[i].id == id)
  {
    var a := actions[i];
    if !(a.ProbeTunnel? && a.id == id) && a != ProbeInvalidate(id) && !(a.ProbeEvaluate? && a.id == id) {
      OthersLeaveProbe(lib, path[i], a, id);
    }
  }

  lemma AskedNext(lib: Lib, path: seq<State>, actions: seq<Action>, i: nat, id: nat, start: nat, check: nat)
    returns (last: nat)
    requires IsPath(lib, path, actions) && i < |actions| && id in path[i + 1].probes && actions[i] != ProbeStart(id)
    requires id in path[i].probes && AskedBy(path, actions, i, id, start, check)
    ensures AskedBy(path, actions, i + 1, id, start, last)
  {
    AskedBefore(lib, path, actions, i, id);
    last := check;
    if actions[i].ProbeTunnel? && actions[i].id == id {
      AskedTunnel(lib, path, actions, i, id, start, check);
      last := i;
    } else if path[i + 1].probes[id] == path[i].probes[id] {
      AskedKept(path, actions, i, id, start, check);
    } else {
      AskedOn(lib, path, actions, i, id, start, check);
    }
  }

  lemma {:induction false} ProbeTraced(lib: Lib, path: seq<State>, actions: seq<Action>, i: nat, id: nat)
    returns (start: nat, check: nat)
    requires IsPath(lib, path, actions) && i < |path| && path[0].probes == map[] && id in path[i].probes
    ensures AskedBy(path, actions, i, id, start, check)
  {
    if actions[i - 1] == ProbeStart(id) {
      start, check := i - 1, i - 1;
      AskedFirst(lib, path, actions, i - 1, id);
    } else {
      AskedBefore(lib, path, actions, i - 1, id);
      start, check := ProbeTraced(lib, path, actions, i - 1, id);
      check := AskedNext(lib, path, actions, i - 1, id, start, check);
    }
  }

  /**
   A forced probe of a run found the tunnel up exactly when the dump its own
   check read showed a fresh handshake, and verified exactly when the
   configuration live at its own request asked for it.
   */
  lemma ProbeExplained(lib: Lib, run: seq<State>, actions: seq<Action>, i: nat, id: nat) returns (start: nat, check: nat)
    requires IsRun(lib, run, actions) && i < |run| && id in run[i].probes && run[i].probes[id].Answering?
    ensures start < check < i && actions[start] == ProbeStart(id) && actions[check].ProbeTunnel? && actions[check].id == id
    ensures var pc, c := run[i].probes[id], actions[check];
            && pc.asked == |run[start].events|
            && (pc.tunnelOK <==> ShowsFresh(c.wg(run[check].tc.iface), c.now, run[check].tc.maxAge))
            && (pc.tunnelOK ==> pc.verify == run[start].live.verifyEgress)
  {
    start, check := ProbeTraced(lib, run, actions, i, id);
    RunWiring(lib, run, actions, check);
    CheckMeaning(run[check].tc, actions[check].wg, actions[check].now);
  }

  // ----- reloads -------------------------------------------------------------------------

  lemma LoadedNow(lib: Lib, path: seq<State>, actions: seq<Action>, i: nat, id: nat)
    requires IsPath(lib, path, actions) && i < |actions| && actions[i].ReloadLoad? && actions[i].id == id
    requires id in path[i + 1].reloads
    ensures LoadConfig(actions[i].file) == Success(path[i + 1].reloads[id].loaded)
  {
    assert path[i + 1] == AfterLoad(lib, path[i], id, actions[i].file);
  }

  lemma LoadedKept(lib: Lib, d: State, a: Action, id: nat)
    requires ReloadEnabled(d, a) && id in ReloadNext(lib, d, a).reloads && !(a.ReloadLoad? && a.id == id)
    ensures id in d.reloads && ReloadNext(lib, d, a).reloads[id].loaded == d.reloads[id].loaded
  {
  }

  lemma LoadedBefore(lib: Lib, path: seq<State>, actions: seq<Action>, i: nat, id: nat)
    requires IsPath(lib, path, actions) && i < |actions| && id in path[i + 1].reloads
    requires !(actions[i].ReloadLoad? && actions[i].id == id)
    ensures id in path[i].reloads && path[i + 1].reloads[id].loaded == path[i].reloads[id].loaded
  {
    if PollEnabled(path[i], actions[i]) {
      PollFrame(path[i], actions[i]);
    } else if ProbeEnabled(path[i], actions[i]) {
      ProbeFrame(path[i], actions[i]);
    } else {
      LoadedKept(lib, path[i], actions[i], id);
    }
  }

  /** What a reload carries is what its own loading read. */
  lemma {:induction false} LoadTraced(lib: Lib, path: seq<State>, actions: seq<Action>, i: nat, id: nat) returns (k: nat)
    requires IsPath(lib, path, actions) && i < |path| && path[0].reloads == map[] && id in path[i].reloads
    ensures k < i && actions[k].ReloadLoad? && actions[k].id == id
    ensures LoadConfig(actions[k].file) == Success(path[i].reloads[id].loaded)
  {
    var a := actions[i - 1];
    if a.ReloadLoad? && a.id == id {
      k := i - 1;
      LoadedNow(lib, path, actions, k, id);
    } else {
      LoadedBefore(lib, path, actions, i - 1, id);
      k := LoadTraced(lib, path, actions, i - 1, id);
    }
  }

  /**
   What every installation of a run installs: the settings of the file its own
   reload read, but for the three start-up ones, which stay the daemon's. If
   reloads have not overlapped, the checkers then hold what that file says.
   */
  lemma InstalledFromFile(lib: Lib, run: seq<State>, actions: seq<Action>, i: nat, id: nat) returns (k: nat)
    requires IsRun(lib, run, actions) && i < |actions| && actions[i] == ReloadInstall(id)
    ensures k < i && actions[k].ReloadLoad? && actions[k].id == id && LoadConfig(actions[k].file).Success?
    ensures var c, n := LoadConfig(actions[k].file).value, run[i + 1];
            && TakesOver(run[0].startup, c, n.live)
            && (!n.overlapped ==> HoldsFile(lib, run[0].startup.interface, c, n.eg.settings, n.tc))
  {
    k := LoadTraced(lib, run, actions, i, id);
    var c := LoadConfig(actions[k].file).value;
    StartupStays(lib, run, actions, i);
    InstalledConfig(lib, run, actions, i, id);
    EffectiveTakesOver(run[0].startup, c);
    if !run[i + 1].overlapped {
      LoadedCountry(actions[k].file);
      AgreeingHoldFile(lib, run[0].startup, c, run[i + 1].eg.settings, run[i + 1].tc);
    }
  }

  /** What a prepared reload carries was made from the configuration that was live then. */
  predicate PlannedOn(d: State, pc: ReloadPc) {
    !pc.Loaded? && pc.effective == Effective(d.live, pc.loaded) && pc.changed == DiffOf(d.live, pc.loaded)
  }

  lemma PlanNow(lib: Lib, path: seq<State>, actions: seq<Action>, i: nat, id: nat)
    requires IsPath(lib, path, actions) && i < |actions| && actions[i] == ReloadPrepare(id)
    ensures id in path[i].reloads && id in path[i + 1].reloads && PlannedOn(path[i], path[i + 1].reloads[id])
    ensures path[i + 1].reloads[id].loaded == path[i].reloads[id].loaded
  {
    assert path[i + 1] == AfterPrepare(path[i], id);
  }

  predicate SamePlan(a: ReloadPc, b: ReloadPc) {
    !a.Loaded? && !b.Loaded? && a.loaded == b.loaded && a.effective == b.effective && a.changed == b.changed
  }

  lemma PlanKept(lib: Lib, d: State, a: Action, id: nat)
    requires ReloadEnabled(d, a) && id in ReloadNext(lib, d, a).reloads && !ReloadNext(lib, d, a).reloads[id].Loaded?
    requires a != ReloadPrepare(id)
    ensures id in d.reloads && SamePlan(d.reloads[id], ReloadNext(lib, d, a).reloads[id])
  {
  }

  lemma PlanBefore(lib: Lib, path: seq<State>, actions: seq<Action>, i: nat, id: nat)
    requires IsPath(lib, path, actions) && i < |actions| && actions[i] != ReloadPrepare(id)
    requires id in path[i + 1].reloads && !path[i + 1].reloads[id].Loaded?
    ensures id in path[i].reloads && SamePlan(path[i].reloads[id], path[i + 1].reloads[id])
  {
    if PollEnabled(path[i], actions[i]) {
      PollFrame(path[i], actions[i]);
    } else if ProbeEnabled(path[i], actions[i]) {
      ProbeFrame(path[i], actions[i]);
    } else {
      PlanKept(lib, path[i], actions[i], id);
    }
  }

  /** A plan is made by the reload's own preparation and then carried along. */
  predicate PlanStep(d: State, a: Action, n: State, id: nat) {
    id in n.reloads && !n.reloads[id].Loaded? ==>
      && id in d.reloads && d.reloads[id].loaded == n.reloads[id].loaded
      && if a == ReloadPrepare(id) then PlannedOn(d, n.reloads[id]) else SamePlan(d.reloads[id], n.reloads[id])
  }

  ghost predicate PlanSteps(path: seq<State>, actions: seq<Action>, id: nat) {
    |path| == |actions| + 1 && forall i | 0 <= i < |actions| :: PlanStep(path[i], actions[i], path[i + 1], id)
  }

  lemma PlanStepTaken(lib: Lib, path: seq<State>, actions: seq<Action>, i: nat, id: nat)
    requires IsPath(lib, path, actions) && i < |actions|
    ensures PlanStep(path[i], actions[i], path[i + 1], id)
  {
    if actions[i] == ReloadPrepare(id) {
      PlanNow(lib, path, actions, i, id);
    } else if id in path[i + 1].reloads && !path[i + 1].reloads[id].Loaded? {
      PlanBefore(lib, path, actions, i, id);
    }
  }

  lemma PathPlans(lib: Lib, path: seq<State>, actions: seq<Action>, id: nat)
    requires IsPath(lib, path, actions)
    ensures PlanSteps(path, actions, id)
  {
    forall i | 0 <= i < |actions| ensures PlanStep(path[i], actions[i], path[i + 1], id) {
      PlanStepTaken(lib, path, actions, i, id);
    }
  }

  lemma {:induction false} PlanTraced(path: seq<State>, actions: seq<Action>, i: nat, id: nat) returns (p: nat)
    requires PlanSteps(path, actions, id) && i < |path| && path[0].reloads == map[]
    requires id in path[i].reloads && !path[i].reloads[id].Loaded?
    ensures p < i && actions[p] == ReloadPrepare(id) && id in path[p].reloads
    ensures PlannedOn(path[p], path[i].reloads[id]) && path[p].reloads[id].loaded == path[i].reloads[id].loaded
  {
    assert PlanStep(path[i - 1], actions[i - 1], path[i], id);
    p := i - 1;
    if actions[i - 1] != ReloadPrepare(id) {
      p := PlanTraced(path, actions, i - 1, id);
    }
  }

  /**
   What the report of an installed reload is about: the file its own loading
   read against the configuration that was live at its own preparation.
   */
  lemma ReportTraced(lib: Lib, run: seq<State>, actions: seq<Action>, i: nat, id: nat) returns (k: nat, p: nat)
    requires IsRun(lib, run, actions) && i < |actions| && actions[i] == ReloadInstall(id)
    ensures k < p < i && actions[k].ReloadLoad? && actions[k].id == id && actions[p] == ReloadPrepare(id)
    ensures LoadConfig(actions[k].file).Success? && |run[i + 1].reports| == |run[i].reports| + 1
    ensures var report, c := run[i + 1].reports[|run[i].reports|], LoadConfig(actions[k].file).value;
            && report.loaded == c
            && forall key: Key :: key in report.changed <==> Render(Field(run[p].live, key)) != Render(Field(c, key))
  {
    assert run[i + 1] == AfterInstall(run[i], id);
    PathPlans(lib, run, actions, id);
    p := PlanTraced(run, actions, i, id);
    k := LoadTraced(lib, run, actions, p, id);
    DiffExact(run[p].live, LoadConfig(actions[k].file).value);
  }

  lemma {:induction false} StartupStays(lib: Lib, path: seq<State>, actions: seq<Action>, i: nat)
    requires IsPath(lib, path, actions) && i < |path|
    ensures path[i].startup == path[0].startup
  {
    if i > 0 {
      StartupStays(lib, path, actions, i - 1);
      StartupNext(lib, path, actions, i - 1);
    }
  }

  lemma StartupNext(lib: Lib, path: seq<State>, actions: seq<Action>, i: nat)
    requires IsPath(lib, path, actions) && i < |actions|
    ensures path[i + 1].startup == path[i].startup
  {
    StartupKept(lib, path[i], actions[i]);
  }

  lemma StartupKept(lib: Lib, d: State, a: Action)
    requires Enabled(d, a)
    ensures Next(lib, d, a).startup == d.startup
  {
    if PollEnabled(d, a) {
      PollFrame(d, a);
    } else if ProbeEnabled(d, a) {
      ProbeFrame(d, a);
    } else {
      ReloadFrame(lib, d, a);
    }
  }

  lemma InstalledConfig(lib: Lib, run: seq<State>, actions: seq<Action>, i: nat, id: nat)
    requires IsRun(lib, run, actions) && i < |actions| && actions[i] == ReloadInstall(id)
    ensures id in run[i].reloads
    ensures run[i + 1].live == Effective(run[i].startup, run[i].reloads[id].loaded)
    ensures !run[i + 1].overlapped ==> Agrees(lib, run[i + 1].live, run[i + 1].eg.settings, run[i + 1].tc)
  {
    assert run[i + 1] == AfterInstall(run[i], id);
    RunConfig(lib, run, actions, i);
    assert ReloadGood(lib, run[i].startup, run[i].reloads[id]);
    AgreeInstall(lib, run[i], id);
  }

  lemma RunConfig(lib: Lib, run: seq<State>, actions: seq<Action>, i: nat)
    requires IsRun(lib, run, actions) && i < |run|
    ensures ReloadsInv(lib, run[i]) && AgreeInv(lib, run[i])
  {
    RunInv(lib, run, actions, i);
  }
}
