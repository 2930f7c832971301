/** The claims about whole runs of the daemon. */
module DaemonTheorems {
  import opened Wrappers
  import opened Config
  import opened ConfigOps
  import opened Agent
  import opened Egress
  import opened Watchdog
  import opened Reload
  import opened Daemon
  import opened DaemonRuns
  import opened DaemonCache
  import opened DaemonFrames
  import opened DaemonInvariants
  import opened DaemonConfig
  import opened DaemonProbes

  // ----- the invariant holds in every reachable state ---------------------------------

  ghost predicate Inv(lib: Lib, d: State) {
    PollsInv(d) && HistoryInv(d) && StoreInv(d) && ConfigInv(lib, d) && AgreeInv(lib, d) && ProbesInv(d)
  }

  lemma InitialInv(lib: Lib, d: State)
    requires Daemon.Initial(lib, d)
    ensures Inv(lib, d)
  {
  }

  lemma NextInvPoll(lib: Lib, d: State, a: Action)
    requires Inv(lib, d) && PollEnabled(d, a)
    ensures Inv(lib, PollNext(d, a))
  {
    PollFrame(d, a);
    PollsPoll(d, a);
    HistoryPoll(d, a);
    StorePoll(d, a);
    ConfigPoll(lib, d, a);
    AgreeKept(lib, d, PollNext(d, a));
    ProbesKept(d, PollNext(d, a));
  }

  lemma NextInvProbe(lib: Lib, d: State, a: Action)
    requires Inv(lib, d) && ProbeEnabled(d, a)
    ensures Inv(lib, ProbeNext(d, a))
  {
    var n := ProbeNext(d, a);
    ProbeFrame(d, a);
    PollsKept(d, n);
    HistoryProbe(d, a);
    StoreKept(d, n);
    ConfigProbe(lib, d, n);
    AgreeKept(lib, d, n);
    ProbesProbe(d, a);
  }

  lemma NextInvReload(lib: Lib, d: State, a: Action)
    requires Inv(lib, d) && ReloadEnabled(d, a)
    ensures Inv(lib, ReloadNext(lib, d, a))
  {
    var n := ReloadNext(lib, d, a);
    ReloadFrame(lib, d, a);
    PollsKept(d, n);
    HistoryReload(lib, d, a);
    StoreKept(d, n);
    ConfigReload(lib, d, a);
    AgreeReload(lib, d, a);
    ProbesKept(d, n);
  }

  lemma NextInv(lib: Lib, d: State, a: Action)
    requires Inv(lib, d) && Enabled(d, a)
    ensures Inv(lib, Next(lib, d, a))
  {
    if PollEnabled(d, a) {
      NextInvPoll(lib, d, a);
    } else if ProbeEnabled(d, a) {
      NextInvProbe(lib, d, a);
    } else {
      NextInvReload(lib, d, a);
    }
  }

  ghost function Invariant(lib: Lib): State -> bool {
    d => Inv(lib, d)
  }

  lemma InvariantClosed(lib: Lib)
    ensures Closed(lib, _ => true, Invariant(lib))
  {
    forall d, a | Inv(lib, d) && Enabled(d, a) ensures Inv(lib, Next(lib, d, a)) {
      NextInv(lib, d, a);
    }
  }

  lemma InvariantInitial(lib: Lib)
    ensures forall d :: Daemon.Initial(lib, d) ==> Invariant(lib)(d)
  {
    forall d | Daemon.Initial(lib, d) ensures Inv(lib, d) {
      InitialInv(lib, d);
    }
  }

  lemma RunInv(lib: Lib, run: seq<State>, actions: seq<Action>, i: nat)
    requires IsRun(lib, run, actions) && i < |run|
    ensures Inv(lib, run[i])
  {
    InvariantClosed(lib);
    InvariantInitial(lib);
    RunKept(lib, Invariant(lib), run, actions, i);
  }

  lemma ReachableInv(lib: Lib, d: State)
    requires Reachable(lib, d)
    ensures Inv(lib, d)
  {
    InvariantClosed(lib);
    InvariantInitial(lib);
    ReachableKept(lib, Invariant(lib), d);
  }

  lemma ReachableWiring(lib: Lib, d: State)
    requires Reachable(lib, d)
    ensures WiringInv(lib, d)
  {
    ReachableInv(lib, d);
  }

  lemma ReachableAgreement(lib: Lib, d: State)
    requires Reachable(lib, d)
    ensures AgreeInv(lib, d)
  {
    ReachableInv(lib, d);
  }

  lemma ReachableHistory(lib: Lib, d: State)
    requires Reachable(lib, d)
    ensures PollsInv(d) && EventsInv(d.events, d.clock)
  {
    ReachableInv(lib, d);
  }

  lemma ReachableCache(lib: Lib, d: State)
    requires Reachable(lib, d)
    ensures CacheInv(d.eg, d.events)
  {
    ReachableInv(lib, d);
  }

  lemma ReachableConfig(lib: Lib, d: State)
    requires Reachable(lib, d)
    ensures ConfigInv(lib, d)
  {
    ReachableInv(lib, d);
  }

  lemma ReachableRecord(lib: Lib, d: State, i: nat)
    requires Reachable(lib, d) && i < |d.polls|
    ensures RecordGood(d, i)
  {
    ReachableInv(lib, d);
  }

  // ----- every safe poll has a proof ------------------------------------------------------

  /** The probe behind a verdict. */
  ghost predicate Witness(h: seq<Event>, j: nat, k: nat) {
    && j < k < |h| && h[j].Probed? && h[k].Verdict?
    && h[j].ok && Proven(h[j].settings, h[j].world)
    && h[j].settings == h[k].settings
    && (forall m | 0 <= m < k && (h[m].Cleared? || h[m].Reconfigured?) :: m < j)
    && ((j == k - 1 && h[j].at == h[k].at) || h[k].at - h[j].at < h[k].settings.spec.ttl)
  }

  lemma VerdictWitness(h: seq<Event>, clock: int, k: nat) returns (j: nat)
    requires EventsInv(h, clock) && k < |h| && h[k].Verdict? && h[k].ok
    ensures Witness(h, j, k)
  {
    assert WellRecorded(h, k);
    j := LastProbe(h[..k]).value;
    LastProbeMeaning(h[..k], j);
    assert WellRecorded(h, j);
    ProbeMeaning(h[j].settings, h[j].world);
    forall m | 0 <= m < k && (h[m].Cleared? || h[m].Reconfigured?) ensures m < j {
      assert h[m] == h[..k][m];
    }
  }

  /** The probe behind a verdict, whichever way it went. */
  ghost predicate Backing(h: seq<Event>, j: nat, k: nat) {
    && j < k < |h| && h[j].Probed? && h[k].Verdict?
    && h[j].settings == h[k].settings && (h[k].ok <==> Proven(h[j].settings, h[j].world))
    && (forall m | 0 <= m < k && (h[m].Cleared? || h[m].Reconfigured?) :: m < j)
    && ((j == k - 1 && h[j].at == h[k].at) || h[k].at - h[j].at < h[k].settings.spec.ttl)
  }

  lemma VerdictBacking(h: seq<Event>, clock: int, k: nat) returns (j: nat)
    requires EventsInv(h, clock) && k < |h| && h[k].Verdict?
    ensures Backing(h, j, k)
  {
    assert WellRecorded(h, k);
    j := LastProbe(h[..k]).value;
    LastProbeMeaning(h[..k], j);
    assert WellRecorded(h, j);
    ProbeMeaning(h[j].settings, h[j].world);
    forall m | 0 <= m < k && (h[m].Cleared? || h[m].Reconfigured?) ensures m < j {
      assert h[m] == h[..k][m];
    }
  }

  /** A poll that was given a verdict was given it exactly as the probe behind it proved the exit or not. */
  lemma VerdictExplained(lib: Lib, d: State, i: nat) returns (j: nat, k: nat)
    requires Reachable(lib, d) && i < |d.polls| && d.polls[i].poll.tunnelOK && d.polls[i].poll.verify
    ensures Backing(d.events, j, k) && d.polls[i].mark == Some(k)
    ensures d.polls[i].poll.egressOK <==> Proven(d.events[j].settings, d.events[j].world)
  {
    ReachableHistory(lib, d);
    ReachableRecord(lib, d, i);
    k := d.polls[i].mark.value;
    j := VerdictBacking(d.events, d.clock, k);
  }

  /**
   Every poll judged safe with verification on rests on a successful probe: it
   was judged against the settings the checker still held when it gave the
   poll its verdict, was made after the last invalidation or reconfiguration
   before that verdict, and was made by that very evaluation or is younger than
   the cache lifetime.
   */
  lemma ProofWitness(lib: Lib, d: State, i: nat) returns (j: nat, k: nat)
    requires Reachable(lib, d) && i < |d.polls|
    requires d.polls[i].poll.Safe() && d.polls[i].poll.verify
    ensures Witness(d.events, j, k)
    ensures d.polls[i].mark == Some(k) && d.events[k].tick == d.polls[i].tick <= d.events[k].at
  {
    ReachableHistory(lib, d);
    ReachableRecord(lib, d, i);
    k := d.polls[i].mark.value;
    j := VerdictWitness(d.events, d.clock, k);
    assert WellRecorded(d.events, k);
  }

  /** After a poll that found the tunnel down, no probe made before its invalidation ever makes a poll safe again. */
  lemma NoReuseAfterFailure(lib: Lib, d: State, failed: nat, i: nat) returns (j: nat, k: nat)
    requires Reachable(lib, d) && failed < i < |d.polls|
    requires !d.polls[failed].poll.tunnelOK
    requires d.polls[i].poll.Safe() && d.polls[i].poll.verify
    ensures Witness(d.events, j, k) && d.polls[i].mark == Some(k)
    ensures var mark := d.polls[failed].mark;
            mark.Some? && mark.value < |d.events| && d.events[mark.value].Cleared? && j > mark.value
  {
    j, k := ProofWitness(lib, d, i);
    ReachableRecord(lib, d, failed);
    ReachableRecord(lib, d, i);
    assert Before(d.polls[failed].mark, d.polls[i].mark);
  }

  // ----- detection --------------------------------------------------------------------------

  lemma MulMonotone(a: int, b: int, c: int)
    requires a >= b && c > 0
    ensures a * c >= b * c
  {
  }

  /** From time t on no probe succeeds, and the polls that begin after the cache has run out verify, with a threshold of at most D. */
  ghost predicate ExitLost(d: State, t: int, ttl: int, threshold: int) {
    && (forall k | 0 <= k < |d.events| && d.events[k].Probed? && d.events[k].at >= t :: !d.events[k].ok)
    && (forall k | 0 <= k < |d.events| && d.events[k].Verdict? && d.events[k].at >= t :: d.events[k].settings.spec.ttl <= ttl)
    && (forall i | 0 <= i < |d.polls| && d.polls[i].tick >= t + ttl ::
          d.polls[i].poll.verify && d.polls[i].poll.downCycles <= threshold)
  }

  /** Polls at most `period` apart, from early enough until late enough. */
  predicate PolledThrough(polls: seq<PollRecord>, from: int, to: int, period: int) {
    && polls != [] && polls[0].tick <= from + period && polls[|polls| - 1].tick >= to
    && forall i | 0 <= i < |polls| - 1 :: polls[i + 1].tick - polls[i].tick <= period
  }

  /** Once the cache has run out a poll cannot be safe. */
  lemma LatePollUnsafe(lib: Lib, d: State, t: int, ttl: int, threshold: int, i: nat)
    requires Reachable(lib, d) && ttl >= 0 && ExitLost(d, t, ttl, threshold)
    requires i < |d.polls| && d.polls[i].tick >= t + ttl
    ensures !d.polls[i].poll.Safe()
  {
    if d.polls[i].poll.Safe() {
      var j, k := ProofWitness(lib, d, i);
      assert false;
    }
  }

  /** The first poll at or after a time. */
  lemma FirstFrom(polls: seq<PollRecord>, from: int) returns (f: nat)
    requires polls != [] && polls[|polls| - 1].tick >= from
    ensures f < |polls| && polls[f].tick >= from && (f > 0 ==> polls[f - 1].tick < from)
  {
    f := |polls| - 1;
    while f > 0 && polls[f - 1].tick >= from
      invariant f < |polls| && polls[f].tick >= from
    {
      f := f - 1;
    }
  }

  lemma EarlierBound(from: int, k: int, n: int, period: int)
    requires k < n && period > 0
    ensures from + (k - 1 + 1) * period < from + n * period
    ensures from + (k + 1) * period == from + (k - 1 + 1) * period + period
  {
    assert (n - k) * period > 0;
  }

  lemma {:induction false} PollsSpaced(polls: seq<PollRecord>, from: int, n: nat, period: int, f: nat, k: nat)
    requires period > 0 && k < n && PolledThrough(polls, from, from + n * period, period)
    requires f < |polls| && polls[f].tick <= from + period
    ensures f + k < |polls| && polls[f + k].tick <= from + (k + 1) * period
  {
    if k > 0 {
      PollsSpaced(polls, from, n, period, f, k - 1);
      EarlierBound(from, k, n, period);
      assert f + k - 1 < |polls| - 1;
      assert polls[f + k].tick - polls[f + k - 1].tick <= period;
    }
  }

  lemma TicksAscend(lib: Lib, d: State, i: nat, j: nat)
    requires Reachable(lib, d) && i <= j < |d.polls|
    ensures d.polls[i].tick <= d.polls[j].tick
  {
    ReachableRecord(lib, d, i);
    ReachableRecord(lib, d, j);
  }

  /** A run of at least `threshold` unsafe polls ends in a kill when no threshold at its end is higher. */
  lemma UnsafeRunKills(lib: Lib, d: State, f: nat, i: nat, threshold: nat)
    requires Reachable(lib, d) && f <= i < |d.polls| && i + 1 - f >= threshold >= 1
    requires forall m | f <= m <= i :: !d.polls[m].poll.Safe()
    requires d.polls[i].poll.downCycles <= threshold
    ensures d.polls[i].killed
  {
    ReachableRecord(lib, d, i);
    var ps := PollsIn(d.polls);
    var k := End(START, ps[..i + 1]).streak;
    StreakIsSuffix(ps[..i + 1]);
    SuffixCovers(ps, f, i, k);
    KillCharacterisation(ps, i, k);
  }

  lemma SuffixCovers(ps: seq<Poll>, f: nat, i: nat, k: nat)
    requires f <= i < |ps| && MaximalUnsafeSuffix(ps[..i + 1], k) && forall m | f <= m <= i :: !ps[m].Safe()
    ensures k >= i + 1 - f
  {
  }

  /** The first poll from a time on, and the one n - 1 polls later. */
  lemma LateRun(polls: seq<PollRecord>, from: int, n: nat, period: int) returns (f: nat, i: nat)
    requires n >= 1 && period > 0 && PolledThrough(polls, from, from + n * period, period)
    ensures i == f + n - 1 < |polls| && polls[f].tick >= from && polls[i].tick <= from + n * period
  {
    MulMonotone(n, 0, period);
    f := FirstFrom(polls, from);
    assert f > 0 ==> polls[f].tick - polls[f - 1].tick <= period;
    PollsSpaced(polls, from, n, period, f, n - 1);
    i := f + n - 1;
  }

  /**
   Detection bound. If every probe made from time t on fails, a kill happens
   at a poll begun by t + TTL + D*P: whatever forced probes, tunnel failures
   and reloads are interleaved, as long as the lifetime stays at most TTL, the
   threshold at most D and the polls at most P apart.
   */
  lemma DetectionBound(lib: Lib, d: State, t: int, ttl: int, threshold: nat, period: int)
    returns (i: nat)
    requires Reachable(lib, d)
    requires ttl >= 0 && threshold >= 1 && period > 0
    requires ExitLost(d, t, ttl, threshold)
    requires PolledThrough(d.polls, t + ttl, t + ttl + threshold * period, period)
    ensures i < |d.polls| && d.polls[i].killed
    ensures t + ttl <= d.polls[i].tick <= t + ttl + threshold * period
  {
    var f: nat;
    f, i := LateRun(d.polls, t + ttl, threshold, period);
    LateRunUnsafe(lib, d, t, ttl, threshold, f, i);
    TicksAscend(lib, d, f, i);
    UnsafeRunKills(lib, d, f, i, threshold);
  }

  lemma LateRunUnsafe(lib: Lib, d: State, t: int, ttl: int, threshold: int, f: nat, i: nat)
    requires Reachable(lib, d) && ttl >= 0 && ExitLost(d, t, ttl, threshold)
    requires f <= i < |d.polls| && d.polls[f].tick >= t + ttl
    ensures forall m | f <= m <= i :: !d.polls[m].poll.Safe()
  {
    forall m | f <= m <= i ensures !d.polls[m].poll.Safe() {
      TicksAscend(lib, d, f, m);
      LatePollUnsafe(lib, d, t, ttl, threshold, m);
    }
  }

  // ----- economy of the cache ---------------------------------------------------------------

  function CountProbes(h: seq<Event>): nat {
    if h == [] then 0 else CountProbes(h[..|h| - 1]) + (if h[|h| - 1].Probed? then 1 else 0)
  }

  /** A stretch of history that opens with a probe and holds no invalidation, reconfiguration or later forced probe. */
  ghost predicate Quiet(h: seq<Event>, a: nat, b: nat) {
    && a < b <= |h| && h[a].Probed?
    && forall k | a < k < b :: h[k].Verdict? || (h[k].Probed? && !h[k].force)
  }

  lemma {:induction false} ProbesSpaced(h: seq<Event>, clock: int, a: nat, b: nat) returns (last: nat)
    requires EventsInv(h, clock) && Quiet(h, a, b)
    ensures a <= last < b && h[last].Probed? && h[last].settings == h[a].settings
    ensures forall k | last < k < b :: h[k].Verdict?
    ensures (CountProbes(h[a..b]) - 1) * h[a].settings.spec.ttl <= h[last].at - h[a].at
    ensures CountProbes(h[a..b]) >= 1
    decreases b
  {
    var ttl := h[a].settings.spec.ttl;
    assert h[a..b][..b - a - 1] == h[a..b - 1];
    if b == a + 1 {
      last := a;
      assert h[a..b - 1] == [];
      assert CountProbes(h[a..b]) == 1;
    } else {
      last := ProbesSpaced(h, clock, a, b - 1);
      if h[b - 1].Probed? {
        assert WellRecorded(h, b - 1);
        LastProbeMeaning(h[..b - 1], last);
        OneMoreProbe(CountProbes(h[a..b - 1]), ttl, h[last].at - h[a].at, h[b - 1].at - h[last].at);
        last := b - 1;
      }
    }
  }

  lemma OneMoreProbe(n: int, ttl: int, span: int, gap: int)
    requires (n - 1) * ttl <= span && ttl <= gap
    ensures (n + 1 - 1) * ttl <= span + gap
  {
    assert n * ttl == (n - 1) * ttl + ttl;
  }

  lemma WindowArithmetic(n: nat, ttl: int, window: int)
    requires ttl > 0 && n >= 1 && (n - 1) * ttl <= window
    ensures n <= window / ttl + 1
  {
    var q := window / ttl;
    assert window < (q + 1) * ttl;
    if n - 1 >= q + 1 {
      MulMonotone(n - 1, q + 1, ttl);
    }
  }

  /** Between invalidations, reconfigurations and forced requests a window of time W sees at most W/TTL + 1 probes. */
  lemma CacheEconomy(lib: Lib, d: State, a: nat, b: nat, window: int)
    requires Reachable(lib, d) && Quiet(d.events, a, b)
    requires d.events[a].settings.spec.ttl > 0
    requires forall k | a <= k < b && d.events[k].Probed? :: d.events[k].at <= d.events[a].at + window
    ensures CountProbes(d.events[a..b]) <= window / d.events[a].settings.spec.ttl + 1
  {
    ReachableHistory(lib, d);
    QuietEconomy(d.events, d.clock, a, b, window);
  }

  lemma QuietEconomy(h: seq<Event>, clock: int, a: nat, b: nat, window: int)
    requires EventsInv(h, clock) && Quiet(h, a, b) && h[a].settings.spec.ttl > 0
    requires forall k | a <= k < b && h[k].Probed? :: h[k].at <= h[a].at + window
    ensures CountProbes(h[a..b]) <= window / h[a].settings.spec.ttl + 1
  {
    var last := ProbesSpaced(h, clock, a, b);
    WindowArithmetic(CountProbes(h[a..b]), h[a].settings.spec.ttl, window);
  }

  /** While a probe would come out as the last valid one did, asking the cache and asking the network come to the same. */
  lemma CacheIsTransparent(lib: Lib, d: State, j: nat, now: int, w: World)
    requires Reachable(lib, d) && LastProbe(d.events) == Some(j)
    requires j < |d.events| && d.events[j].Probed? ==> Probe(d.eg.settings, w) == Probe(d.eg.settings, d.events[j].world)
    ensures j < |d.events| && d.events[j].Probed? && d.events[j].settings == d.eg.settings
    ensures Evaluated(d.eg, false, now, w).1.(probed := true) == Evaluated(d.eg, true, now, w).1
  {
    ReachableCache(lib, d);
    CachedFromAlike(d.eg, d.events[j].world, w);
    CacheRefinesFresh(d.eg, now, w);
  }

  // ----- configuration --------------------------------------------------------------------------

  /**
   Overlapping reloads or not, the live configuration is valid, so its durations
   parse and every threshold a poll has used is at least 1; interface, socket
   path and log file are the start-up ones, in the cell and in the checkers.
   */
  lemma LiveConfigValid(lib: Lib, d: State)
    requires Reachable(lib, d)
    ensures Valid(lib, d.live) && ParseDurations(lib, d.live).Success?
    ensures SameWiring(d.startup, d.live)
    ensures d.eg.settings.spec.iface == d.tc.iface == d.startup.interface
    ensures forall i | 0 <= i < |d.polls| :: d.polls[i].poll.downCycles >= 1
  {
    ReachableConfig(lib, d);
  }

  /** Every kill went for a valid list of targets, whichever reloads came between the poll's beginning and its kill. */
  lemma KillsHaveTargets(lib: Lib, d: State, i: nat)
    requires Reachable(lib, d) && i < |d.polls| && d.polls[i].killed
    ensures ValidTargets(d.polls[i].targets)
  {
    ReachableConfig(lib, d);
    assert PollSound(d.polls[i]);
  }

  /** Every successful reload listed a start-up key as needing a restart exactly when the file's value differed from the start-up one. */
  lemma RestartReported(lib: Lib, d: State, i: nat, r: ReloadResult, k: Key)
    requires Reachable(lib, d) && i < |d.reports| && Reports(d.reports[i].changed, r)
    ensures k in r.daemonRestart <==>
            Name(k) in {"interface", "socket_path", "log_file"} && Field(d.startup, k) != Field(d.reports[i].loaded, k)
  {
    HeadingNames(k);
    ReachableInv(lib, d);
    AmongMembers(d.reports[i].changed, RESTART_KEYS, k);
  }

  /** With reloads that never overlapped, whatever polls and probes ran in between, the checkers agree with the cell whenever no reload is half done. */
  lemma CheckersAgree(lib: Lib, d: State)
    requires Reachable(lib, d) && !d.overlapped
    requires forall id <- d.reloads :: !Touching(d.reloads[id])
    ensures Agrees(lib, d.live, d.eg.settings, d.tc)
  {
    ReachableAgreement(lib, d);
  }

  /** In particular right after each success. */
  lemma CheckersAgreeAfterReload(lib: Lib, d: State, a: Action)
    requires Reachable(lib, d) && ReloadEnabled(d, a) && a.ReloadInstall? && !d.overlapped
    ensures var n := ReloadNext(lib, d, a);
            n.live == d.reloads[a.id].effective && Agrees(lib, n.live, n.eg.settings, n.tc)
  {
    ReachableAgreement(lib, d);
    assert Touching(d.reloads[a.id]);
  }

  lemma RefusedByEgress(lib: Lib, d: State, id: nat, spare: seq<string>)
    requires ReloadsInv(lib, d) && id in d.reloads && d.reloads[id].Prepared?
    requires id !in AfterEgress(lib, d, id, spare).reloads
    ensures AfterEgress(lib, d, id, spare) == d.(reloads := d.reloads - {id})
    ensures !lib.urlParses(d.reloads[id].loaded.probeURL)
  {
    assert ReloadGood(lib, d.startup, d.reloads[id]);
    ValidIsApplicable(lib, d.reloads[id].effective);
  }

  lemma NotRefusedByTunnel(lib: Lib, d: State, id: nat)
    requires WiringInv(lib, d) && ReloadsInv(lib, d) && id in d.reloads && d.reloads[id].EgressDone?
    ensures id in AfterTunnel(lib, d, id).reloads
  {
    CarriedGood(lib, d, id);
  }

  lemma RefusedCleanly(lib: Lib, d: State, a: Action)
    requires ConfigInv(lib, d) && ReloadEnabled(d, a) && !a.ReloadInstall? && !a.ReloadLoad?
    requires a.id !in ReloadNext(lib, d, a).reloads
    ensures a.ReloadEgress? && ReloadNext(lib, d, a) == d.(reloads := d.reloads - {a.id})
    ensures !lib.urlParses(d.reloads[a.id].loaded.probeURL)
  {
    if a.ReloadEgress? {
      RefusedByEgress(lib, d, a.id, a.spare);
    } else if a.ReloadTunnel? {
      NotRefusedByTunnel(lib, d, a.id);
    }
  }

  lemma RefusedAtLoading(lib: Lib, d: State, a: Action)
    requires ReloadEnabled(d, a) && a.ReloadLoad?
    requires a.id !in ReloadNext(lib, d, a).reloads
    ensures ReloadNext(lib, d, a) == d
    ensures !(LoadConfig(a.file).Success? && Valid(lib, LoadConfig(a.file).value))
  {
  }

  /**
   A reload that ends without installing its configuration was refused before
   its first write, and has changed nothing but its own place: the file did not
   load to a valid configuration, or url.Parse refused the probe URL.
   */
  lemma FailedReloadChangesNothing(lib: Lib, d: State, a: Action)
    requires Reachable(lib, d) && ReloadEnabled(d, a) && !a.ReloadInstall?
    requires a.id !in ReloadNext(lib, d, a).reloads
    ensures ReloadNext(lib, d, a) == d.(reloads := d.reloads - {a.id})
    ensures if a.ReloadLoad? then !(LoadConfig(a.file).Success? && Valid(lib, LoadConfig(a.file).value))
            else a.ReloadEgress? && !lib.urlParses(d.reloads[a.id].loaded.probeURL)
  {
    if a.ReloadLoad? {
      RefusedAtLoading(lib, d, a);
      assert d.reloads - {a.id} == d.reloads;
    } else {
      ReachableConfig(lib, d);
      RefusedCleanly(lib, d, a);
    }
  }

  // ----- what is published and what is killed ------------------------------------------------------

  /** Under any mix of poll and probe publications the published streak is the unsafe suffix of the published polls. */
  lemma PublishedStreak(lib: Lib, d: State)
    requires Reachable(lib, d)
    ensures d.store.streak >= 0 && MaximalUnsafeSuffix(PollsIn(d.polls[..PublishedPolls(d)]), d.store.streak)
  {
    ReachableInv(lib, d);
    StreakIsSuffix(PollsIn(d.polls[..PublishedPolls(d)]));
  }

  lemma RunProbes(lib: Lib, run: seq<State>, actions: seq<Action>, i: nat)
    requires IsRun(lib, run, actions) && i < |run|
    ensures ProbesInv(run[i])
  {
    RunInv(lib, run, actions, i);
  }

  lemma ReachableProbes(lib: Lib, d: State)
    requires Reachable(lib, d)
    ensures ProbesInv(d)
  {
    ReachableInv(lib, d);
  }

  /**
   What a forced probe publishes, whatever runs between its steps: with the
   tunnel up and verification on, up exactly when a network probe forced since
   the request proved the exit; with the tunnel down, down after an
   invalidation since the request. The streak stays.
   */
  lemma ProbePublishes(lib: Lib, d: State, id: nat, now: int)
    requires Reachable(lib, d) && ProbeEnabled(d, ProbePublish(id, now))
    ensures var pc, n := d.probes[id], ProbeNext(d, ProbePublish(id, now)).store;
            && n.streak == d.store.streak
            && (pc.mark.Some? ==> pc.asked <= pc.mark.value < |d.events|)
            && (!pc.tunnelOK ==> n.state == Down && pc.mark.Some? && d.events[pc.mark.value].Cleared?)
            && (pc.tunnelOK && !pc.verify ==> n.state == Up)
            && (pc.tunnelOK && pc.verify ==> pc.mark.Some? && FreshProof(d.events[pc.mark.value], n))
  {
    ReachableProbes(lib, d);
    PublicationMeaning(d.events, d.probes[id], d.store, now);
  }

  /** What a request is remembered by: the history as it was when it came in. */
  lemma {:induction false} RequestTraced(lib: Lib, path: seq<State>, actions: seq<Action>, i: nat, id: nat) returns (k: nat)
    requires IsPath(lib, path, actions) && i < |path| && id !in path[0].probes && id in path[i].probes
    ensures k < i && actions[k] == ProbeStart(id) && path[i].probes[id].asked == |path[k].events|
    ensures forall m | k < m <= i :: id in path[m].probes
  {
    if actions[i - 1] == ProbeStart(id) {
      k := i - 1;
      RequestStarts(lib, path[k], id);
    } else {
      RequestKept(lib, path[i - 1], actions[i - 1], id);
      k := RequestTraced(lib, path, actions, i - 1, id);
    }
  }

  /** The answer of a forced probe rests on an event between its own request and its publication. */
  lemma ProbeAnswersItself(lib: Lib, run: seq<State>, actions: seq<Action>, i: nat, id: nat) returns (k: nat)
    requires IsRun(lib, run, actions) && i < |run|
    requires id in run[i].probes && run[i].probes[id].Answering? && run[i].probes[id].mark.Some?
    ensures k < i && actions[k] == ProbeStart(id) && forall m | k < m <= i :: id in run[m].probes
    ensures |run[k].events| <= run[i].probes[id].mark.value < |run[i].events|
  {
    k := RequestTraced(lib, run, actions, i, id);
    RunProbes(lib, run, actions, i);
  }

  /** No two forced probes under way share the probe or the invalidation they answer for. */
  lemma ProbesApart(lib: Lib, d: State, i: nat, j: nat)
    requires Reachable(lib, d) && i in d.probes && j in d.probes && i != j
    ensures MarksApart(d.probes[i], d.probes[j])
  {
    ReachableProbes(lib, d);
  }

  /** Along every run a poll kills exactly when the unsafe polls up to it have reached its threshold. */
  lemma KillsExactly(lib: Lib, d: State, i: nat, k: nat)
    requires Reachable(lib, d) && i < |d.polls| && MaximalUnsafeSuffix(PollsIn(d.polls)[..i + 1], k)
    ensures d.polls[i].killed <==> k >= d.polls[i].poll.downCycles
  {
    ReachableRecord(lib, d, i);
    ReachableConfig(lib, d);
    KillCharacterisation(PollsIn(d.polls), i, k);
  }
}
