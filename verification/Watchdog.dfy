/** The debounce state machine of the kill switch, run by run, and the loop that drives it. */
module Watchdog {
  import opened Selection
  import opened Wrappers
  import opened Agent
  import opened Config

  datatype WdState = WdState(streak: nat, announced: Label)

  const START: WdState := WdState(0, Unknown)

  /** What one poll hands to the state machine. */
  datatype Poll = Poll(tunnelOK: bool, verify: bool, egressOK: bool, downCycles: int, reason: Reason) {
    predicate Safe() {
      tunnelOK && (!verify || egressOK)
    }
  }

  datatype Line = TunnelUp | PossiblyDown(streak: nat, of: int, reason: Reason) | TunnelDown(reason: Reason)

  /** New state, lines to log, and whether the kill callback ran. */
  datatype Step = Step(state: WdState, lines: seq<Line>, killed: bool)

  function Cycle(s: WdState, p: Poll): Step {
    if p.Safe() then
      if s.announced == Up && s.streak == 0 then Step(s, [], false)
      else Step(WdState(0, Up), [TunnelUp], false)
    else
      var streak := s.streak + 1;
      if streak < p.downCycles then
        Step(WdState(streak, s.announced), [PossiblyDown(streak, p.downCycles, p.reason)], false)
      else
        Step(WdState(streak, Down), if s.announced != Down then [TunnelDown(p.reason)] else [], true)
  }

  /** The state after a run of polls, and the step each poll made. */
  function End(s: WdState, polls: seq<Poll>): WdState
    decreases polls
  {
    if polls == [] then s else End(Cycle(s, polls[0]).state, polls[1..])
  }

  function Trace(s: WdState, polls: seq<Poll>): (t: seq<Step>)
    ensures |t| == |polls|
    decreases polls
  {
    if polls == [] then [] else
      var step := Cycle(s, polls[0]);
      [step] + Trace(step.state, polls[1..])
  }

  lemma {:induction false} EndConcat(s: WdState, a: seq<Poll>, b: seq<Poll>)
    ensures End(s, a + b) == End(End(s, a), b)
    decreases a
  {
    if a == [] {
      assert a + b == b;
    } else {
      EndConcat(Cycle(s, a[0]).state, a[1..], b);
      assert (a + b)[1..] == a[1..] + b;
    }
  }

  lemma {:induction false} RunConcat(s: WdState, a: seq<Poll>, b: seq<Poll>)
    ensures End(s, a + b) == End(End(s, a), b)
    ensures Trace(s, a + b) == Trace(s, a) + Trace(End(s, a), b)
    decreases a
  {
    EndConcat(s, a, b);
    if a == [] {
      assert a + b == b;
    } else {
      RunConcat(Cycle(s, a[0]).state, a[1..], b);
      assert (a + b)[1..] == a[1..] + b;
    }
  }

  lemma {:induction false} RunSnoc(s: WdState, polls: seq<Poll>, p: Poll)
    ensures End(s, polls + [p]) == Cycle(End(s, polls), p).state
    ensures Trace(s, polls + [p]) == Trace(s, polls) + [Cycle(End(s, polls), p)]
  {
    RunConcat(s, polls, [p]);
    assert [p][1..] == [];
  }

  /** Step i of a run starts from the state the first i polls led to. */
  lemma {:induction false} TraceAt(s: WdState, polls: seq<Poll>, i: nat)
    requires i < |polls|
    ensures Trace(s, polls)[i] == Cycle(End(s, polls[..i]), polls[i])
    ensures End(s, polls[..i + 1]) == Trace(s, polls)[i].state
  {
    RunConcat(s, polls[..i], polls[i..]);
    assert polls == polls[..i] + polls[i..];
    RunSnoc(s, polls[..i], polls[i]);
    assert polls[..i + 1] == polls[..i] + [polls[i]];
  }

  // ----- kills -------------------------------------------------------------------

  /** The last k polls are unsafe and the one before them, if any, is safe. */
  predicate MaximalUnsafeSuffix(polls: seq<Poll>, k: nat) {
    && k <= |polls|
    && (forall i | |polls| - k <= i < |polls| :: !polls[i].Safe())
    && (k < |polls| ==> polls[|polls| - k - 1].Safe())
  }

  lemma LongerNotMaximal(polls: seq<Poll>, m: nat, k: nat)
    requires MaximalUnsafeSuffix(polls, m) && m < k
    ensures !MaximalUnsafeSuffix(polls, k)
  {
    assert k <= |polls| ==> polls[|polls| - m - 1].Safe();
  }

  lemma {:induction false} StreakIsSuffix(polls: seq<Poll>)
    ensures MaximalUnsafeSuffix(polls, End(START, polls).streak)
    ensures End(START, polls).announced == Up && End(START, polls).streak == 0 <==>
            polls != [] && polls[|polls| - 1].Safe()
  {
    if polls != [] {
      var init, last := polls[..|polls| - 1], polls[|polls| - 1];
      StreakIsSuffix(init);
      RunSnoc(START, init, last);
      assert polls == init + [last];
    }
  }

  /**
   The streak is the length of the maximal unsafe suffix, and the killer runs at
   a poll exactly when that poll is unsafe and the suffix it ends has reached
   the threshold in force at that poll.
   */
  lemma {:induction false} KillCharacterisation(polls: seq<Poll>, i: nat, k: nat)
    requires i < |polls| && MaximalUnsafeSuffix(polls[..i + 1], k)
    ensures Trace(START, polls)[i].state.streak == k
    ensures Trace(START, polls)[i].killed <==> k > 0 && k >= polls[i].downCycles
  {
    TraceAt(START, polls, i);
    StreakIsSuffix(polls[..i + 1]);
    var m := End(START, polls[..i + 1]).streak;
    if m < k {
      LongerNotMaximal(polls[..i + 1], m, k);
    } else if k < m {
      LongerNotMaximal(polls[..i + 1], k, m);
    }
    assert polls[..i + 1][i] == polls[i];
  }

  function CountKills(t: seq<Step>): nat {
    if t == [] then 0 else (if t[0].killed then 1 else 0) + CountKills(t[1..])
  }

  lemma {:induction false} CountKillsConcat(a: seq<Step>, b: seq<Step>)
    ensures CountKills(a + b) == CountKills(a) + CountKills(b)
  {
    if a == [] {
      assert a + b == b;
    } else {
      assert (a + b)[1..] == a[1..] + b;
      CountKillsConcat(a[1..], b);
    }
  }

  /** The number of unsafe polls before the first safe one. */
  function LeadingRun(polls: seq<Poll>): (k: nat)
    ensures k <= |polls| && (forall i | 0 <= i < k :: !polls[i].Safe()) && (k < |polls| ==> polls[k].Safe())
  {
    if polls == [] || polls[0].Safe() then 0 else 1 + LeadingRun(polls[1..])
  }

  /** The lengths of the maximal blocks of unsafe polls, in order. */
  function Blocks(polls: seq<Poll>): seq<nat>
    decreases |polls|
  {
    if polls == [] then []
    else if polls[0].Safe() then Blocks(polls[1..])
    else
      var k := LeadingRun(polls);
      [k] + Blocks(polls[k..])
  }

  function Excess(length: int, threshold: int): nat {
    if length - threshold + 1 > 0 then length - threshold + 1 else 0
  }

  function TotalExcess(blocks: seq<nat>, threshold: int): nat {
    if blocks == [] then 0 else Excess(blocks[0], threshold) + TotalExcess(blocks[1..], threshold)
  }

  /** A run of unsafe polls met with a streak of m kills once per poll beyond the threshold. */
  lemma {:induction false} KillsInBlock(s: WdState, polls: seq<Poll>, threshold: int)
    requires threshold >= 1
    requires forall p <- polls :: !p.Safe() && p.downCycles == threshold
    ensures CountKills(Trace(s, polls)) == Excess(s.streak + |polls|, threshold) - Excess(s.streak, threshold)
    decreases polls
  {
    if polls != [] {
      KillsInBlock(Cycle(s, polls[0]).state, polls[1..], threshold);
      assert Trace(s, polls)[1..] == Trace(Cycle(s, polls[0]).state, polls[1..]);
      assert polls[0] in polls;
    }
  }

  lemma {:induction false} KillsFrom(s: WdState, polls: seq<Poll>, threshold: int)
    requires threshold >= 1 && (s.streak == 0 || (polls != [] ==> polls[0].Safe()))
    requires forall p <- polls :: p.downCycles == threshold
    ensures CountKills(Trace(s, polls)) == TotalExcess(Blocks(polls), threshold)
    decreases |polls|
  {
    if polls == [] {
    } else if polls[0].Safe() {
      KillsFrom(Cycle(s, polls[0]).state, polls[1..], threshold);
      assert Trace(s, polls)[1..] == Trace(Cycle(s, polls[0]).state, polls[1..]);
    } else {
      var k := LeadingRun(polls);
      assert polls == polls[..k] + polls[k..];
      RunConcat(s, polls[..k], polls[k..]);
      CountKillsConcat(Trace(s, polls[..k]), Trace(End(s, polls[..k]), polls[k..]));
      KillsInBlock(s, polls[..k], threshold);
      KillsFrom(End(s, polls[..k]), polls[k..], threshold);
    }
  }

  /** With a constant threshold the kills of a run are the sum over its unsafe blocks of what exceeds the threshold. */
  lemma {:induction false} TotalKills(polls: seq<Poll>, threshold: int)
    requires threshold >= 1 && forall p <- polls :: p.downCycles == threshold
    ensures CountKills(Trace(START, polls)) == TotalExcess(Blocks(polls), threshold)
  {
    KillsFrom(START, polls, threshold);
  }

  /**
   The comment on `cycle` says that from confirmation on the killer runs at
   every poll. That fails when the threshold is raised during the outage: here
   the label stays Down, the tunnel is still unsafe and nothing is killed.
   KillCharacterisation gives the exact condition.
   */
  lemma RaisedThresholdSuspendsKills()
    ensures var unsafe := Poll(false, true, false, 1, NoHandshake);
            var t := Trace(START, [unsafe, unsafe.(downCycles := 5)]);
            t[0].killed && !t[1].killed && t[1].state.announced == Down
  {
    var unsafe := Poll(false, true, false, 1, NoHandshake);
    var polls := [unsafe, unsafe.(downCycles := 5)];
    assert polls[1..] == [polls[1]];
    TraceAt(START, polls, 1);
    assert polls[..1] == [unsafe];
    assert End(START, [unsafe]) == WdState(1, Down) by {
      assert [unsafe][1..] == [];
    }
  }

  /** After a kill the next unsafe poll kills too unless its threshold exceeds the streak it extends. */
  lemma {:induction false} KillsPersist(polls: seq<Poll>, i: nat)
    requires i + 1 < |polls| && Trace(START, polls)[i].killed && !polls[i + 1].Safe()
    ensures Trace(START, polls)[i + 1].killed <==> polls[i + 1].downCycles <= Trace(START, polls)[i].state.streak + 1
    ensures polls[i + 1].downCycles <= polls[i].downCycles ==> Trace(START, polls)[i + 1].killed
  {
    TraceAt(START, polls, i);
    TraceAt(START, polls, i + 1);
  }

  // ----- announcements --------------------------------------------------------------

  /** A poll that settles the label: a safe one or a killing one. */
  predicate Decisive(polls: seq<Poll>, i: nat)
    requires i < |polls|
  {
    polls[i].Safe() || Trace(START, polls)[i].killed
  }

  /** The label is Unknown until the first decisive poll and then what the last decisive poll says. */
  lemma {:induction false} LabelMeaning(polls: seq<Poll>)
    ensures var said := End(START, polls).announced;
            && (said == Unknown <==> forall i | 0 <= i < |polls| :: !Decisive(polls, i))
            && (forall k: nat | k < |polls| && Decisive(polls, k) && (forall i | k < i < |polls| :: !Decisive(polls, i)) ::
                  said == if polls[k].Safe() then Up else Down)
  {
    if polls != [] {
      var n := |polls| - 1;
      var init := polls[..n];
      LabelMeaning(init);
      TraceAt(START, polls, n);
      RunSnoc(START, init, polls[n]);
      assert polls == init + [polls[n]];
      forall i | 0 <= i < n ensures Decisive(polls, i) <==> Decisive(init, i) {
        assert Trace(START, polls)[i] == Trace(START, init)[i];
      }
      if Decisive(polls, n) {
        assert End(START, polls).announced == if polls[n].Safe() then Up else Down;
      } else {
        forall k: nat | k < |polls| && Decisive(polls, k) && (forall i | k < i < |polls| :: !Decisive(polls, i))
          ensures End(START, polls).announced == if polls[k].Safe() then Up else Down
        {
          assert k != n;
          forall i | k < i < n ensures !Decisive(init, i) {
            assert !Decisive(polls, i);
          }
        }
      }
    }
  }

  predicate SaysDown(step: Step) {
    exists l <- step.lines :: l.TunnelDown?
  }

  predicate SaysUp(step: Step) {
    TunnelUp in step.lines
  }

  /** Down stays announced until a step says up. */
  lemma {:induction false} DownPersists(polls: seq<Poll>, i: nat, j: nat)
    requires i <= j <= |polls| && End(START, polls[..i]).announced == Down
    requires forall k | i <= k < j :: !SaysUp(Trace(START, polls)[k])
    ensures End(START, polls[..j]).announced == Down
    decreases j
  {
    if i < j {
      DownPersists(polls, i, j - 1);
      TraceAt(START, polls, j - 1);
      assert !SaysUp(Trace(START, polls)[j - 1]);
    }
  }

  /** Between two "tunnel DOWN" lines there is always a "tunnel UP" line, whatever the thresholds do. */
  lemma {:induction false} UpBetweenDowns(polls: seq<Poll>, i: nat, j: nat)
    requires i < j < |polls|
    requires SaysDown(Trace(START, polls)[i]) && SaysDown(Trace(START, polls)[j])
    ensures exists k | i < k < j :: SaysUp(Trace(START, polls)[k])
  {
    TraceAt(START, polls, i);
    TraceAt(START, polls, j);
    if forall k | i < k < j :: !SaysUp(Trace(START, polls)[k]) {
      DownPersists(polls, i + 1, j);
      assert false;
    }
  }

  /** Down is announced exactly while some poll of the current unsafe block has killed. */
  lemma {:induction false} DownMeaning(polls: seq<Poll>, k: nat)
    requires k == End(START, polls).streak && k <= |polls|
    ensures End(START, polls).announced == Down <==>
            exists j | |polls| - k <= j < |polls| :: Trace(START, polls)[j].killed
  {
    if polls != [] {
      var n := |polls| - 1;
      var init := polls[..n];
      StreakIsSuffix(init);
      DownMeaning(init, End(START, init).streak);
      RunSnoc(START, init, polls[n]);
      assert polls == init + [polls[n]];
      assert forall j | 0 <= j < n :: Trace(START, polls)[j] == Trace(START, init)[j];
      assert Trace(START, polls)[n].killed ==> k > 0;
    }
  }

  /**
   What each poll logs, from the k unsafe polls it ends: "tunnel UP" only when
   the poll before was not safe, the count towards the threshold below it,
   "tunnel DOWN" only for the first kill of an unsafe block, nothing otherwise.
   */
  lemma {:induction false} LinesExact(polls: seq<Poll>, i: nat, k: nat)
    requires i < |polls| && MaximalUnsafeSuffix(polls[..i + 1], k)
    ensures var p := polls[i];
            Trace(START, polls)[i].lines ==
            if k == 0 then (if i > 0 && polls[i - 1].Safe() then [] else [TunnelUp])
            else if k < p.downCycles then [PossiblyDown(k, p.downCycles, p.reason)]
            else if exists j | i - k < j < i :: Trace(START, polls)[j].killed then []
            else [TunnelDown(p.reason)]
  {
    var before := polls[..i];
    TraceAt(START, polls, i);
    KillCharacterisation(polls, i, k);
    StreakIsSuffix(before);
    DownMeaning(before, End(START, before).streak);
    RunConcat(START, before, polls[i..]);
    assert polls == before + polls[i..];
    assert polls[..i + 1][i] == polls[i];
    assert forall j | 0 <= j < i :: Trace(START, polls)[j] == Trace(START, before)[j];
  }

  // ----- the loop ----------------------------------------------------------------------

  /** What wakes the loop, with the answers its closures give on that occasion. */
  datatype Wake =
    | Heartbeat(ip: string, country: string)
    | Tick(config: Config, tunnel: (bool, Reason), egress: (bool, Reason), proof: (string, string), at: int)

  /** The egress closure is consulted only with verification on and the tunnel up. */
  function PollOf(w: Wake): Poll
    requires w.Tick?
  {
    if w.config.verifyEgress && w.tunnel.0 then
      Poll(true, true, w.egress.0, w.config.downCyclesToKill, w.egress.1)
    else
      Poll(w.tunnel.0, w.config.verifyEgress, false, w.config.downCyclesToKill, w.tunnel.1)
  }

  function PollsOf(wakes: seq<Wake>): seq<Poll> {
    if wakes == [] then []
    else
      var init, last := wakes[..|wakes| - 1], wakes[|wakes| - 1];
      if last.Tick? then PollsOf(init) + [PollOf(last)] else PollsOf(init)
  }

  function AllLines(t: seq<Step>): seq<Line> {
    if t == [] then [] else AllLines(t[..|t| - 1]) + t[|t| - 1].lines
  }

  /** The store writes a run makes: one for each tick, carrying the state the machine is in after it. */
  function WritesOf(wakes: seq<Wake>): seq<Write> {
    if wakes == [] then []
    else
      var init, last := wakes[..|wakes| - 1], wakes[|wakes| - 1];
      var s := End(START, PollsOf(wakes));
      if last.Tick? then
        WritesOf(init)
        + [PollWrite(s.announced, s.streak, PollOf(last).reason, last.proof.0, last.proof.1, last.at)]
      else WritesOf(init)
  }

  /** The settings of the two tickers: those of the last configuration whose durations parse. */
  function TickersOf(lib: Lib, d: Durations, wakes: seq<Wake>): (int, int) {
    if wakes == [] then (d.poll, d.heartbeat)
    else
      var init, last := wakes[..|wakes| - 1], wakes[|wakes| - 1];
      if last.Tick? && ParseDurations(lib, last.config).Success? then
        var e := ParseDurations(lib, last.config).value;
        (e.poll, e.heartbeat)
      else TickersOf(lib, d, init)
  }

  datatype LogLine =
    | Announcement(line: Line)
    | HeartbeatLine(state: Label, streak: nat, ip: string, country: string)
    | PollIntervalApplied(poll: int) | HeartbeatIntervalApplied(heartbeat: int)
    | ConfigInvalid(error: ConfigError)

  function Announcements(log: seq<LogLine>): seq<Line> {
    if log == [] then []
    else
      var init, last := log[..|log| - 1], log[|log| - 1];
      if last.Announcement? then Announcements(init) + [last.line] else Announcements(init)
  }

  lemma {:induction false} AnnouncementsConcat(a: seq<LogLine>, b: seq<LogLine>)
    ensures Announcements(a + b) == Announcements(a) + Announcements(b)
  {
    if b == [] {
      assert a + b == a;
    } else {
      AnnouncementsConcat(a, b[..|b| - 1]);
      assert (a + b)[..|a + b| - 1] == a + b[..|b| - 1];
    }
  }

  lemma RunStep(wakes: seq<Wake>, i: nat)
    requires i < |wakes| && wakes[i].Tick?
    ensures PollsOf(wakes[..i + 1]) == PollsOf(wakes[..i]) + [PollOf(wakes[i])]
    ensures var s := Cycle(End(START, PollsOf(wakes[..i])), PollOf(wakes[i]));
            && End(START, PollsOf(wakes[..i + 1])) == s.state
            && CountKills(Trace(START, PollsOf(wakes[..i + 1])))
               == CountKills(Trace(START, PollsOf(wakes[..i]))) + (if s.killed then 1 else 0)
            && AllLines(Trace(START, PollsOf(wakes[..i + 1])))
               == AllLines(Trace(START, PollsOf(wakes[..i]))) + s.lines
            && AllWritten(INITIAL, WritesOf(wakes[..i + 1]))
               == Written(AllWritten(INITIAL, WritesOf(wakes[..i])),
                          PollWrite(s.state.announced, s.state.streak, PollOf(wakes[i]).reason,
                                    wakes[i].proof.0, wakes[i].proof.1, wakes[i].at))
  {
    assert wakes[..i + 1][..i] == wakes[..i];
    var polls := PollsOf(wakes[..i]);
    var t, s := Trace(START, polls), Cycle(End(START, polls), PollOf(wakes[i]));
    RunSnoc(START, polls, PollOf(wakes[i]));
    CountKillsConcat(t, [s]);
    assert (t + [s])[..|t|] == t;
    var ws := WritesOf(wakes[..i]);
    assert WritesOf(wakes[..i + 1])[..|ws|] == ws;
  }

  lemma HeartbeatStep(wakes: seq<Wake>, i: nat)
    requires i < |wakes| && wakes[i].Heartbeat?
    ensures PollsOf(wakes[..i + 1]) == PollsOf(wakes[..i])
    ensures WritesOf(wakes[..i + 1]) == WritesOf(wakes[..i])
  {
    assert wakes[..i + 1][..i] == wakes[..i];
  }

  // ----- the log of the loop ---------------------------------------------------------------

  /** What the loop says about the durations it has just read, given those of its tickers. */
  function Notices(poll: int, heartbeat: int, read: Result<Durations, ConfigError>): seq<LogLine> {
    match read
    case Failure(e) => [ConfigInvalid(e)]
    case Success(d) =>
      (if d.poll != poll then [PollIntervalApplied(d.poll)] else [])
      + (if d.heartbeat != heartbeat then [HeartbeatIntervalApplied(d.heartbeat)] else [])
  }

  lemma NoticesMeaning(poll: int, heartbeat: int, read: Result<Durations, ConfigError>)
    ensures match read
            case Failure(e) => Notices(poll, heartbeat, read) == [ConfigInvalid(e)]
            case Success(d) =>
              var told := Notices(poll, heartbeat, read);
              && (forall x :: PollIntervalApplied(x) in told <==> x == d.poll != poll)
              && (forall x :: HeartbeatIntervalApplied(x) in told <==> x == d.heartbeat != heartbeat)
              && |told| == (if d.poll != poll then 1 else 0) + (if d.heartbeat != heartbeat then 1 else 0)
              && (d.poll != poll ==> told[0].PollIntervalApplied?)
  {
  }

  function Announced(lines: seq<Line>): (r: seq<LogLine>)
    ensures |r| == |lines| && forall i | 0 <= i < |r| :: r[i] == Announcement(lines[i])
  {
    seq(|lines|, i requires 0 <= i < |lines| => Announcement(lines[i]))
  }

  /** What one wake adds to the log, given the tickers and the state it finds. */
  function WakeLog(lib: Lib, tickers: (int, int), s: WdState, w: Wake): seq<LogLine> {
    match w
    case Heartbeat(ip, country) => if tickers.1 > 0 then [HeartbeatLine(s.announced, s.streak, ip, country)] else []
    case Tick(c, _, _, _, _) => Notices(tickers.0, tickers.1, ParseDurations(lib, c)) + Announced(Cycle(s, PollOf(w)).lines)
  }

  function LogOf(lib: Lib, d: Durations, wakes: seq<Wake>): seq<LogLine> {
    if wakes == [] then []
    else
      var init, last := wakes[..|wakes| - 1], wakes[|wakes| - 1];
      LogOf(lib, d, init) + WakeLog(lib, TickersOf(lib, d, init), End(START, PollsOf(init)), last)
  }

  lemma AnnouncementsOfNotices(poll: int, heartbeat: int, read: Result<Durations, ConfigError>)
    ensures Announcements(Notices(poll, heartbeat, read)) == []
  {
    match read {
      case Failure(_) =>
      case Success(d) =>
        AnnouncementsConcat(if d.poll != poll then [PollIntervalApplied(d.poll)] else [],
                            if d.heartbeat != heartbeat then [HeartbeatIntervalApplied(d.heartbeat)] else []);
    }
  }

  lemma {:induction false} AnnouncementsOfAnnounced(lines: seq<Line>)
    ensures Announcements(Announced(lines)) == lines
  {
    if lines != [] {
      var n := |lines| - 1;
      AnnouncementsOfAnnounced(lines[..n]);
      assert Announced(lines)[..n] == Announced(lines[..n]);
    }
  }

  /** The announcements in the log are those of the run's polls. */
  lemma {:induction false} AnnouncementsOfLog(lib: Lib, d: Durations, wakes: seq<Wake>)
    ensures Announcements(LogOf(lib, d, wakes)) == AllLines(Trace(START, PollsOf(wakes)))
  {
    if wakes != [] {
      var n := |wakes| - 1;
      var init, last := wakes[..n], wakes[n];
      var tickers, s := TickersOf(lib, d, init), End(START, PollsOf(init));
      AnnouncementsOfLog(lib, d, init);
      AnnouncementsConcat(LogOf(lib, d, init), WakeLog(lib, tickers, s, last));
      AnnouncementsOfWake(lib, tickers, s, last);
      LinesOfLast(wakes);
    }
  }

  /** What a wake announces: the lines of its poll, if it has one. */
  function WakeLines(s: WdState, w: Wake): seq<Line> {
    if w.Tick? then Cycle(s, PollOf(w)).lines else []
  }

  lemma LinesOfLast(wakes: seq<Wake>)
    requires wakes != []
    ensures var n := |wakes| - 1;
            AllLines(Trace(START, PollsOf(wakes)))
            == AllLines(Trace(START, PollsOf(wakes[..n]))) + WakeLines(End(START, PollsOf(wakes[..n])), wakes[n])
  {
    var n := |wakes| - 1;
    assert wakes[..n + 1] == wakes;
    if wakes[n].Tick? {
      RunStep(wakes, n);
    } else {
      HeartbeatStep(wakes, n);
    }
  }

  lemma AnnouncementsOfWake(lib: Lib, tickers: (int, int), s: WdState, w: Wake)
    ensures Announcements(WakeLog(lib, tickers, s, w)) == WakeLines(s, w)
  {
    if w.Tick? {
      var notices, lines := Notices(tickers.0, tickers.1, ParseDurations(lib, w.config)), WakeLines(s, w);
      AnnouncementsOfNotices(tickers.0, tickers.1, ParseDurations(lib, w.config));
      AnnouncementsOfAnnounced(lines);
      AnnouncementsConcat(notices, Announced(lines));
    }
  }

  // ----- the run told by the answers of its ticks ---------------------------------------------

  /** The tunnel was up and the exit, where it had to be verified, was proved. */
  predicate SafeAnswers(w: Wake) {
    w.Tick? && w.tunnel.0 && (!w.config.verifyEgress || w.egress.0)
  }

  /** The reason given by the last checker that was consulted. */
  function GivenReason(w: Wake): Reason
    requires w.Tick?
  {
    if w.tunnel.0 && w.config.verifyEgress then w.egress.1 else w.tunnel.1
  }

  function Ticks(wakes: seq<Wake>): seq<Wake> {
    Pick(wakes, (w: Wake) => w.Tick?)
  }

  /** The last k ticks were unsafe and the one before them, if any, was safe. */
  predicate UnsafeTicks(ticks: seq<Wake>, k: nat) {
    && k <= |ticks| && (forall i | |ticks| - k <= i < |ticks| :: !SafeAnswers(ticks[i]))
    && (k < |ticks| ==> SafeAnswers(ticks[|ticks| - k - 1]))
  }

  function UnsafeRun(ticks: seq<Wake>): nat {
    if ticks == [] || SafeAnswers(ticks[|ticks| - 1]) then 0 else 1 + UnsafeRun(ticks[..|ticks| - 1])
  }

  /** How many ticks ended a run of unsafe ones that had reached the threshold they read. */
  function DueKills(ticks: seq<Wake>): nat
    requires AllTicks(ticks)
  {
    if ticks == [] then 0
    else
      var n := |ticks| - 1;
      DueKills(ticks[..n]) + if UnsafeRun(ticks) > 0 && UnsafeRun(ticks) >= ticks[n].config.downCyclesToKill then 1 else 0
  }

  /** The last tick is what is published: the state after it, the reason it was given and the proof it read. */
  predicate LastPublished(ticks: seq<Wake>, s: WdState, published: Status) {
    ticks != [] && ticks[|ticks| - 1].Tick? ==>
      var w := ticks[|ticks| - 1];
      published == Status(s.announced, s.streak, GivenReason(w), w.proof.0, w.proof.1, Some(w.at))
  }

  predicate AllTicks(ticks: seq<Wake>) {
    forall i | 0 <= i < |ticks| :: ticks[i].Tick?
  }

  predicate Corresponds(polls: seq<Poll>, ticks: seq<Wake>) {
    |polls| == |ticks| && AllTicks(ticks) && forall i | 0 <= i < |ticks| :: polls[i] == PollOf(ticks[i])
  }

  lemma {:induction false} TicksCorrespond(wakes: seq<Wake>)
    ensures Corresponds(PollsOf(wakes), Ticks(wakes))
  {
    if wakes != [] {
      TicksCorrespond(wakes[..|wakes| - 1]);
    }
  }

  lemma AnswersDecide(w: Wake)
    requires w.Tick?
    ensures PollOf(w).Safe() <==> SafeAnswers(w)
    ensures PollOf(w).downCycles == w.config.downCyclesToKill && PollOf(w).reason == GivenReason(w)
  {
  }

  lemma {:induction false} UnsafeRunMeaning(ticks: seq<Wake>)
    ensures UnsafeTicks(ticks, UnsafeRun(ticks))
  {
    if ticks != [] && !SafeAnswers(ticks[|ticks| - 1]) {
      UnsafeRunMeaning(ticks[..|ticks| - 1]);
    }
  }

  lemma StreakOfTicks(polls: seq<Poll>, ticks: seq<Wake>)
    requires Corresponds(polls, ticks)
    ensures MaximalUnsafeSuffix(polls, UnsafeRun(ticks)) && End(START, polls).streak == UnsafeRun(ticks)
  {
    UnsafeRunMeaning(ticks);
    forall i | 0 <= i < |ticks| ensures polls[i].Safe() <==> SafeAnswers(ticks[i]) {
      AnswersDecide(ticks[i]);
    }
    SuffixUnique(polls, UnsafeRun(ticks));
  }

  lemma SuffixUnique(polls: seq<Poll>, k: nat)
    requires MaximalUnsafeSuffix(polls, k)
    ensures End(START, polls).streak == k
  {
    StreakIsSuffix(polls);
    var m := End(START, polls).streak;
    if m < k {
      LongerNotMaximal(polls, m, k);
    } else if k < m {
      LongerNotMaximal(polls, k, m);
    }
  }

  lemma {:induction false} KillsOfTicks(polls: seq<Poll>, ticks: seq<Wake>)
    requires Corresponds(polls, ticks)
    ensures CountKills(Trace(START, polls)) == DueKills(ticks)
  {
    if ticks != [] {
      var n := |ticks| - 1;
      KillsOfTicks(polls[..n], ticks[..n]);
      assert polls == polls[..n] + [polls[n]] && polls[..n + 1] == polls;
      RunSnoc(START, polls[..n], polls[n]);
      CountKillsConcat(Trace(START, polls[..n]), [Cycle(End(START, polls[..n]), polls[n])]);
      StreakOfTicks(polls, ticks);
      KillCharacterisation(polls, n, UnsafeRun(ticks));
      AnswersDecide(ticks[n]);
    }
  }

  lemma RunOfTicks(wakes: seq<Wake>)
    ensures AllTicks(Ticks(wakes)) && UnsafeTicks(Ticks(wakes), End(START, PollsOf(wakes)).streak)
    ensures CountKills(Trace(START, PollsOf(wakes))) == DueKills(Ticks(wakes))
  {
    TicksCorrespond(wakes);
    StreakOfTicks(PollsOf(wakes), Ticks(wakes));
    KillsOfTicks(PollsOf(wakes), Ticks(wakes));
    UnsafeRunMeaning(Ticks(wakes));
  }

  lemma TicksNext(wakes: seq<Wake>, i: nat)
    requires i < |wakes|
    ensures Ticks(wakes[..i + 1]) == if wakes[i].Tick? then Ticks(wakes[..i]) + [wakes[i]] else Ticks(wakes[..i])
  {
    assert wakes[..i + 1][..i] == wakes[..i];
  }

  class Runner {
    var state: WdState
    var pollDur: int
    var heartbeatDur: int
    var log: seq<LogLine>
    var kills: nat

    constructor (d: Durations)
      ensures state == START && pollDur == d.poll && heartbeatDur == d.heartbeat && log == [] && kills == 0
    {
      state, pollDur, heartbeatDur, log, kills := START, d.poll, d.heartbeat, [], 0;
    }

    /** Re-reads the durations of the configuration; an unparsable one keeps the previous settings. */
    method ApplyDurations(lib: Lib, c: Config)
      modifies this`pollDur, this`heartbeatDur, this`log
      ensures match ParseDurations(lib, c)
              case Failure(_) => pollDur == old(pollDur) && heartbeatDur == old(heartbeatDur)
              case Success(d) => pollDur == d.poll && heartbeatDur == d.heartbeat
      ensures log == old(log) + Notices(old(pollDur), old(heartbeatDur), ParseDurations(lib, c))
    {
      match ParseDurations(lib, c) {
        case Failure(e) =>
          log := log + [ConfigInvalid(e)];
        case Success(d) =>
          if d.poll != pollDur {
            pollDur := d.poll;
            log := log + [PollIntervalApplied(pollDur)];
          }
          if d.heartbeat != heartbeatDur {
            heartbeatDur := d.heartbeat;
            log := log + [HeartbeatIntervalApplied(heartbeatDur)];
          }
      }
    }

    method Announce(lines: seq<Line>)
      modifies this`log
      ensures log == old(log) + Announced(lines)
    {
      for i := 0 to |lines|
        invariant log == old(log) + Announced(lines)[..i]
      {
        log := log + [Announcement(lines[i])];
      }
    }

    /** A disabled heartbeat has no channel to receive from. */
    method Beat(ip: string, country: string)
      modifies this`log
      ensures log == if heartbeatDur > 0
                     then old(log) + [HeartbeatLine(state.announced, state.streak, ip, country)] else old(log)
    {
      if heartbeatDur > 0 {
        log := log + [HeartbeatLine(state.announced, state.streak, ip, country)];
      }
    }

    /** One pass of the loop body after the poll ticker fired. */
    method Tock(lib: Lib, w: Wake, store: Store)
      requires w.Tick?
      modifies this, store
      ensures var step := Cycle(old(state), PollOf(w));
              && state == step.state
              && kills == old(kills) + (if step.killed then 1 else 0)
              && log == old(log) + WakeLog(lib, (old(pollDur), old(heartbeatDur)), old(state), w)
              && log == old(log) + Notices(old(pollDur), old(heartbeatDur), ParseDurations(lib, w.config)) + Announced(step.lines)
              && store.View() == Written(old(store.View()),
                   PollWrite(state.announced, state.streak, PollOf(w).reason, w.proof.0, w.proof.1, w.at))
      ensures match ParseDurations(lib, w.config)
              case Failure(_) => pollDur == old(pollDur) && heartbeatDur == old(heartbeatDur)
              case Success(d) => pollDur == d.poll && heartbeatDur == d.heartbeat
      ensures if w.tunnel.0 && (!w.config.verifyEgress || w.egress.0) then
                state == WdState(0, Up) && kills == old(kills)
              else
                && state.streak == old(state.streak) + 1
                && kills == old(kills) + (if state.streak >= w.config.downCyclesToKill then 1 else 0)
                && state.announced == if state.streak >= w.config.downCyclesToKill then Down else old(state.announced)
      ensures store.View() == Status(state.announced, state.streak,
                                     if w.tunnel.0 && w.config.verifyEgress then w.egress.1 else w.tunnel.1,
                                     w.proof.0, w.proof.1, Some(w.at))
    {
      ApplyDurations(lib, w.config);
      var (tOK, tReason) := w.tunnel;
      var eOK, reason := false, tReason;
      if w.config.verifyEgress && tOK {
        eOK, reason := w.egress.0, w.egress.1;
      }
      var step := Cycle(state, Poll(tOK, w.config.verifyEgress, eOK, w.config.downCyclesToKill, reason));
      state := step.state;
      if step.killed {
        kills := kills + 1;
      }
      Announce(step.lines);
      store.Set(state.announced, state.streak, reason, w.proof.0, w.proof.1, w.at);
    }

    /**
     runWatchdog over any finite sequence of wakes: state, kills, announcements,
     published snapshots and ticker settings are those of the run of its polls.
     */
    method Run(lib: Lib, d: Durations, wakes: seq<Wake>, store: Store)
      requires state == START && pollDur == d.poll && heartbeatDur == d.heartbeat && log == [] && kills == 0
      requires store.View() == INITIAL
      modifies this, store
      ensures state == End(START, PollsOf(wakes))
      ensures kills == CountKills(Trace(START, PollsOf(wakes)))
      ensures log == LogOf(lib, d, wakes)
      ensures store.View() == AllWritten(INITIAL, WritesOf(wakes))
      ensures (pollDur, heartbeatDur) == TickersOf(lib, d, wakes)
      ensures AllTicks(Ticks(wakes)) && UnsafeTicks(Ticks(wakes), state.streak) && kills == DueKills(Ticks(wakes))
      ensures LastPublished(Ticks(wakes), state, store.View())
    {
      for i := 0 to |wakes|
        invariant Ran(lib, d, wakes[..i], store)
      {
        if wakes[i].Tick? {
          ServeTick(lib, d, wakes, i, store);
        } else {
          ServeHeartbeat(lib, d, wakes, i, store);
        }
      }
      assert wakes[..|wakes|] == wakes;
      RunOfTicks(wakes);
    }

    /** The loop stands where these wakes lead. */
    ghost predicate Ran(lib: Lib, d: Durations, wakes: seq<Wake>, store: Store)
      reads this, store
    {
      && state == End(START, PollsOf(wakes)) && kills == CountKills(Trace(START, PollsOf(wakes)))
      && log == LogOf(lib, d, wakes) && (pollDur, heartbeatDur) == TickersOf(lib, d, wakes)
      && store.View() == AllWritten(INITIAL, WritesOf(wakes)) && LastPublished(Ticks(wakes), state, store.View())
    }

    method ServeHeartbeat(lib: Lib, ghost d: Durations, wakes: seq<Wake>, i: nat, store: Store)
      requires i < |wakes| && wakes[i].Heartbeat? && Ran(lib, d, wakes[..i], store)
      modifies this
      ensures Ran(lib, d, wakes[..i + 1], store)
    {
      assert wakes[..i + 1][..i] == wakes[..i];
      TicksNext(wakes, i);
      HeartbeatStep(wakes, i);
      Beat(wakes[i].ip, wakes[i].country);
    }

    method ServeTick(lib: Lib, ghost d: Durations, wakes: seq<Wake>, i: nat, store: Store)
      requires i < |wakes| && wakes[i].Tick? && Ran(lib, d, wakes[..i], store)
      modifies this, store
      ensures Ran(lib, d, wakes[..i + 1], store)
    {
      assert wakes[..i + 1][..i] == wakes[..i];
      TicksNext(wakes, i);
      RunStep(wakes, i);
      Tock(lib, wakes[i], store);
    }
  }
}
