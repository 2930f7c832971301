/** Kill enforcement: SIGTERM to every matching process, grace, SIGKILL to what matches then. */
module Killer {
  import opened Selection
  import opened SignalPool
  import opened Text

  datatype Proc = Proc(pid: int, comm: string)

  datatype Listing = Listed(procs: seq<Proc>) | ListFailed

  datatype Signal = SIGTERM | SIGKILL

  /** An event of one batch of signals; jobs are positions in that batch. */
  datatype Sent = Sent(signal: Signal, event: SignalPool.Event)

  datatype KillFailure = SignalFailed(signal: Signal, proc: Proc, errno: int) | RelistFailed

  /** What the callback is told of one signal. */
  datatype Note = Note(signal: Signal, proc: Proc, answer: Answer)

  datatype Outcome = CannotList | Enforced(names: seq<string>, failures: seq<KillFailure>)

  /** The outside world of one enforcement: two listings, the answers by position in each batch, and whether the grace was cut short. */
  datatype Env = Env(first: Listing, second: Listing, term: nat -> Answer, kill: nat -> Answer, cancelled: bool)

  function Matching(procs: seq<Proc>, targets: seq<string>): seq<Proc> {
    Pick(procs, (p: Proc) => p.comm in targets)
  }

  function Answers(batch: seq<Proc>, answer: nat -> Answer): seq<Answer> {
    seq(|batch|, i requires 0 <= i < |batch| => answer(i))
  }

  /** The refusals other than "no such process", in batch order. */
  function Failures(signal: Signal, batch: seq<Proc>, answers: seq<Answer>): seq<KillFailure>
    requires |batch| == |answers|
  {
    if batch == [] then []
    else
      var n := |batch| - 1;
      var init := Failures(signal, batch[..n], answers[..n]);
      if answers[n].Refused? then init + [SignalFailed(signal, batch[n], answers[n].errno)] else init
  }

  function Notes(signal: Signal, batch: seq<Proc>, answers: seq<Answer>): seq<Note>
    requires |batch| == |answers|
  {
    seq(|batch|, i requires 0 <= i < |batch| => Note(signal, batch[i], answers[i]))
  }

  // ----- sorted names -----------------------------------------------------------------

  function Insert(x: string, s: seq<string>): seq<string> {
    if s == [] then [x]
    else if Less(x, s[0]) then [x] + s
    else [s[0]] + Insert(x, s[1..])
  }

  lemma {:induction false} InsertSorted(x: string, s: seq<string>)
    requires StrictlySorted(s) && x !in s
    ensures StrictlySorted(Insert(x, s))
    ensures forall y :: y in Insert(x, s) <==> y == x || y in s
  {
    if s != [] {
      if Less(x, s[0]) {
        forall j | 0 < j < |s| ensures Less(x, s[j]) {
          LessTransitive(x, s[0], s[j]);
        }
      } else {
        LessTotal(x, s[0]);
        InsertSorted(x, s[1..]);
        var rest := Insert(x, s[1..]);
        forall j | 0 <= j < |rest| ensures Less(s[0], rest[j]) {
          assert rest[j] in rest;
        }
      }
    }
  }

  method SortedNames(names: set<string>) returns (sorted: seq<string>)
    ensures StrictlySorted(sorted) && forall y :: y in sorted <==> y in names
  {
    sorted := [];
    var rest := names;
    while rest != {}
      invariant StrictlySorted(sorted) && rest <= names
      invariant forall y :: y in sorted <==> y in names && y !in rest
    {
      var x :| x in rest;
      InsertSorted(x, sorted);
      sorted := Insert(x, sorted);
      rest := rest - {x};
    }
  }

  // ----- one batch -----------------------------------------------------------------------

  function Tagged(signal: Signal, log: seq<SignalPool.Event>): (t: seq<Sent>)
    ensures |t| == |log| && forall i | 0 <= i < |t| :: t[i] == Sent(signal, log[i])
  {
    if log == [] then [] else Tagged(signal, log[..|log| - 1]) + [Sent(signal, log[|log| - 1])]
  }

  lemma {:induction false} TaggedCounts(signal: Signal, log: seq<SignalPool.Event>, e: SignalPool.Event)
    ensures multiset(Tagged(signal, log))[Sent(signal, e)] == multiset(log)[e]
  {
    if log != [] {
      TaggedCounts(signal, log[..|log| - 1], e);
      assert log == log[..|log| - 1] + [log[|log| - 1]];
    }
  }

  /** A trace in which each position of a batch is signalled once and completes once, and nothing else happens. */
  ghost predicate BatchTrace(trace: seq<Sent>, signal: Signal, answers: seq<Answer>) {
    && |trace| == 2 * |answers|
    && (forall i | 0 <= i < |trace| :: trace[i].signal == signal)
    && (forall i: nat | i < |answers| ::
          multiset(trace)[Sent(signal, Began(i))] == 1 && multiset(trace)[Sent(signal, Ended(i, answers[i]))] == 1)
  }

  method SendAll(signal: Signal, batch: seq<Proc>, answer: nat -> Answer)
    returns (failures: seq<KillFailure>, notes: seq<Note>, trace: seq<Sent>)
    ensures failures == Failures(signal, batch, Answers(batch, answer))
    ensures notes == Notes(signal, batch, Answers(batch, answer))
    ensures BatchTrace(trace, signal, Answers(batch, answer))
  {
    var answers := Answers(batch, answer);
    var errs, log := SignalAll(answers);
    trace := Tagged(signal, log);
    forall i: nat | i < |answers|
      ensures multiset(trace)[Sent(signal, Began(i))] == 1 && multiset(trace)[Sent(signal, Ended(i, answers[i]))] == 1
    {
      TaggedCounts(signal, log, Began(i));
      TaggedCounts(signal, log, Ended(i, answers[i]));
    }
    failures, notes := [], [];
    for i := 0 to |batch|
      invariant failures == Failures(signal, batch[..i], errs[..i])
      invariant notes == Notes(signal, batch, errs)[..i]
    {
      assert batch[..i + 1][..i] == batch[..i] && errs[..i + 1][..i] == errs[..i];
      notes := notes + [Note(signal, batch[i], errs[i])];
      if errs[i].Refused? {
        failures := failures + [SignalFailed(signal, batch[i], errs[i].errno)];
      }
    }
    assert batch[..|batch|] == batch && errs[..|batch|] == errs;
  }

  // ----- the two phases --------------------------------------------------------------------

  method Select(procs: seq<Proc>, targets: seq<string>) returns (batch: seq<Proc>, names: set<string>)
    ensures batch == Matching(procs, targets)
    ensures forall y :: y in names <==> HasName(batch, y)
  {
    batch, names := [], {};
    for i := 0 to |procs|
      invariant batch == Matching(procs[..i], targets)
      invariant forall y :: y in names <==> HasName(batch, y)
    {
      assert procs[..i + 1][..i] == procs[..i];
      if procs[i].comm in targets {
        HasNameAppend(batch, procs[i]);
        batch := batch + [procs[i]];
        names := names + {procs[i].comm};
      }
    }
    assert procs[..|procs|] == procs;
  }

  predicate HasName(batch: seq<Proc>, name: string) {
    exists i | 0 <= i < |batch| :: batch[i].comm == name
  }

  lemma HasNameAppend(batch: seq<Proc>, p: Proc)
    ensures forall y :: HasName(batch + [p], y) <==> HasName(batch, y) || y == p.comm
  {
    forall y ensures HasName(batch + [p], y) <==> HasName(batch, y) || y == p.comm {
      if HasName(batch, y) {
        var i :| 0 <= i < |batch| && batch[i].comm == y;
        assert (batch + [p])[i].comm == y;
      }
      assert (batch + [p])[|batch|].comm == p.comm;
    }
  }

  /** The SIGKILL batch: nothing at all without matches, after a cancellation or a failed second listing. */
  function KillBatch(targets: seq<string>, env: Env): seq<Proc> {
    if TermBatch(targets, env) == [] || env.cancelled || env.second.ListFailed? then []
    else Matching(env.second.procs, targets)
  }

  function TermBatch(targets: seq<string>, env: Env): seq<Proc> {
    if env.first.ListFailed? then [] else Matching(env.first.procs, targets)
  }

  function TermAnswers(targets: seq<string>, env: Env): (a: seq<Answer>)
    ensures |a| == |TermBatch(targets, env)|
  {
    Answers(TermBatch(targets, env), env.term)
  }

  function KillAnswers(targets: seq<string>, env: Env): (a: seq<Answer>)
    ensures |a| == |KillBatch(targets, env)|
  {
    Answers(KillBatch(targets, env), env.kill)
  }

  /** The failures of an enforcement: of the first batch, of the second listing, of the second batch. */
  function AllFailures(targets: seq<string>, env: Env): seq<KillFailure> {
    Failures(SIGTERM, TermBatch(targets, env), TermAnswers(targets, env)) + LateFailures(targets, env)
  }

  function LateFailures(targets: seq<string>, env: Env): seq<KillFailure> {
    if TermBatch(targets, env) != [] && !env.cancelled && env.second.ListFailed? then [RelistFailed]
    else Failures(SIGKILL, KillBatch(targets, env), KillAnswers(targets, env))
  }

  function AllNotes(targets: seq<string>, env: Env): seq<Note> {
    Notes(SIGTERM, TermBatch(targets, env), TermAnswers(targets, env))
    + Notes(SIGKILL, KillBatch(targets, env), KillAnswers(targets, env))
  }

  /** The SIGTERM batch runs to completion, then the SIGKILL batch, and nothing else is sent. */
  ghost predicate TwoPhases(trace: seq<Sent>, terms: seq<Answer>, kills: seq<Answer>) {
    && 2 * |terms| <= |trace|
    && BatchTrace(trace[..2 * |terms|], SIGTERM, terms)
    && BatchTrace(trace[2 * |terms|..], SIGKILL, kills)
  }

  lemma Phased(a: seq<Sent>, b: seq<Sent>, terms: seq<Answer>, kills: seq<Answer>)
    requires BatchTrace(a, SIGTERM, terms) && BatchTrace(b, SIGKILL, kills)
    ensures TwoPhases(a + b, terms, kills)
  {
    assert (a + b)[..2 * |terms|] == a && (a + b)[2 * |terms|..] == b;
  }

  // ----- the same, on the listings themselves -------------------------------------------------

  /** These notes are one signal to each listed process named by a target, in listing order, with its answer. */
  ghost predicate Signalled(notes: seq<Note>, signal: Signal, procs: seq<Proc>, targets: seq<string>, answer: nat -> Answer) {
    exists at :: Positions(procs, (p: Proc) => p.comm in targets, at)
      && |notes| == |at| && forall i | 0 <= i < |at| :: notes[i] == Note(signal, procs[at[i]], answer(i))
  }

  /** These failures are those of the notes whose signal was refused, in order. */
  ghost predicate Reported(failures: seq<KillFailure>, notes: seq<Note>) {
    exists at :: Positions(notes, (n: Note) => n.answer.Refused?, at)
      && |failures| == |at| && forall i | 0 <= i < |at| :: failures[i] == FailureOf(notes[at[i]])
  }

  function FailureOf(n: Note): KillFailure
    requires n.answer.Refused?
  {
    SignalFailed(n.signal, n.proc, n.answer.errno)
  }

  predicate NoneMatches(procs: seq<Proc>, targets: seq<string>) {
    forall p <- procs :: p.comm !in targets
  }

  /** Why nothing is listed a second time. */
  predicate StopsEarly(targets: seq<string>, env: Env) {
    env.first.ListFailed? || NoneMatches(env.first.procs, targets) || env.cancelled
  }

  function AnswersIn(notes: seq<Note>): seq<Answer> {
    seq(|notes|, i requires 0 <= i < |notes| => notes[i].answer)
  }

  lemma NotesSignalled(signal: Signal, procs: seq<Proc>, targets: seq<string>, answer: nat -> Answer)
    ensures var batch := Matching(procs, targets);
            && Signalled(Notes(signal, batch, Answers(batch, answer)), signal, procs, targets, answer)
            && AnswersIn(Notes(signal, batch, Answers(batch, answer))) == Answers(batch, answer)
  {
    var at := PickPositions(procs, (p: Proc) => p.comm in targets);
  }

  lemma {:induction false} FailuresPicked(signal: Signal, batch: seq<Proc>, answers: seq<Answer>)
    requires |batch| == |answers|
    ensures var refused := Pick(Notes(signal, batch, answers), (n: Note) => n.answer.Refused?);
            var failures := Failures(signal, batch, answers);
            && |failures| == |refused|
            && forall i | 0 <= i < |refused| :: refused[i].answer.Refused? && failures[i] == FailureOf(refused[i])
  {
    if batch != [] {
      var n := |batch| - 1;
      FailuresPicked(signal, batch[..n], answers[..n]);
      assert Notes(signal, batch, answers)[..n] == Notes(signal, batch[..n], answers[..n]);
    }
  }

  lemma FailuresReported(signal: Signal, batch: seq<Proc>, answers: seq<Answer>)
    requires |batch| == |answers|
    ensures Reported(Failures(signal, batch, answers), Notes(signal, batch, answers))
  {
    FailuresPicked(signal, batch, answers);
    var at := PickPositions(Notes(signal, batch, answers), (n: Note) => n.answer.Refused?);
  }

  /** The SIGTERM part of an enforcement, on the first listing. */
  lemma TermsMeaning(targets: seq<string>, env: Env)
    requires env.first.Listed?
    ensures var notes := Notes(SIGTERM, TermBatch(targets, env), TermAnswers(targets, env));
            && Signalled(notes, SIGTERM, env.first.procs, targets, env.term)
            && AnswersIn(notes) == TermAnswers(targets, env)
            && Reported(Failures(SIGTERM, TermBatch(targets, env), TermAnswers(targets, env)), notes)
    ensures TermBatch(targets, env) == [] <==> NoneMatches(env.first.procs, targets)
    ensures forall y :: HasName(TermBatch(targets, env), y) <==> y in targets && exists p <- env.first.procs :: p.comm == y
  {
    NotesSignalled(SIGTERM, env.first.procs, targets, env.term);
    FailuresReported(SIGTERM, TermBatch(targets, env), TermAnswers(targets, env));
    MatchingNames(env.first.procs, targets);
  }

  lemma MatchingNames(procs: seq<Proc>, targets: seq<string>)
    ensures Matching(procs, targets) == [] <==> NoneMatches(procs, targets)
    ensures forall y :: HasName(Matching(procs, targets), y) <==> y in targets && exists p <- procs :: p.comm == y
  {
    var batch := Matching(procs, targets);
    forall p: Proc ensures p in batch <==> p in procs && p.comm in targets {
      PickIn(procs, (q: Proc) => q.comm in targets, p);
    }
    forall y ensures HasName(batch, y) <==> y in targets && exists p <- procs :: p.comm == y {
      if p :| p in procs && p.comm == y && y in targets {
        assert p in batch;
      }
    }
    assert batch != [] ==> batch[0] in batch;
  }

  /** The SIGKILL part, on the second listing. */
  lemma KillsMeaning(targets: seq<string>, env: Env)
    requires TermBatch(targets, env) != []
    ensures var notes := Notes(SIGKILL, KillBatch(targets, env), KillAnswers(targets, env));
            && AnswersIn(notes) == KillAnswers(targets, env)
            && (if env.cancelled || env.second.ListFailed? then notes == []
                else Signalled(notes, SIGKILL, env.second.procs, targets, env.kill))
            && (if env.cancelled then LateFailures(targets, env) == []
                else if env.second.ListFailed? then LateFailures(targets, env) == [RelistFailed]
                else Reported(LateFailures(targets, env), notes))
  {
    if !env.cancelled && env.second.Listed? {
      NotesSignalled(SIGKILL, env.second.procs, targets, env.kill);
      FailuresReported(SIGKILL, KillBatch(targets, env), KillAnswers(targets, env));
    }
  }

  /**
   What is sent: SIGTERM to the first listing's processes named by a target, to
   the last of them before any SIGKILL, then SIGKILL to those of the second,
   unless there was nothing to terminate, the grace was cut short or the second
   listing failed.
   */
  ghost predicate RightlySent(targets: seq<string>, env: Env, notes: seq<Note>, trace: seq<Sent>, terms: nat) {
    && terms <= |notes| && TwoPhases(trace, AnswersIn(notes[..terms]), AnswersIn(notes[terms..]))
    && (if env.first.ListFailed? then terms == 0
        else Signalled(notes[..terms], SIGTERM, env.first.procs, targets, env.term))
    && (if StopsEarly(targets, env) || env.second.ListFailed? then notes[terms..] == []
        else Signalled(notes[terms..], SIGKILL, env.second.procs, targets, env.kill))
  }

  ghost predicate BothReported(failures: seq<KillFailure>, early: seq<Note>, late: seq<Note>, relistFailed: bool) {
    exists j | 0 <= j <= |failures| ::
      && Reported(failures[..j], early)
      && if relistFailed then failures[j..] == [RelistFailed] else Reported(failures[j..], late)
  }

  /** What is reported: the names of targets listed first, and the refusals of each batch, or the failed second listing. */
  ghost predicate RightlyReported(
    targets: seq<string>, env: Env, names: seq<string>, failures: seq<KillFailure>, notes: seq<Note>, terms: nat)
  {
    && terms <= |notes|
    && BothReported(failures, notes[..terms], notes[terms..], !StopsEarly(targets, env) && env.second.ListFailed?)
    && env.first.Listed?
    && (forall y :: y in names <==> y in targets && exists p <- env.first.procs :: p.comm == y)
  }

  lemma SentMeaning(targets: seq<string>, env: Env, trace: seq<Sent>)
    requires TwoPhases(trace, TermAnswers(targets, env), KillAnswers(targets, env))
             || (TermBatch(targets, env) == [] && trace == [])
    ensures RightlySent(targets, env, AllNotes(targets, env), trace, |TermBatch(targets, env)|)
  {
    var terms, kills := Notes(SIGTERM, TermBatch(targets, env), TermAnswers(targets, env)),
                        Notes(SIGKILL, KillBatch(targets, env), KillAnswers(targets, env));
    assert (terms + kills)[..|terms|] == terms && (terms + kills)[|terms|..] == kills;
    if env.first.Listed? {
      TermsMeaning(targets, env);
    }
    if TermBatch(targets, env) != [] {
      KillsMeaning(targets, env);
    }
  }

  lemma ReportMeaning(targets: seq<string>, env: Env, names: seq<string>)
    requires env.first.Listed? && forall y :: y in names <==> HasName(TermBatch(targets, env), y)
    ensures RightlyReported(targets, env, names, AllFailures(targets, env), AllNotes(targets, env), |TermBatch(targets, env)|)
  {
    var terms, kills := Notes(SIGTERM, TermBatch(targets, env), TermAnswers(targets, env)),
                        Notes(SIGKILL, KillBatch(targets, env), KillAnswers(targets, env));
    var early, late := Failures(SIGTERM, TermBatch(targets, env), TermAnswers(targets, env)), LateFailures(targets, env);
    TermsMeaning(targets, env);
    LateMeaning(targets, env);
    JoinReports(early, late, terms, kills, !StopsEarly(targets, env) && env.second.ListFailed?);
    assert (terms + kills)[..|terms|] == terms && (terms + kills)[|terms|..] == kills;
  }

  lemma LateMeaning(targets: seq<string>, env: Env)
    requires env.first.Listed?
    ensures if !StopsEarly(targets, env) && env.second.ListFailed? then LateFailures(targets, env) == [RelistFailed]
            else Reported(LateFailures(targets, env), Notes(SIGKILL, KillBatch(targets, env), KillAnswers(targets, env)))
  {
    TermsMeaning(targets, env);
    NothingReported();
    if TermBatch(targets, env) != [] {
      KillsMeaning(targets, env);
    }
  }

  lemma JoinReports(early: seq<KillFailure>, late: seq<KillFailure>, terms: seq<Note>, kills: seq<Note>, relistFailed: bool)
    requires Reported(early, terms) && if relistFailed then late == [RelistFailed] else Reported(late, kills)
    ensures BothReported(early + late, terms, kills, relistFailed)
  {
    assert (early + late)[..|early|] == early && (early + late)[|early|..] == late;
  }

  lemma NothingReported()
    ensures Reported([], [])
  {
    assert Positions([], (n: Note) => n.answer.Refused?, []);
  }

  /**
   killTargets. Every SIGTERM of the first batch completes before any SIGKILL
   of the second begins; the report lists the sorted distinct names matched
   and exactly the real signal failures, in batch order.
   */
  method KillTargets(targets: seq<string>, env: Env)
    returns (outcome: Outcome, notes: seq<Note>, trace: seq<Sent>, ghost terms: nat)
    ensures outcome.CannotList? <==> env.first.ListFailed?
    ensures RightlySent(targets, env, notes, trace, terms)
    ensures outcome.Enforced? ==> RightlyReported(targets, env, outcome.names, outcome.failures, notes, terms)
    ensures TwoPhases(trace, TermAnswers(targets, env), KillAnswers(targets, env))
    ensures notes == AllNotes(targets, env)
    ensures outcome.Enforced? ==> outcome.failures == AllFailures(targets, env)
    ensures outcome.Enforced? ==>
              StrictlySorted(outcome.names) && forall y :: y in outcome.names <==> HasName(TermBatch(targets, env), y)
  {
    terms := |TermBatch(targets, env)|;
    if env.first.ListFailed? {
      SentMeaning(targets, env, []);
      return CannotList, [], [], terms;
    }
    var termBatch, matched := Select(env.first.procs, targets);
    var names := SortedNames(matched);
    ReportMeaning(targets, env, names);
    if termBatch == [] {
      SentMeaning(targets, env, []);
      return Enforced([], []), [], [], terms;
    }
    var failures, told, sent := SendAll(SIGTERM, termBatch, env.term);
    var late, more, killed := KillSurvivors(targets, env);
    Phased(sent, killed, TermAnswers(targets, env), KillAnswers(targets, env));
    SentMeaning(targets, env, sent + killed);
    return Enforced(names, failures + late), told + more, sent + killed, terms;
  }

  /** What happens once the SIGTERM batch is complete. */
  method KillSurvivors(targets: seq<string>, env: Env)
    returns (failures: seq<KillFailure>, notes: seq<Note>, trace: seq<Sent>)
    requires TermBatch(targets, env) != []
    ensures failures == LateFailures(targets, env)
    ensures notes == Notes(SIGKILL, KillBatch(targets, env), KillAnswers(targets, env))
    ensures BatchTrace(trace, SIGKILL, KillAnswers(targets, env))
  {
    if env.cancelled {
      return [], [], [];
    }
    if env.second.ListFailed? {
      return [RelistFailed], [], [];
    }
    var killBatch, again := Select(env.second.procs, targets);
    failures, notes, trace := SendAll(SIGKILL, killBatch, env.kill);
  }

  /** In particular no SIGTERM event comes after a SIGKILL event. */
  lemma TermsPrecedeKills(trace: seq<Sent>, terms: seq<Answer>, kills: seq<Answer>)
    requires TwoPhases(trace, terms, kills)
    ensures forall i | 0 <= i < |trace| :: trace[i].signal == if i < 2 * |terms| then SIGTERM else SIGKILL
  {
    var m := 2 * |terms|;
    forall i | 0 <= i < |trace| ensures trace[i].signal == if i < m then SIGTERM else SIGKILL {
      assert trace[i] == if i < m then trace[..m][i] else trace[m..][i - m];
    }
  }

  /** Matching keeps exactly the processes whose name is a target. */
  lemma MatchingMembers(procs: seq<Proc>, targets: seq<string>, p: Proc)
    ensures multiset(Matching(procs, targets))[p] == if p.comm in targets then multiset(procs)[p] else 0
  {
    PickMembers(procs, (q: Proc) => q.comm in targets, p);
  }

  /** A failure is reported for a process exactly when its own signal was refused for another reason than that it is gone. */
  lemma {:induction false} FailuresExact(signal: Signal, batch: seq<Proc>, answers: seq<Answer>, p: Proc, errno: int)
    requires |batch| == |answers|
    ensures SignalFailed(signal, p, errno) in Failures(signal, batch, answers)
            <==> exists i | 0 <= i < |batch| :: batch[i] == p && answers[i] == Refused(errno)
    ensures forall f <- Failures(signal, batch, answers) :: f.SignalFailed? && f.signal == signal
  {
    if batch != [] {
      var n := |batch| - 1;
      FailuresExact(signal, batch[..n], answers[..n], p, errno);
      if exists i | 0 <= i < n :: batch[i] == p && answers[i] == Refused(errno) {
        var i :| 0 <= i < n && batch[i] == p && answers[i] == Refused(errno);
        assert batch[..n][i] == p && answers[..n][i] == Refused(errno);
      }
    }
  }
}
