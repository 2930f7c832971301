/**
 The bounded worker pool behind signalProcesses, as steps of a producer, an
 unbuffered channel and its workers, and a method that runs any schedule of them.
 */
module SignalPool {
  import opened Wrappers

  /** What the kernel answers to one signal; NoSuchProcess is ESRCH. */
  datatype Answer = Delivered | NoSuchProcess | Refused(errno: int)

  datatype Worker = Idle | Busy(job: nat) | Done

  datatype Event = Began(job: nat) | Ended(job: nat, answer: Answer)

  /** `next` is the producer's index; `errs[i]` is None until written; `log` is the order in which signals begin and end. */
  datatype Pool = Pool(n: nat, next: nat, closed: bool, workers: seq<Worker>, errs: seq<Option<Answer>>, log: seq<Event>)

  datatype Step = Handoff(w: nat) | Finish(w: nat, answer: Answer) | Close | Exit(w: nat)

  const MAX_WORKERS: nat := 32

  function WorkersFor(n: nat): nat {
    if n > MAX_WORKERS then MAX_WORKERS else n
  }

  function Start(n: nat): Pool {
    Pool(n, 0, false, seq(WorkersFor(n), _ => Idle), seq(n, _ => None), [])
  }

  /** A send on the unbuffered channel needs a worker waiting to receive; a closed channel sends workers home. */
  predicate Enabled(p: Pool, s: Step) {
    match s
    case Handoff(w) => !p.closed && p.next < p.n && w < |p.workers| && p.workers[w].Idle?
    case Finish(w, _) => w < |p.workers| && p.workers[w].Busy? && p.workers[w].job < |p.errs|
    case Close => !p.closed && p.next == p.n
    case Exit(w) => p.closed && w < |p.workers| && p.workers[w].Idle?
  }

  function Next(p: Pool, s: Step): Pool
    requires Enabled(p, s)
  {
    match s
    case Handoff(w) =>
      p.(next := p.next + 1, workers := p.workers[w := Busy(p.next)], log := p.log + [Began(p.next)])
    case Finish(w, answer) =>
      var i := p.workers[w].job;
      p.(workers := p.workers[w := Idle], errs := p.errs[i := Some(answer)], log := p.log + [Ended(i, answer)])
    case Close => p.(closed := true)
    case Exit(w) => p.(workers := p.workers[w := Done])
  }

  /** wg.Wait returns. */
  predicate Final(p: Pool) {
    p.closed && forall w | 0 <= w < |p.workers| :: p.workers[w].Done?
  }

  function CountBusy(ws: seq<Worker>): nat {
    if ws == [] then 0 else (if ws[0].Busy? then 1 else 0) + CountBusy(ws[1..])
  }

  function CountAtWork(ws: seq<Worker>): nat {
    if ws == [] then 0 else (if ws[0].Done? then 0 else 1) + CountAtWork(ws[1..])
  }

  lemma {:induction false} CountsUpdate(ws: seq<Worker>, w: nat, x: Worker)
    requires w < |ws|
    ensures CountBusy(ws[w := x]) == CountBusy(ws) - (if ws[w].Busy? then 1 else 0) + (if x.Busy? then 1 else 0)
    ensures CountAtWork(ws[w := x]) == CountAtWork(ws) - (if ws[w].Done? then 0 else 1) + (if x.Done? then 0 else 1)
  {
    if w > 0 {
      CountsUpdate(ws[1..], w - 1, x);
      assert ws[w := x][1..] == ws[1..][w - 1 := x];
    } else {
      assert ws[w := x][1..] == ws[1..];
    }
  }

  lemma {:induction false} BusyBound(ws: seq<Worker>)
    ensures CountBusy(ws) <= |ws|
    ensures CountBusy(ws) > 0 ==> exists w | 0 <= w < |ws| :: ws[w].Busy?
    ensures (forall w | 0 <= w < |ws| :: ws[w].Idle?) ==> CountBusy(ws) == 0
  {
    if ws != [] {
      BusyBound(ws[1..]);
      if ws[0].Busy? {
      } else if CountBusy(ws) > 0 {
        var w :| 0 <= w < |ws[1..]| && ws[1..][w].Busy?;
        assert ws[w + 1].Busy?;
      }
    }
  }

  /** Signals begun and not yet ended: |log| counts each begun one once and each ended one twice. */
  function InFlight(p: Pool): int {
    2 * p.next - |p.log|
  }

  /** Job i is in the hands of worker w. */
  predicate Holds(p: Pool, w: nat, i: nat) {
    w < |p.workers| && p.workers[w] == Busy(i)
  }

  ghost predicate Inv(p: Pool) {
    && |p.workers| == WorkersFor(p.n) && |p.errs| == p.n && p.next <= p.n
    && (p.closed ==> p.next == p.n)
    && (!p.closed ==> forall w | 0 <= w < |p.workers| :: !p.workers[w].Done?)
    && (forall w: nat, i: nat | Holds(p, w, i) :: i < p.next && p.errs[i].None?)
    && (forall w: nat, v: nat, i: nat | Holds(p, w, i) && Holds(p, v, i) :: w == v)
    && (forall i: nat | i < p.n :: p.errs[i].None? ==> i >= p.next || exists w: nat :: Holds(p, w, i))
    && (forall i: nat | i < p.n :: p.errs[i].Some? ==> i < p.next)
    && InFlight(p) == CountBusy(p.workers)
    && (forall i: nat :: multiset(p.log)[Began(i)] == if i < p.next then 1 else 0)
    && (forall i: nat, a :: multiset(p.log)[Ended(i, a)] == if i < p.n && p.errs[i] == Some(a) then 1 else 0)
  }

  lemma StartInv(n: nat)
    ensures Inv(Start(n))
  {
    BusyBound(Start(n).workers);
  }

  lemma HandoffInv(p: Pool, s: Step)
    requires Inv(p) && Enabled(p, s) && s.Handoff?
    ensures Inv(Next(p, s))
  {
    var q := Next(p, s);
    CountsUpdate(p.workers, s.w, Busy(p.next));
    assert Holds(q, s.w, p.next);
    forall i: nat | i < q.n && q.errs[i].None? ensures i >= q.next || exists w: nat :: Holds(q, w, i) {
      if i < p.next {
        var w: nat :| Holds(p, w, i);
        assert Holds(q, w, i);
      }
    }
    forall w: nat, i: nat | Holds(q, w, i) ensures i < q.next && q.errs[i].None? && (w == s.w <==> i == p.next) {
      if w != s.w {
        assert Holds(p, w, i);
      }
    }
    forall w: nat, v: nat, i: nat | Holds(q, w, i) && Holds(q, v, i) ensures w == v {
      if w != s.w && v != s.w {
        assert Holds(p, w, i) && Holds(p, v, i);
      }
    }
  }

  lemma FinishInv(p: Pool, s: Step)
    requires Inv(p) && Enabled(p, s) && s.Finish?
    ensures Inv(Next(p, s))
  {
    var q := Next(p, s);
    var job := p.workers[s.w].job;
    CountsUpdate(p.workers, s.w, Idle);
    assert Holds(p, s.w, job);
    forall i: nat | i < q.n && q.errs[i].None? ensures i >= q.next || exists w: nat :: Holds(q, w, i) {
      if i < p.next {
        var w: nat :| Holds(p, w, i);
        assert Holds(q, w, i);
      }
    }
    forall w: nat, i: nat | Holds(q, w, i) ensures Holds(p, w, i) && w != s.w && i != job {
      assert w != s.w;
      assert Holds(p, w, i);
    }
    forall w: nat, v: nat, i: nat | Holds(q, w, i) && Holds(q, v, i) ensures w == v {
      assert Holds(p, w, i) && Holds(p, v, i);
    }
  }

  lemma EndingInv(p: Pool, s: Step)
    requires Inv(p) && Enabled(p, s) && (s.Close? || s.Exit?)
    ensures Inv(Next(p, s))
  {
    var q := Next(p, s);
    if s.Exit? {
      CountsUpdate(p.workers, s.w, Done);
    }
    forall w: nat, i: nat ensures Holds(q, w, i) <==> Holds(p, w, i) {
    }
  }

  lemma NextInv(p: Pool, s: Step)
    requires Inv(p) && Enabled(p, s)
    ensures Inv(Next(p, s))
  {
    match s {
      case Handoff(_) => HandoffInv(p, s);
      case Finish(_, _) => FinishInv(p, s);
      case _ => EndingInv(p, s);
    }
  }

  /** What is left to do; every step lowers it. */
  function Measure(p: Pool): int {
    2 * (p.n - p.next) + CountBusy(p.workers) + CountAtWork(p.workers) + (if p.closed then 0 else 1)
  }

  lemma StepDecreases(p: Pool, s: Step)
    requires Inv(p) && Enabled(p, s)
    ensures 0 <= Measure(Next(p, s)) < Measure(p)
  {
    NextInv(p, s);
    match s {
      case Handoff(w) => CountsUpdate(p.workers, w, Busy(p.next));
      case Finish(w, _) => CountsUpdate(p.workers, w, Idle);
      case Exit(w) => CountsUpdate(p.workers, w, Done);
      case Close =>
    }
  }

  /** No state short of the final one is stuck. */
  lemma Progress(p: Pool) returns (s: Step)
    requires Inv(p) && !Final(p)
    ensures Enabled(p, s)
  {
    if !p.closed && p.next == p.n {
      s := Close;
    } else {
      var w: nat;
      if p.closed {
        w :| 0 <= w < |p.workers| && !p.workers[w].Done?;
      } else {
        w := 0;
      }
      if p.workers[w].Busy? {
        assert Holds(p, w, p.workers[w].job);
        s := Finish(w, Delivered);
      } else {
        s := if p.closed then Exit(w) else Handoff(w);
      }
    }
  }

  /** Every process was signalled once and every answer stored once, with process i's own answer in place i. */
  ghost predicate Complete(p: Pool) {
    && p.next == p.n && |p.errs| == p.n
    && (forall i: nat | i < p.n :: p.errs[i].Some?)
    && (forall i: nat | i < p.n :: multiset(p.log)[Began(i)] == 1)
    && (forall i: nat, a | i < p.n :: multiset(p.log)[Ended(i, a)] == if p.errs[i] == Some(a) then 1 else 0)
    && |p.log| == 2 * p.n
  }

  lemma FinalComplete(p: Pool)
    requires Inv(p) && Final(p)
    ensures Complete(p)
  {
    forall i: nat | i < p.n ensures p.errs[i].Some? {
      assert forall w: nat :: !Holds(p, w, i);
    }
    BusyBound(p.workers);
  }

  // ----- schedules -----------------------------------------------------------------

  ghost predicate IsSchedule(n: nat, run: seq<Pool>, steps: seq<Step>) {
    && |run| == |steps| + 1 && run[0] == Start(n)
    && forall i | 0 <= i < |steps| :: Enabled(run[i], steps[i]) && run[i + 1] == Next(run[i], steps[i])
  }

  lemma {:induction false} ScheduleInv(n: nat, run: seq<Pool>, steps: seq<Step>, i: nat)
    requires IsSchedule(n, run, steps) && i < |run|
    ensures Inv(run[i]) && run[i].n == n
    ensures i + Measure(run[i]) <= Measure(Start(n))
  {
    if i == 0 {
      StartInv(n);
    } else {
      ScheduleInv(n, run, steps, i - 1);
      NextInv(run[i - 1], steps[i - 1]);
      StepDecreases(run[i - 1], steps[i - 1]);
    }
  }

  /**
   In every schedule at most min(n, 32) signals are in flight at any time, no
   state but the final one is stuck, the schedule is no longer than the initial
   measure, and where it ends with all workers done every process has been
   signalled exactly once and has its own answer.
   */
  lemma EverySchedule(n: nat, run: seq<Pool>, steps: seq<Step>, i: nat)
    requires IsSchedule(n, run, steps) && i < |run|
    ensures 0 <= InFlight(run[i]) <= |run[i].workers| == if n < 32 then n else 32
    ensures i <= Measure(Start(n))
    ensures Final(run[i]) || exists s :: Enabled(run[i], s)
    ensures Final(run[i]) ==> Complete(run[i]) && forall s :: !Enabled(run[i], s)
  {
    ScheduleInv(n, run, steps, i);
    BusyBound(run[i].workers);
    if Final(run[i]) {
      FinalComplete(run[i]);
    } else {
      var s := Progress(run[i]);
    }
  }

  // ----- the pool in use ---------------------------------------------------------------

  /**
   signalProcesses under an arbitrary schedule: whichever enabled step comes
   next, it ends with the answers in process order. `answers[i]` is what the
   kernel says when process i is signalled.
   */
  method SignalAll(answers: seq<Answer>) returns (errs: seq<Answer>, log: seq<Event>)
    ensures errs == answers
    ensures |log| == 2 * |answers|
    ensures forall i: nat | i < |answers| :: multiset(log)[Began(i)] == 1 && multiset(log)[Ended(i, answers[i])] == 1
  {
    var n := |answers|;
    if n == 0 {
      return [], [];
    }
    var p := Start(n);
    StartInv(n);
    while !Final(p)
      invariant Inv(p) && p.n == n
      invariant forall i: nat | i < n && p.errs[i].Some? :: p.errs[i] == Some(answers[i])
      decreases Measure(p)
    {
      ghost var possible := Progress(p);
      var s := Choose(p, answers);
      NextInv(p, s);
      StepDecreases(p, s);
      p := Next(p, s);
    }
    FinalComplete(p);
    errs := seq(n, i requires 0 <= i < n => p.errs[i].value);
    log := p.log;
  }

  /** Any step the scheduler may take; a signal that ends does so with its process's answer. */
  method Choose(p: Pool, answers: seq<Answer>) returns (s: Step)
    requires Inv(p) && !Final(p) && p.n == |answers|
    ensures Enabled(p, s)
    ensures s.Finish? ==> s.answer == answers[p.workers[s.w].job]
  {
    if !p.closed && p.next == p.n {
      return Close;
    }
    ghost var possible := Progress(p);
    var w :| 0 <= w < |p.workers| && (p.workers[w].Busy? || (p.workers[w].Idle? && (p.closed || p.next < p.n)));
    if p.workers[w].Busy? {
      assert Holds(p, w, p.workers[w].job);
      return Finish(w, answers[p.workers[w].job]);
    }
    return if p.closed then Exit(w) else Handoff(w);
  }
}
