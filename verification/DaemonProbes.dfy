/** What a forced probe has to show for its answer, however its steps interleave with everything else. */
module DaemonProbes {
  import opened Wrappers
  import opened Config
  import opened Agent
  import opened Egress
  import opened Reload
  import opened Daemon
  import opened DaemonFrames

  /** An evaluation reports what a probe came to. */
  ghost predicate ReportsOutcome(e: Evaluation, p: Outcome) {
    && e.ok == p.ok && e.reason == p.reason
    && (p.observed.Some? ==> p.observed == Some(Observation(e.country, e.ip)))
  }

  /** An answer about to be published rests on the event it left behind, after it was asked for. */
  ghost predicate Answered(h: seq<Event>, pc: ProbePc) {
    pc.Answering? ==>
      && (pc.mark.None? <==> pc.tunnelOK && !pc.verify)
      && (pc.mark.Some? ==> pc.asked <= pc.mark.value < |h|)
      && (!pc.tunnelOK ==> h[pc.mark.value].Cleared?)
      && (pc.tunnelOK && pc.verify ==>
            var e := h[pc.mark.value];
            e.Probed? && e.force && ReportsOutcome(pc.evaluation, Probe(e.settings, e.world)))
  }

  ghost predicate ProbesInv(d: State) {
    && (forall id <- d.probes :: d.probes[id].asked <= |d.events| && Answered(d.events, d.probes[id]))
    && (forall i, j | i in d.probes && j in d.probes && i != j :: MarksApart(d.probes[i], d.probes[j]))
  }

  predicate MarksApart(a: ProbePc, b: ProbePc) {
    a.Answering? && b.Answering? && a.mark.Some? ==> a.mark != b.mark
  }

  lemma AnsweredKept(h: seq<Event>, g: seq<Event>, pc: ProbePc)
    requires |h| <= |g| && g[..|h|] == h && Answered(h, pc)
    ensures Answered(g, pc)
  {
    if pc.Answering? && pc.mark.Some? {
      assert g[pc.mark.value] == g[..|h|][pc.mark.value];
    }
  }

  /** A step that leaves the forced probes alone and only adds events keeps their answers. */
  lemma ProbesKept(d: State, n: State)
    requires ProbesInv(d) && n.probes == d.probes && Later(d, n)
    ensures ProbesInv(n)
  {
    forall id <- n.probes ensures Answered(n.events, n.probes[id]) {
      AnsweredKept(d.events, n.events, d.probes[id]);
    }
  }

  /** A step of one forced probe that leaves a new mark, or none, keeps the others apart from it. */
  lemma ProbeMoves(d: State, n: State, id: nat, pc: ProbePc)
    requires ProbesInv(d) && n.probes == d.probes[id := pc]
    requires |d.events| <= |n.events| && n.events[..|d.events|] == d.events
    requires pc.asked <= |d.events| && Answered(n.events, pc) && (pc.Answering? ==> pc.mark in {None, Some(|d.events|)})
    ensures ProbesInv(n)
  {
    forall i <- n.probes ensures Answered(n.events, n.probes[i]) {
      if i != id {
        AnsweredKept(d.events, n.events, d.probes[i]);
      }
    }
    forall i, j | i in n.probes && j in n.probes && i != j ensures MarksApart(n.probes[i], n.probes[j]) {
      if i != id {
        assert Answered(d.events, d.probes[i]);
      }
      if j != id {
        assert Answered(d.events, d.probes[j]);
      }
    }
  }

  lemma FreshEvaluationReports(d: State, now: int, w: World)
    ensures var (n, r) := Evaluating(d, true, now, w);
            && n.events == d.events + [Probed(now, true, d.eg.settings, w, r.ok)]
            && ReportsOutcome(r, Probe(d.eg.settings, w))
  {
  }

  lemma ProbesProbe(d: State, a: Action)
    requires ProbesInv(d) && ProbeEnabled(d, a)
    ensures ProbesInv(ProbeNext(d, a))
  {
    var n := ProbeNext(d, a);
    match a {
      case ProbeEvaluate(id, now, w) =>
        FreshEvaluationReports(d, now, w);
        ProbeMoves(d, n, id, n.probes[id]);
      case ProbeStart(id) => ProbeMoves(d, n, id, n.probes[id]);
      case ProbeTunnel(id, _, _) => ProbeMoves(d, n, id, n.probes[id]);
      case ProbeInvalidate(id) => ProbeMoves(d, n, id, n.probes[id]);
      case ProbePublish(_, _) =>
    }
  }

  lemma RequestStarts(lib: Lib, d: State, id: nat)
    requires Enabled(d, ProbeStart(id))
    ensures var n := Next(lib, d, ProbeStart(id)); id in n.probes && n.probes[id].asked == |d.events|
  {
  }

  /** No other step brings a forced probe into being or changes what it is remembered by. */
  lemma RequestKept(lib: Lib, d: State, a: Action, id: nat)
    requires Enabled(d, a) && a != ProbeStart(id) && id in Next(lib, d, a).probes
    ensures id in d.probes && Next(lib, d, a).probes[id].asked == d.probes[id].asked
  {
    if PollEnabled(d, a) {
      PollFrame(d, a);
    } else if ReloadEnabled(d, a) {
      ReloadFrame(lib, d, a);
    } else {
      RequestKeptByProbe(d, a, id);
    }
  }

  lemma RequestKeptByProbe(d: State, a: Action, id: nat)
    requires ProbeEnabled(d, a) && a != ProbeStart(id) && id in ProbeNext(d, a).probes
    ensures id in d.probes && ProbeNext(d, a).probes[id].asked == d.probes[id].asked
  {
  }

  /**
   What the publication of an answer shows. With the tunnel up and verification
   on it is up exactly when its probe proved the exit, and then carries the
   country and address proved; the streak stays.
   */
  lemma PublicationMeaning(h: seq<Event>, pc: ProbePc, s: Status, now: int)
    requires pc.Answering? && Answered(h, pc)
    ensures var n := Written(s, ProbeWriteOf(pc.verify, pc.tunnelOK, pc.reason, pc.evaluation, now));
            && n.streak == s.streak
            && (!pc.tunnelOK ==> n.state == Down && h[pc.mark.value].Cleared?)
            && (pc.tunnelOK && !pc.verify ==> n.state == Up)
            && (pc.tunnelOK && pc.verify ==> FreshProof(h[pc.mark.value], n))
  {
    if pc.tunnelOK && pc.verify {
      ProbeMeaning(h[pc.mark.value].settings, h[pc.mark.value].world);
    }
  }

  /** A published state that reports what a forced probe of the network found. */
  ghost predicate FreshProof(e: Event, s: Status) {
    && e.Probed? && e.force
    && s.state == (if Proven(e.settings, e.world) then Up else Down)
    && (s.state == Up ==>
          && s.country == e.settings.spec.expectedCountry
          && (e.settings.spec.expectedIP != "" ==> s.exitIP == e.settings.spec.expectedIP))
  }
}
