/** What the recorded history of the egress checker says about its cache, at every reachable state. */
module DaemonCache {
  import opened Wrappers
  import opened Egress
  import opened Daemon

  predicate Timed(e: Event) {
    e.Probed? || e.Verdict?
  }

  /** The latest probe that nothing has invalidated since. */
  function LastProbe(h: seq<Event>): Option<nat> {
    if h == [] then None
    else
      match h[|h| - 1]
      case Probed(_, _, _, _, _) => Some(|h| - 1)
      case Verdict(_, _, _, _) => LastProbe(h[..|h| - 1])
      case _ => None
  }

  lemma {:induction false} LastProbeMeaning(h: seq<Event>, j: nat)
    ensures LastProbe(h) == Some(j) <==> j < |h| && h[j].Probed? && forall m | j < m < |h| :: h[m].Verdict?
  {
    if h != [] && h[|h| - 1].Verdict? {
      LastProbeMeaning(h[..|h| - 1], j);
    }
  }

  /** The cache is empty, or holds what the latest valid probe came to under the settings still in force. */
  ghost predicate CacheInv(e: EgressState, h: seq<Event>) {
    && ClientCurrent(e) && VerdictBacked(e)
    && match LastProbe(h)
       case None => !e.cache.held
       case Some(j) =>
         && j < |h| && h[j].Probed? && CachedFrom(e, h[j].world)
         && h[j].settings == e.settings && h[j].at == e.cache.ts && h[j].ok == e.cache.verdict
  }

  /** The probe a verdict rests on: the latest valid one, made by that very evaluation or younger than the lifetime. */
  ghost predicate Justified(h: seq<Event>, k: nat)
    requires k < |h| && h[k].Verdict?
  {
    match LastProbe(h[..k])
    case None => false
    case Some(j) =>
      && j < k && h[j].Probed? && h[j].ok == h[k].ok && h[j].settings == h[k].settings
      && ((j == k - 1 && h[j].at == h[k].at) || h[k].at - h[j].at < h[k].settings.spec.ttl)
  }

  /** A probe is recorded with its true outcome, and an unforced one was due. */
  ghost predicate Due(h: seq<Event>, k: nat)
    requires k < |h| && h[k].Probed?
  {
    && h[k].ok == Probe(h[k].settings, h[k].world).ok
    && match LastProbe(h[..k])
       case None => true
       case Some(j) =>
         && j < k && h[j].Probed? && h[j].settings == h[k].settings
         && (!h[k].force ==> h[k].at - h[j].at >= h[k].settings.spec.ttl)
  }

  ghost predicate WellRecorded(h: seq<Event>, k: nat)
    requires k < |h|
  {
    && (h[k].Probed? ==> Due(h, k))
    && (h[k].Verdict? ==> Justified(h, k) && h[k].tick <= h[k].at)
    && (forall i | 0 <= i < k :: Timed(h[i]) && Timed(h[k]) ==> h[i].at <= h[k].at)
  }

  ghost predicate EventsInv(h: seq<Event>, clock: int) {
    && (forall k | 0 <= k < |h| :: WellRecorded(h, k))
    && (forall k | 0 <= k < |h| :: Timed(h[k]) ==> h[k].at <= clock)
  }

  lemma EventsAppend(h: seq<Event>, e: Event, clock: int, now: int)
    requires EventsInv(h, clock) && clock <= now
    requires WellRecorded(h + [e], |h|)
    requires Timed(e) ==> e.at <= now
    ensures EventsInv(h + [e], now)
  {
    var g := h + [e];
    forall k | 0 <= k < |g| ensures WellRecorded(g, k) {
      if k < |h| {
        assert WellRecorded(h, k);
        assert g[..k] == h[..k];
      }
    }
  }

  lemma EventsLater(h: seq<Event>, clock: int, now: int)
    requires EventsInv(h, clock) && clock <= now
    ensures EventsInv(h, now)
  {
  }

  lemma {:induction false} LastProbeAppend(h: seq<Event>, e: Event)
    ensures LastProbe(h + [e]) == match e
                                  case Probed(_, _, _, _, _) => Some(|h|)
                                  case Verdict(_, _, _, _) => LastProbe(h)
                                  case _ => None
  {
    assert (h + [e])[..|h|] == h;
  }

  // ----- the three operations on the checker ----------------------------------------

  ghost predicate Good(e: EgressState, h: seq<Event>, clock: int) {
    CacheInv(e, h) && EventsInv(h, clock)
  }

  lemma EvaluateKeeps(d: State, force: bool, now: int, w: World)
    requires Good(d.eg, d.events, d.clock) && d.clock <= now
    ensures var (n, r) := Evaluating(d, force, now, w);
            && Good(n.eg, n.events, now)
            && LastProbe(n.events).Some?
            && var j := LastProbe(n.events).value;
            && j < |n.events| && n.events[j].Probed? && n.events[j].ok == r.ok
            && n.events[j].settings == d.eg.settings == n.eg.settings
            && ((j == |n.events| - 1 && n.events[j].at == now) || now - n.events[j].at < d.eg.settings.spec.ttl)
  {
    BackingKept(d.eg, force, now, w, d.eg.settings);
    if Hit(d.eg, force, now) {
      EventsLater(d.events, d.clock, now);
      CacheRefinesFresh(d.eg, now, d.events[LastProbe(d.events).value].world);
    } else {
      var p := Probe(d.eg.settings, w);
      var e := Probed(now, force, d.eg.settings, w, p.ok);
      LastProbeAppend(d.events, e);
      assert (d.events + [e])[..|d.events|] == d.events;
      EventsAppend(d.events, e, d.clock, now);
      var n := Evaluated(d.eg, force, now, w).0;
      assert n.cache.(probed := true) == Recorded(d.eg.cache, Probe(n.settings, w), n.cache.ts);
    }
  }

  lemma {:induction false} VerdictKeeps(e: EgressState, h: seq<Event>, now: int, tick: int, ok: bool)
    requires Good(e, h, now) && tick <= now
    requires var j := LastProbe(h);
             && j.Some? && j.value < |h| && h[j.value].Probed? && h[j.value].ok == ok
             && ((j.value == |h| - 1 && h[j.value].at == now) || now - h[j.value].at < e.settings.spec.ttl)
    ensures Good(e, h + [Verdict(tick, now, e.settings, ok)], now)
  {
    var v := Verdict(tick, now, e.settings, ok);
    LastProbeAppend(h, v);
    assert (h + [v])[..|h|] == h;
    EventsAppend(h, v, now, now);
  }

  lemma ClearKeeps(d: State)
    requires Good(d.eg, d.events, d.clock)
    ensures Good(Clearing(d).eg, Clearing(d).events, d.clock)
  {
    LastProbeAppend(d.events, Cleared);
    EventsAppend(d.events, Cleared, d.clock, d.clock);
  }

  lemma ReconfigureKeeps(d: State, s: Settings, spare: seq<string>)
    requires Good(d.eg, d.events, d.clock)
    ensures Good(Reconfiguring(d, s, spare).eg, Reconfiguring(d, s, spare).events, d.clock)
  {
    LastProbeAppend(d.events, Reconfigured);
    EventsAppend(d.events, Reconfigured, d.clock, d.clock);
  }
}
