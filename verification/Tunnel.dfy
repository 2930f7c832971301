/** The transport-level check: the freshest handshake of a `wg show` dump against the allowed age. */
module Tunnel {
  import opened Wrappers
  import opened Text
  import opened Config
  import opened Agent

  /** The handshake time a dump line carries: its fifth tab-separated field, if there is one and it parses. */
  function Handshake(line: string): Option<int> {
    var f := Split(line, '\t');
    if |f| < 5 then None else ParseInt(TrimSpace(f[4]))
  }

  /** `latest` is the largest positive handshake time among the lines, 0 if there is none. */
  ghost predicate IsLatest(lines: seq<string>, latest: int) {
    && latest >= 0
    && (forall l <- lines :: Handshake(l).Some? ==> Handshake(l).value <= latest)
    && (latest > 0 ==> exists l <- lines :: Handshake(l) == Some(latest))
  }

  const SECOND: int := 1_000_000_000

  /** int64(d.Seconds()) in whole-second arithmetic; conversion truncates toward zero. */
  function WholeSeconds(d: int): int {
    if d >= 0 then d / SECOND else -((-d) / SECOND)
  }

  datatype TunnelState = TunnelState(iface: string, maxAge: int, pingTarget: string)

  /** Some peer line shows a positive handshake time no older than `max` seconds. */
  predicate FreshHandshake(lines: seq<string>, now: int, max: int) {
    exists l <- lines :: var ts := Handshake(l); ts.Some? && ts.value > 0 && now - ts.value <= max
  }

  /**
   The verdict of Check for a `wg show` answer (None when the command failed)
   at `now` unix seconds, given the lines of its dump.
   */
  predicate Passes(t: TunnelState, wg: Option<string>, now: int) {
    wg.Some? && FreshHandshake(Split(wg.value, '\n'), now, WholeSeconds(t.maxAge))
  }

  function Latest(lines: seq<string>): (latest: int)
    ensures IsLatest(lines, latest)
  {
    if lines == [] then 0
    else
      var init, last := lines[..|lines| - 1], lines[|lines| - 1];
      assert lines == init + [last];
      var ts := Handshake(last);
      if ts.Some? && ts.value > Latest(init) then ts.value else Latest(init)
  }

  /** What is wrong with the peers, NoReason if nothing is. */
  function PeersReport(lines: seq<string>, now: int, max: int): Reason {
    var latest := Latest(lines);
    if latest == 0 then NoHandshake
    else if now - latest > max then StaleHandshake(now - latest, max)
    else NoReason
  }

  /** What Check says about the answer, NoReason if it passes. */
  function Reported(t: TunnelState, wg: Option<string>, now: int): Reason {
    match wg
    case None => WgShowFailed
    case Some(dump) => PeersReport(Split(dump, '\n'), now, WholeSeconds(t.maxAge))
  }

  lemma LatestDecides(lines: seq<string>, latest: int, now: int, max: int)
    requires IsLatest(lines, latest)
    ensures FreshHandshake(lines, now, max) <==> latest > 0 && now - latest <= max
  {
  }

  lemma LatestUnique(lines: seq<string>, a: int, b: int)
    requires IsLatest(lines, a) && IsLatest(lines, b)
    ensures a == b
  {
  }

  predicate NoneFound(lines: seq<string>) {
    forall l <- lines | Handshake(l).Some? :: Handshake(l).value <= 0
  }

  /** Some peer's last handshake is that old, and none is fresher. */
  predicate FreshestAge(lines: seq<string>, now: int, age: int) {
    (exists l <- lines :: Handshake(l) == Some(now - age))
    && forall l <- lines | Handshake(l).Some? :: now - Handshake(l).value >= age
  }

  lemma LatestMeaning(lines: seq<string>, latest: int, now: int)
    requires IsLatest(lines, latest)
    ensures latest == 0 <==> NoneFound(lines)
    ensures latest > 0 ==> FreshestAge(lines, now, now - latest)
  {
  }

  lemma PeersReportSilent(lines: seq<string>, now: int, max: int)
    ensures PeersReport(lines, now, max) == NoReason <==> FreshHandshake(lines, now, max)
  {
    LatestDecides(lines, Latest(lines), now, max);
  }

  lemma {:induction false} NothingReported(lines: seq<string>, now: int, max: int)
    ensures PeersReport(lines, now, max) == NoHandshake <==> Latest(lines) == 0
    ensures Latest(lines) == 0 <==> NoneFound(lines)
  {
    LatestMeaning(lines, Latest(lines), now);
  }

  /** A failing check names the reason that applies: no peer with a handshake, or the age of the freshest one. */
  lemma PeersReportMeaning(lines: seq<string>, now: int, max: int)
    ensures PeersReport(lines, now, max) == NoHandshake <==> NoneFound(lines)
    ensures PeersReport(lines, now, max).StaleHandshake? ==>
              var r := PeersReport(lines, now, max);
              FreshestAge(lines, now, r.age) && r.age > max == r.max
  {
    NothingReported(lines, now, max);
    if Latest(lines) > 0 {
      LatestMeaning(lines, Latest(lines), now);
    }
  }

  lemma SilentWhenPassing(t: TunnelState, wg: Option<string>, now: int)
    ensures Reported(t, wg, now) == NoReason <==> Passes(t, wg, now)
  {
    if wg.Some? {
      PeersReportSilent(Split(wg.value, '\n'), now, WholeSeconds(t.maxAge));
    }
  }

  method ParseLatestHandshake(dump: string) returns (latest: int)
    ensures IsLatest(Split(dump, '\n'), latest) && latest == Latest(Split(dump, '\n'))
  {
    latest := 0;
    var lines := Split(dump, '\n');
    for i := 0 to |lines|
      invariant IsLatest(lines[..i], latest)
    {
      assert lines[..i + 1] == lines[..i] + [lines[i]];
      assert lines[i] in lines[..i + 1] && forall l <- lines[..i] :: l in lines[..i + 1];
      var f := Split(lines[i], '\t');
      if |f| < 5 {
        continue;
      }
      var ts := ParseInt(TrimSpace(f[4]));
      if ts.None? {
        continue;
      }
      if ts.value > latest {
        latest := ts.value;
      }
    }
    assert lines[..|lines|] == lines;
    LatestUnique(lines, latest, Latest(lines));
  }

  /** The verdict depends on which handshake lines there are, not on their order, repetition or the lines that do not parse. */
  lemma OrderAndNoiseIrrelevant(a: seq<string>, b: seq<string>, now: int, max: int)
    requires forall l | Handshake(l).Some? :: l in a <==> l in b
    ensures FreshHandshake(a, now, max) == FreshHandshake(b, now, max)
  {
    if FreshHandshake(a, now, max) {
      var l :| l in a && Handshake(l).Some? && Handshake(l).value > 0 && now - Handshake(l).value <= max;
      assert l in b;
    }
    if FreshHandshake(b, now, max) {
      var l :| l in b && Handshake(l).Some? && Handshake(l).value > 0 && now - Handshake(l).value <= max;
      assert l in a;
    }
  }

  /** Check at a time in nanoseconds; it reads the clock in whole seconds. */
  predicate CheckPasses(t: TunnelState, wg: string -> Option<string>, now: int) {
    Passes(t, wg(t.iface), now / SECOND)
  }

  function CheckReason(t: TunnelState, wg: string -> Option<string>, now: int): Reason {
    Reported(t, wg(t.iface), now / SECOND)
  }

  /**
   The same on the text of the dump: some line has a fifth tab-separated field
   that reads as a positive number of unix seconds no older than the limit.
   Both the clock and the limit are in nanoseconds.
   */
  ghost predicate ShowsFresh(dump: Option<string>, now: int, maxAge: int) {
    dump.Some? && exists l <- Split(dump.value, '\n') :: LineFresh(l, now, maxAge)
  }

  predicate LineFresh(line: string, now: int, maxAge: int) {
    var f := Split(line, '\t');
    && |f| >= 5
    && var ts := ParseInt(TrimSpace(f[4]));
    && ts.Some? && ts.value > 0 && (now / 1_000_000_000 - ts.value) * 1_000_000_000 <= maxAge
  }

  lemma WholeSecondsBound(d: int, age: int)
    requires d >= 0
    ensures age <= WholeSeconds(d) <==> age * 1_000_000_000 <= d
  {
  }

  lemma CheckMeaning(t: TunnelState, wg: string -> Option<string>, now: int)
    requires t.maxAge >= 0
    ensures CheckPasses(t, wg, now) <==> ShowsFresh(wg(t.iface), now, t.maxAge)
    ensures CheckReason(t, wg, now) == WgShowFailed <==> wg(t.iface).None?
  {
    var dump := wg(t.iface);
    if dump.Some? {
      var lines, s, max := Split(dump.value, '\n'), now / SECOND, WholeSeconds(t.maxAge);
      forall l <- lines
        ensures LineFresh(l, now, t.maxAge) <==>
                var ts := Handshake(l); ts.Some? && ts.value > 0 && s - ts.value <= max
      {
        if Handshake(l).Some? {
          WholeSecondsBound(t.maxAge, s - Handshake(l).value);
        }
      }
    }
  }

  class TunnelChecker {
    const iface: string
    var maxAge: int
    var pingTarget: string

    function View(): TunnelState
      reads this
    {
      TunnelState(iface, maxAge, pingTarget)
    }

    constructor (iface: string, maxAge: int, pingTarget: string)
      ensures View() == TunnelState(iface, maxAge, pingTarget)
    {
      this.iface, this.maxAge, this.pingTarget := iface, maxAge, pingTarget;
    }

    /** Rejects an unparsable age and then changes nothing; the interface is never touched. */
    method Apply(lib: Lib, c: Config) returns (ok: bool)
      modifies this
      ensures ok == lib.parseDuration(c.maxHandshakeAge).Some?
      ensures View() == if ok then Applied(old(View()), lib, c) else old(View())
    {
      var age := lib.parseDuration(c.maxHandshakeAge);
      if age.None? {
        return false;
      }
      maxAge, pingTarget := age.value, c.pingTarget;
      return true;
    }

    method Check(wg: string -> Option<string>, now: int) returns (ok: bool, reason: Reason)
      ensures ok == CheckPasses(View(), wg, now)
      ensures maxAge >= 0 ==> ok == ShowsFresh(wg(iface), now, maxAge)
      ensures reason == CheckReason(View(), wg, now)
    {
      var dump := wg(iface);
      SilentWhenPassing(View(), dump, now / SECOND);
      if maxAge >= 0 {
        CheckMeaning(View(), wg, now);
      }
      if dump.None? {
        return false, WgShowFailed;
      }
      ok, reason := JudgePeers(dump.value, now / SECOND, WholeSeconds(maxAge));
    }

    static method JudgePeers(dump: string, now: int, max: int) returns (ok: bool, reason: Reason)
      ensures reason == PeersReport(Split(dump, '\n'), now, max) && ok == (reason == NoReason)
    {
      var latest := ParseLatestHandshake(dump);
      if latest == 0 {
        return false, NoHandshake;
      }
      var age := now - latest;
      if age > max {
        return false, StaleHandshake(age, max);
      }
      return true, NoReason;
    }
  }

  function Applied(t: TunnelState, lib: Lib, c: Config): TunnelState
    requires lib.parseDuration(c.maxHandshakeAge).Some?
  {
    t.(maxAge := lib.parseDuration(c.maxHandshakeAge).value, pingTarget := c.pingTarget)
  }
}
