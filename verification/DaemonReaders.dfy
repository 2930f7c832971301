/** What a reader of the live configuration can see while a reload is under way. */
module DaemonReaders {
  import opened Wrappers
  import opened Text
  import opened Config
  import opened ConfigOps
  import opened Agent
  import opened Egress
  import opened Watchdog
  import opened Reload
  import opened Daemon
  import opened DaemonRuns
  import opened DaemonFrames
  import opened DaemonConfig
  import opened DaemonTheorems

  /** Writing these zones into the shared array changes one that the cell shows. */
  predicate ShowsThrough(d: State, zones: seq<string>) {
    && d.shared && |zones| <= |d.backing|
    && exists i | 0 <= i < |zones| && i < |d.live.dnsblZones| :: zones[i] != d.live.dnsblZones[i]
  }

  lemma FrontKept(shown: seq<string>, zones: seq<string>, backing: seq<string>)
    requires |shown| <= |backing| && shown == backing[..|shown|] && |zones| <= |backing|
    ensures (zones + backing[|zones|..])[..|shown|] == shown
            <==> forall i | 0 <= i < |zones| && i < |shown| :: zones[i] == shown[i]
  {
    var written := (zones + backing[|zones|..])[..|shown|];
    assert forall i | 0 <= i < |shown| :: written[i] == if i < |zones| then zones[i] else shown[i];
  }

  lemma ReconfiguringShows(d: State, s: Settings, spare: seq<string>)
    requires ZonesShown(d)
    ensures Reconfiguring(d, s, spare).live == d.live <==> !ShowsThrough(d, s.zones)
  {
    if d.shared && |s.zones| <= |d.backing| {
      FrontKept(d.live.dnsblZones, s.zones, d.backing);
    }
  }

  lemma EgressShows(lib: Lib, d: State, id: nat, spare: seq<string>)
    requires ZonesShown(d) && id in d.reloads && d.reloads[id].Prepared?
    ensures AfterEgress(lib, d, id, spare).live != d.live <==>
            Applicable(lib, d.reloads[id].effective) && ShowsThrough(d, d.reloads[id].effective.dnsblZones)
  {
    var c := d.reloads[id].effective;
    if Applicable(lib, c) {
      ReconfiguringShows(d, SettingsOf(lib, c).value, spare);
    }
  }

  lemma ReloadShows(lib: Lib, d: State, a: Action)
    requires ZonesShown(d) && ReloadEnabled(d, a)
    ensures ReloadNext(lib, d, a).live != d.live <==>
            || (a.ReloadInstall? && d.reloads[a.id].effective != d.live)
            || (a.ReloadEgress? && Applicable(lib, d.reloads[a.id].effective)
                && ShowsThrough(d, d.reloads[a.id].effective.dnsblZones))
  {
    if a.ReloadEgress? {
      EgressShows(lib, d, a.id, a.spare);
    }
  }

  /**
   When what a reader of the cell sees changes: at an installation, and at the
   moment a reload writes zones into the array that the cell still shares, if
   one of those shown is different.
   */
  lemma LiveChangesExactly(lib: Lib, d: State, a: Action)
    requires Reachable(lib, d) && Enabled(d, a)
    ensures Next(lib, d, a).live != d.live <==>
            || (a.ReloadInstall? && d.reloads[a.id].effective != d.live)
            || (a.ReloadEgress? && Applicable(lib, d.reloads[a.id].effective)
                && ShowsThrough(d, d.reloads[a.id].effective.dnsblZones))
  {
    if PollEnabled(d, a) {
      PollFrame(d, a);
    } else if ProbeEnabled(d, a) {
      ProbeFrame(d, a);
    } else {
      ReachableWiring(lib, d);
      ReloadShows(lib, d, a);
    }
  }

  // ----- a torn read ------------------------------------------------------------------------

  const LIB: Lib := Lib(_ => Some(1), _ => Some(1), _ => Some(Uri("https", "h")), _ => true, _ => None)
  const OLD: Config := DEFAULTS.(expectedCountry := "XX", targets := ["t"], dnsblZones := ["a", "b"])
  const NEW: Config := OLD.(dnsblZones := ["c"])

  lemma {:induction false} OneLetter(s: string)
    requires |s| == 1 && 'a' <= s[0] <= 'z'
    ensures TrimSpace(s) == s && ByteLen(s) == 1 && ValidTarget(s) && ValidZone(s)
  {
    TrimTrimmed(s);
  }

  lemma ExamplesValid()
    ensures Valid(LIB, OLD) && Valid(LIB, NEW)
  {
    OneLetter("t");
    OneLetter("a");
    OneLetter("b");
    OneLetter("c");
  }

  lemma ExamplesNormal()
    ensures Normalised(OLD) == OLD && Normalised(NEW) == NEW
  {
    TrimTrimmed("XX");
    assert ToUpper("XX") == "XX";
    TrimTrimmed("");
  }

  function Begun(): State {
    var settings := SettingsOf(LIB, OLD).value;
    State(OLD, OLD, true, OLD.dnsblZones, Egress.Initial(settings), TunnelOf(LIB, OLD).value, INITIAL, START, Waiting,
          map[], map[], false, 0, [], [], [])
  }

  function OneLoaded(): State {
    Begun().(reloads := map[0 := Loaded(NEW)])
  }

  function OnePrepared(): State {
    Begun().(reloads := map[0 := Prepared(NEW, NEW, DiffOf(OLD, NEW))])
  }

  lemma BegunReachable()
    ensures Reachable(LIB, Begun())
  {
    ExamplesValid();
    ExamplesNormal();
    assert Daemon.Initial(LIB, Begun());
    RunReaches(LIB, [Begun()], [], Begun());
  }

  lemma LoadingReached()
    ensures ReloadNext(LIB, Begun(), ReloadLoad(0, Json(NEW))) == OneLoaded()
  {
    ExamplesValid();
    ExamplesNormal();
  }

  lemma PreparingReached()
    ensures ReloadNext(LIB, OneLoaded(), ReloadPrepare(0)) == OnePrepared()
  {
  }

  lemma OnePreparedReachable()
    ensures Reachable(LIB, OnePrepared())
  {
    BegunReachable();
    LoadingReached();
    ReachableReload(LIB, Begun(), ReloadLoad(0, Json(NEW)), OneLoaded());
    PreparingReached();
    ReachableReload(LIB, OneLoaded(), ReloadPrepare(0), OnePrepared());
  }

  /**
   Started on zones a and b, reloading zone c: once the egress checker has been
   written, a reader sees zones c and b, which no file has ever asked for.
   */
  lemma TornRead() returns (d: State)
    ensures Reachable(LIB, d) && d.startup == OLD && d.reports == []
    ensures d.live.dnsblZones == ["c", "b"] && d.reloads.Keys == {0} && d.reloads[0].loaded == NEW
  {
    OnePreparedReachable();
    d := ReloadNext(LIB, OnePrepared(), ReloadEgress(0, []));
    ReachableReload(LIB, OnePrepared(), ReloadEgress(0, []), d);
    TornState(d);
  }

  lemma TornState(d: State)
    requires d == ReloadNext(LIB, OnePrepared(), ReloadEgress(0, []))
    ensures d.startup == OLD && d.reports == []
    ensures d.live.dnsblZones == ["c", "b"] && d.reloads.Keys == {0} && d.reloads[0].loaded == NEW
  {
    assert (["c"] + ["a", "b"][1..])[..2] == ["c", "b"];
    assert d.reloads == map[0 := EgressDone(NEW, NEW, DiffOf(OLD, NEW))];
  }
}
