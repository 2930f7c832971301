/** The snapshot the daemon publishes to its agent socket, and the reasons it carries. */
module Agent {
  import opened Wrappers

  /** The state label; `Unknown` is the empty announcement, published as "unknown". */
  datatype Label = Unknown | Up | Down

  /** Why a tunnel or egress check failed. */
  datatype Reason =
    | NoReason
    | WgShowFailed | NoHandshake | StaleHandshake(age: int, max: int)
    | RequestBuildFailed | RequestFailed | BadStatus(code: int) | ReadFailed
    | NoCountry | WrongCountry(got: string, want: string) | WrongIP(gotIP: string, wantIP: string)
    | NoExitIP | Listed(ip: string, zone: string)

  datatype Status = Status(state: Label, streak: int, reason: Reason, exitIP: string, country: string, updatedAt: Option<int>)

  const INITIAL: Status := Status(Unknown, 0, NoReason, "", "", None)

  /** The two ways the store is written: by the poll loop and by a forced probe. */
  datatype Write =
    | PollWrite(state: Label, streak: int, reason: Reason, exitIP: string, country: string, at: int)
    | ProbeWrite(state: Label, reason: Reason, exitIP: string, country: string, at: int)

  function Written(s: Status, w: Write): Status {
    match w
    case PollWrite(state, streak, reason, ip, country, at) => Status(state, streak, reason, ip, country, Some(at))
    case ProbeWrite(state, reason, ip, country, at) => Status(state, s.streak, reason, ip, country, Some(at))
  }

  function AllWritten(s: Status, ws: seq<Write>): Status {
    if ws == [] then s else Written(AllWritten(s, ws[..|ws| - 1]), ws[|ws| - 1])
  }

  predicate LastPollWrite(ws: seq<Write>, k: nat) {
    && k < |ws| && ws[k].PollWrite?
    && forall i | k < i < |ws| :: ws[i].ProbeWrite?
  }

  lemma {:induction false} StreakOfProbes(s: Status, ws: seq<Write>)
    requires forall i | 0 <= i < |ws| :: ws[i].ProbeWrite?
    ensures AllWritten(s, ws).streak == s.streak
  {
    if ws != [] {
      StreakOfProbes(s, ws[..|ws| - 1]);
    }
  }

  lemma {:induction false} AllWrittenConcat(s: Status, a: seq<Write>, b: seq<Write>)
    ensures AllWritten(s, a + b) == AllWritten(AllWritten(s, a), b)
  {
    if b == [] {
      assert a + b == a;
    } else {
      AllWrittenConcat(s, a, b[..|b| - 1]);
      assert (a + b)[..|a + b| - 1] == a + b[..|b| - 1];
    }
  }

  /** Whatever the mix of writes, the published streak is the last poll's; before the first poll it is 0. */
  lemma {:induction false} StreakIsLastPolls(ws: seq<Write>, k: nat)
    ensures LastPollWrite(ws, k) ==> AllWritten(INITIAL, ws).streak == ws[k].streak
    ensures (forall i | 0 <= i < |ws| :: ws[i].ProbeWrite?) ==> AllWritten(INITIAL, ws).streak == 0
  {
    if LastPollWrite(ws, k) {
      var head, tail := ws[..k + 1], ws[k + 1..];
      assert ws == head + tail && head[..k] == ws[..k];
      AllWrittenConcat(INITIAL, head, tail);
      StreakOfProbes(AllWritten(INITIAL, head), tail);
    }
    if forall i | 0 <= i < |ws| :: ws[i].ProbeWrite? {
      StreakOfProbes(INITIAL, ws);
    }
  }

  class Store {
    var state: Label
    var streak: int
    var reason: Reason
    var exitIP: string
    var country: string
    var updatedAt: Option<int>

    function View(): Status
      reads this
    {
      Status(state, streak, reason, exitIP, country, updatedAt)
    }

    constructor ()
      ensures View() == INITIAL
    {
      state, streak, reason, exitIP, country, updatedAt := Unknown, 0, NoReason, "", "", None;
    }

    method Set(state: Label, streak: int, reason: Reason, exitIP: string, country: string, now: int)
      modifies this
      ensures View() == Written(old(View()), PollWrite(state, streak, reason, exitIP, country, now))
      ensures View() == Status(state, streak, reason, exitIP, country, Some(now))
    {
      this.state, this.streak, this.reason, this.exitIP, this.country := state, streak, reason, exitIP, country;
      updatedAt := Some(now);
    }

    /** Publishes a forced probe and leaves the watchdog's streak alone. */
    method SetProbe(state: Label, reason: Reason, exitIP: string, country: string, now: int)
      modifies this
      ensures View() == Written(old(View()), ProbeWrite(state, reason, exitIP, country, now))
      ensures View() == Status(state, old(streak), reason, exitIP, country, Some(now))
    {
      this.state, this.reason, this.exitIP, this.country := state, reason, exitIP, country;
      updatedAt := Some(now);
    }

    method Snapshot() returns (s: Status)
      ensures s == View()
    {
      s := Status(state, streak, reason, exitIP, country, updatedAt);
    }
  }
}
