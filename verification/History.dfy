/** The reading half of the log: parsing lines back into entries and keeping the most recent ones. */
module History {
  import opened Selection
  import opened Wrappers
  import opened Text

  datatype Entry = Entry(time: string, level: string, rest: string, rank: int)

  const RANK_INFO: int := 0
  const RANK_WARN: int := 1
  const RANK_ERROR: int := 2

  function RankOf(level: string): Option<int> {
    if level == "INFO" then Some(RANK_INFO)
    else if level == "WARN" then Some(RANK_WARN)
    else if level == "ERROR" then Some(RANK_ERROR)
    else None
  }

  /** Two digits, a colon, two digits, a colon, two digits. */
  predicate IsClock(s: string) {
    && |s| == 8 && s[2] == ':' && s[5] == ':'
    && IsDigit(s[0]) && IsDigit(s[1]) && IsDigit(s[3]) && IsDigit(s[4]) && IsDigit(s[6]) && IsDigit(s[7])
  }

  function TrimNewlines(s: string): string {
    if s != "" && s[|s| - 1] == '\n' then TrimNewlines(s[..|s| - 1]) else s
  }

  function ParseEvent(line: string): Option<Entry> {
    match Cut(TrimNewlines(line), ' ')
    case None => None
    case Some((clock, tail)) =>
      match Cut(tail, ' ')
      case None => None
      case Some((word, rest)) =>
        if !IsClock(clock) then None
        else
          var level := ToUpper(TrimSpace(word));
          match RankOf(level)
          case None => None
          case Some(rank) => Some(Entry(clock, level, TrimSpace(rest), rank))
  }

  /** The entries of those lines that are events. */
  function EventsOf(lines: seq<string>): seq<Entry> {
    if lines == [] then []
    else
      var init := EventsOf(lines[..|lines| - 1]);
      match ParseEvent(lines[|lines| - 1])
      case None => init
      case Some(e) => init + [e]
  }

  function AtLeast(entries: seq<Entry>, min: int): seq<Entry> {
    Pick(entries, (e: Entry) => e.rank >= min)
  }

  function LastN(entries: seq<Entry>, n: nat): seq<Entry> {
    if |entries| <= n then entries else entries[|entries| - n..]
  }

  lemma {:induction false} EventsOfConcat(a: seq<string>, b: seq<string>)
    ensures EventsOf(a + b) == EventsOf(a) + EventsOf(b)
  {
    if b == [] {
      assert a + b == a;
    } else {
      EventsOfConcat(a, b[..|b| - 1]);
      assert (a + b)[..|a + b| - 1] == a + b[..|b| - 1];
    }
  }

  method ParseEvents(lines: seq<string>) returns (out: seq<Entry>)
    ensures out == EventsOf(lines)
  {
    out := [];
    for i := 0 to |lines|
      invariant out == EventsOf(lines[..i])
    {
      assert lines[..i + 1][..i] == lines[..i];
      match ParseEvent(lines[i]) {
        case Some(e) => out := out + [e];
        case None =>
      }
    }
    assert lines[..|lines|] == lines;
  }

  method FilterMin(entries: seq<Entry>, min: int) returns (out: seq<Entry>)
    ensures out == AtLeast(entries, min)
  {
    out := [];
    for i := 0 to |entries|
      invariant out == AtLeast(entries[..i], min)
    {
      assert entries[..i + 1][..i] == entries[..i];
      if entries[i].rank >= min {
        out := out + [entries[i]];
      }
    }
    assert entries[..|entries|] == entries;
  }

  // ----- the ring -----------------------------------------------------------------

  const MAX_HISTORY_ENTRIES: int := 100_000

  /** Entries less than n places apart never share a slot. */
  lemma SlotsDistinct(i: nat, j: nat, n: nat)
    requires n > 0 && i < j < i + n
    ensures i % n != j % n
  {
    if i % n == j % n {
      var d := j / n - i / n;
      assert j - i == d * n;
      NoMultipleBetween(d, n, j - i);
      assert false;
    }
  }

  lemma NoMultipleBetween(d: int, n: nat, x: int)
    requires n > 0 && x == d * n
    ensures !(0 < x < n)
  {
    if d >= 1 {
      assert d * n >= n;
    }
  }

  /** The ring holds the last n of the entries accepted so far, each in its slot. */
  ghost predicate RingHolds(ring: seq<Entry>, accepted: seq<Entry>) {
    |ring| > 0 && forall i | 0 <= i < |accepted| && i >= |accepted| - |ring| :: ring[i % |ring|] == accepted[i]
  }

  lemma RingStep(ring: seq<Entry>, accepted: seq<Entry>, e: Entry)
    requires RingHolds(ring, accepted)
    ensures RingHolds(ring[|accepted| % |ring| := e], accepted + [e])
  {
    var n, seen := |ring|, |accepted|;
    forall i | 0 <= i <= seen && i >= seen + 1 - n
      ensures ring[seen % n := e][i % n] == (accepted + [e])[i]
    {
      if i < seen {
        SlotsDistinct(i, seen, n);
      }
    }
  }

  datatype HistoryError = CountOutOfRange | ReadFailed

  /**
   ReadRecentEvents over the lines a scanner yields; `failed` says whether the
   scanner stopped on an error. With a buffer of n slots, however long the
   log, it returns what parsing everything, filtering and keeping the last n
   would.
   */
  method ReadRecentEvents(lines: seq<string>, failed: bool, min: int, n: int)
    returns (r: Result<seq<Entry>, HistoryError>)
    ensures r == if n < 0 || n > MAX_HISTORY_ENTRIES then Failure(CountOutOfRange)
                 else if n == 0 then Success([])
                 else if failed then Failure(ReadFailed)
                 else Success(LastN(AtLeast(EventsOf(lines), min), n))
  {
    if n < 0 || n > MAX_HISTORY_ENTRIES {
      return Failure(CountOutOfRange);
    }
    if n == 0 {
      return Success([]);
    }
    var ring := new Entry[n](_ => Entry("", "", "", 0));
    var seen := 0;
    ghost var accepted: seq<Entry> := [];
    for i := 0 to |lines|
      invariant accepted == AtLeast(EventsOf(lines[..i]), min) && seen == |accepted|
      invariant RingHolds(ring[..], accepted)
    {
      assert lines[..i + 1][..i] == lines[..i];
      var parsed := ParseEvent(lines[i]);
      if parsed.None? || parsed.value.rank < min {
        AcceptsNot(lines[..i], lines[i], min);
        continue;
      }
      Accepts(lines[..i], lines[i], min);
      RingStep(ring[..], accepted, parsed.value);
      ring[seen % n] := parsed.value;
      seen := seen + 1;
      accepted := accepted + [parsed.value];
    }
    assert lines[..|lines|] == lines;
    if failed {
      return Failure(ReadFailed);
    }
    var out := Unroll(ring, seen, accepted);
    return Success(out);
  }

  lemma {:induction false} Accepts(lines: seq<string>, line: string, min: int)
    requires ParseEvent(line).Some? && ParseEvent(line).value.rank >= min
    ensures AtLeast(EventsOf(lines + [line]), min) == AtLeast(EventsOf(lines), min) + [ParseEvent(line).value]
  {
    assert (lines + [line])[..|lines|] == lines;
    var events, e := EventsOf(lines), ParseEvent(line).value;
    assert (events + [e])[..|events|] == events;
  }

  lemma {:induction false} AcceptsNot(lines: seq<string>, line: string, min: int)
    requires ParseEvent(line).None? || ParseEvent(line).value.rank < min
    ensures AtLeast(EventsOf(lines + [line]), min) == AtLeast(EventsOf(lines), min)
  {
    assert (lines + [line])[..|lines|] == lines;
    var events := EventsOf(lines);
    if ParseEvent(line).Some? {
      assert (events + [ParseEvent(line).value])[..|events|] == events;
    }
  }

  /** Reads the ring out, oldest entry first. */
  method Unroll(ring: array<Entry>, seen: nat, ghost accepted: seq<Entry>) returns (out: seq<Entry>)
    requires RingHolds(ring[..], accepted) && seen == |accepted|
    ensures out == LastN(accepted, ring.Length)
  {
    var n := ring.Length;
    var count := if seen < n then seen else n;
    var start := if seen > n then seen % n else 0;
    out := [];
    ghost var last := LastN(accepted, n);
    for i := 0 to count
      invariant out == last[..i]
    {
      if seen > n {
        RingIndex(seen, n, i);
      }
      out := out + [ring[(start + i) % n]];
    }
  }

  lemma RingIndex(seen: nat, n: nat, i: nat)
    requires n > 0 && seen > n
    ensures (seen % n + i) % n == (seen - n + i) % n
  {
    var x, y := seen % n + i, seen - n + i;
    assert x - y == (1 - seen / n) * n;
    assert x % n - y % n == (1 - seen / n - x / n + y / n) * n;
    SameSlot(x % n, y % n, 1 - seen / n - x / n + y / n, n);
  }

  lemma SameSlot(a: nat, b: nat, d: int, n: nat)
    requires a < n && b < n && a - b == d * n
    ensures a == b
  {
    NoMultipleBetween(d, n, a - b);
    NoMultipleBetween(-d, n, b - a);
  }

  // ----- rendering ------------------------------------------------------------------

  /** "%-5s" */
  function Pad5(s: string): string
    decreases 5 - |s|
  {
    if |s| >= 5 then s else Pad5(s + " ")
  }

  /** One uncoloured line of RenderEntries, without its newline. */
  function RenderLine(e: Entry): string {
    e.time + " " + Pad5(e.level) + " " + e.rest
  }
}
