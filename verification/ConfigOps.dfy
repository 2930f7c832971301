/** Reading, comparing and setting configuration keys by name, and what a reload has to report about them. */
module ConfigOps {
  import opened Selection
  import opened Wrappers
  import opened Text
  import opened Config

  // ----- the list codec ----------------------------------------------------------

  /** splitList: trims, splits at commas and trims the parts; a blank text is no list. */
  method SplitList(v: string) returns (parts: seq<string>)
    ensures parts == ListOf(v)
  {
    var text := TrimSpace(v);
    if text == "" {
      return [];
    }
    parts := Split(text, ',');
    ghost var raw := parts;
    for i := 0 to |parts|
      invariant |parts| == |raw|
      invariant forall j | 0 <= j < |raw| :: parts[j] == if j < i then TrimSpace(raw[j]) else raw[j]
    {
      parts := parts[i := TrimSpace(parts[i])];
    }
  }

  function TrimAll(parts: seq<string>): (r: seq<string>)
    ensures |r| == |parts| && forall i | 0 <= i < |r| :: r[i] == TrimSpace(parts[i])
  {
    if parts == [] then [] else [TrimSpace(parts[0])] + TrimAll(parts[1..])
  }

  function ListOf(v: string): seq<string> {
    var text := TrimSpace(v);
    if text == "" then [] else TrimAll(Split(text, ','))
  }

  /** An element that comma-joining does not blur. */
  predicate Plain(x: string) {
    x != "" && ',' !in x
  }

  predicate PlainList(xs: seq<string>) {
    forall x <- xs :: Plain(x)
  }

  lemma TrimKeepsFree(s: string, c: char)
    requires c !in s
    ensures c !in TrimSpace(s)
  {
    var i, j := TrimSpaceSplits(s);
  }

  lemma {:induction false} JoinEmpty(xs: seq<string>, sep: char)
    requires xs != [] && Join(xs, sep) == ""
    ensures xs == [""]
  {
  }

  /** Joined parts start and end with the outer parts, or with a comma where those are empty. */
  lemma {:induction false} JoinTrimmed(xs: seq<string>)
    requires xs != [] && forall x <- xs :: Trimmed(x)
    ensures Trimmed(Join(xs, ','))
  {
    var s := Join(xs, ',');
    assert xs[0] in xs;
    if |xs| > 1 {
      JoinTrimmed(xs[1..]);
      var tail := Join(xs[1..], ',');
      assert s[|s| - 1] == if tail == "" then ',' else tail[|tail| - 1];
      assert s[0] == if xs[0] == "" then ',' else xs[0][0];
    }
  }

  lemma {:induction false} SplitInvertsTrimmedJoin(xs: seq<string>)
    requires xs != [] && (forall x <- xs :: ',' !in x && Trimmed(x)) && Join(xs, ',') != ""
    ensures ListOf(Join(xs, ',')) == xs
  {
    JoinTrimmed(xs);
    TrimTrimmed(Join(xs, ','));
    SplitJoin(xs, ',');
    forall i | 0 <= i < |xs| ensures TrimSpace(xs[i]) == xs[i] {
      TrimTrimmed(xs[i]);
    }
  }

  /** Splitting inverts joining on lists of trimmed plain elements. */
  lemma {:induction false} SplitInvertsJoin(xs: seq<string>)
    requires PlainList(xs) && forall x <- xs :: Trimmed(x)
    ensures ListOf(Join(xs, ',')) == xs
  {
    if xs != [] {
      assert Plain(xs[0]);
      if Join(xs, ',') == "" {
        JoinEmpty(xs, ',');
        assert false;
      }
      SplitInvertsTrimmedJoin(xs);
    }
  }

  /** Splitting, joining and splitting again is splitting once, for every text. */
  lemma SplitJoinSplit(v: string)
    ensures ListOf(Join(ListOf(v), ',')) == ListOf(v)
  {
    var text, xs := TrimSpace(v), ListOf(v);
    if text != "" {
      var raw := Split(text, ',');
      JoinSplit(text, ',');
      forall i | 0 <= i < |xs| ensures ',' !in xs[i] && Trimmed(xs[i]) {
        TrimKeepsFree(raw[i], ',');
        var a, b := TrimSpaceSplits(raw[i]);
      }
      if Join(xs, ',') == "" {
        // A single part is the trimmed text itself, which is not empty.
        JoinEmpty(xs, ',');
        assert raw == [text];
        TrimIdempotent(v);
        assert false;
      }
      SplitInvertsTrimmedJoin(xs);
    }
  }

  lemma {:induction false} TrimLeftStops(x: string, rest: string)
    requires rest != "" && !IsSpace(rest[0])
    ensures TrimLeft(x + rest) == TrimLeft(x) + rest
  {
    if x == "" {
      assert x + rest == rest;
    } else if IsSpace(x[0]) {
      TrimLeftStops(x[1..], rest);
      assert (x + rest)[1..] == x[1..] + rest;
    }
  }

  lemma {:induction false} TrimRightStops(before: string, x: string)
    requires before != "" && !IsSpace(before[|before| - 1])
    ensures TrimRight(before + x) == before + TrimRight(x)
  {
    if x == "" {
      assert before + x == before;
    } else if IsSpace(x[|x| - 1]) {
      var n := |x| - 1;
      TrimRightStops(before, x[..n]);
      assert (before + x)[..|before + x| - 1] == before + x[..n];
    }
  }

  lemma {:induction false} JoinSnoc(xs: seq<string>, last: string)
    requires xs != []
    ensures Join(xs + [last], ',') == Join(xs, ',') + "," + last
  {
    if |xs| == 1 {
      assert (xs + [last])[1..] == [last];
    } else {
      JoinSnoc(xs[1..], last);
      assert (xs + [last])[1..] == xs[1..] + [last];
    }
  }

  /** What stands between the first part and the last one's comma. */
  function Middle(mid: seq<string>): string {
    if mid == [] then "" else "," + Join(mid, ',')
  }

  lemma JoinOuter(first: string, mid: seq<string>, last: string)
    ensures Join([first] + mid + [last], ',') == first + (Middle(mid) + ("," + last))
  {
    assert [first] + mid + [last] == [first] + (mid + [last]);
    JoinCons(first, mid + [last]);
    if mid == [] {
      assert mid + [last] == [last];
    } else {
      JoinSnoc(mid, last);
      CommaFirst(Join(mid, ','), last);
    }
  }

  lemma JoinCons(first: string, rest: seq<string>)
    requires rest != []
    ensures Join([first] + rest, ',') == first + ("," + Join(rest, ','))
  {
    assert ([first] + rest)[1..] == rest;
    assert first + [','] + Join(rest, ',') == first + ("," + Join(rest, ','));
  }

  lemma CommaFirst(mid: string, last: string)
    ensures "," + (mid + "," + last) == ("," + mid) + ("," + last)
  {
  }

  lemma Regroup(first: string, mid: string, last: string)
    ensures first + (mid + ("," + last)) == (first + mid + ",") + last
  {
  }

  /** Trimming a joined text trims the two outer ends of its parts. */
  lemma TrimJoined(first: string, mid: seq<string>, last: string)
    ensures TrimSpace(Join([first] + mid + [last], ',')) == Join([TrimLeft(first)] + mid + [TrimRight(last)], ',')
  {
    var m := Middle(mid);
    JoinOuter(first, mid, last);
    JoinOuter(TrimLeft(first), mid, TrimRight(last));
    assert (m + ("," + last))[0] == ',';
    TrimLeftStops(first, m + ("," + last));
    Regroup(TrimLeft(first), m, last);
    Regroup(TrimLeft(first), m, TrimRight(last));
    TrimRightStops(TrimLeft(first) + m + ",", last);
  }

  /** A list is what stands between the commas, each part trimmed; a text of blanks alone is none. */
  lemma ListMeaning(xs: seq<string>)
    requires xs != [] && forall x <- xs :: ',' !in x
    ensures if |xs| == 1 && Blank(xs[0]) then ListOf(Join(xs, ',')) == []
            else |ListOf(Join(xs, ','))| == |xs| && forall i | 0 <= i < |xs| :: ListOf(Join(xs, ','))[i] == TrimSpace(xs[i])
  {
    if |xs| == 1 {
      OneTrimmed(xs[0]);
    } else {
      var n := |xs| - 1;
      var first, mid, last := xs[0], xs[1..n], xs[n];
      assert xs == [first] + mid + [last];
      TrimJoined(first, mid, last);
      OuterTrimmed(first, mid, last);
    }
  }

  lemma OneTrimmed(x: string)
    requires ',' !in x
    ensures if Blank(x) then ListOf(x) == [] else ListOf(x) == [TrimSpace(x)]
  {
    BlankTrims(x);
    TrimKeepsFree(x, ',');
    TrimIdempotent(x);
    if !Blank(x) {
      SplitFree(TrimSpace(x), ',');
    }
  }

  lemma OuterFree(first: string, mid: seq<string>, last: string)
    requires ',' !in first && ',' !in last && forall x <- mid :: ',' !in x
    ensures forall x <- [TrimLeft(first)] + mid + [TrimRight(last)] :: ',' !in x
  {
    var k := TrimLeftSplits(first);
    var l := TrimRightSplits(last);
  }

  lemma OuterTrimmed(first: string, mid: seq<string>, last: string)
    requires ',' !in first && ',' !in last && forall x <- mid :: ',' !in x
    ensures var outer := [TrimLeft(first)] + mid + [TrimRight(last)];
            var inner := [first] + mid + [last];
            && Join(outer, ',') != "" && |Split(Join(outer, ','), ',')| == |inner|
            && forall i | 0 <= i < |inner| :: TrimSpace(Split(Join(outer, ','), ',')[i]) == TrimSpace(inner[i])
  {
    JoinOuter(TrimLeft(first), mid, TrimRight(last));
    OuterFree(first, mid, last);
    SplitJoin([TrimLeft(first)] + mid + [TrimRight(last)], ',');
    OuterAlike(first, mid, last);
  }

  lemma OuterAlike(first: string, mid: seq<string>, last: string)
    ensures forall i | 0 <= i < |mid| + 2 ::
              TrimSpace(([TrimLeft(first)] + mid + [TrimRight(last)])[i]) == TrimSpace(([first] + mid + [last])[i])
  {
    HalfTrimmed(first);
    HalfTrimmed(last);
    AlikeEnds(TrimSpace, first, TrimLeft(first), mid, last, TrimRight(last));
  }

  lemma AlikeEnds(f: string -> string, a: string, a': string, mid: seq<string>, b: string, b': string)
    requires f(a') == f(a) && f(b') == f(b)
    ensures forall i | 0 <= i < |mid| + 2 :: f(([a'] + mid + [b'])[i]) == f(([a] + mid + [b])[i])
  {
  }

  lemma HalfTrimmed(x: string)
    ensures TrimSpace(TrimLeft(x)) == TrimSpace(x) && TrimSpace(TrimRight(x)) == TrimSpace(x)
  {
    var k := TrimLeftSplits(x);
    var l := TrimRightSplits(x);
    TrimRightBlankEnd(x[..l], x[l..]);
    assert x[..l] + x[l..] == x;
    if k < |x| {
      assert TrimLeft(x[k..]) == x[k..];
    }
  }

  lemma TrimRightBlankEnd(x: string, blank: string)
    requires Blank(blank)
    ensures TrimSpace(x + blank) == TrimSpace(x)
  {
    TrimBlankAround("", x, blank);
    assert "" + x + blank == x + blank;
  }

  // ----- keys and values -----------------------------------------------------------

  datatype Key =
    | CountryPattern | DnsblZones | DownCyclesToKill | ExpectedCountry | ExpectedIP | ExtraAccept
    | HeartbeatInterval | Interface | IPPattern | KillGrace | LogFile | MaxHandshakeAge | PingTarget
    | PollInterval | ProbeInterval | ProbeTimeout | ProbeURL | SocketPath | Targets | VerifyEgress | WGConf

  function Name(k: Key): string {
    match k
    case CountryPattern => "country_pattern"
    case DnsblZones => "dnsbl_zones"
    case DownCyclesToKill => "down_cycles_to_kill"
    case ExpectedCountry => "expected_country"
    case ExpectedIP => "expected_ip"
    case ExtraAccept => "extra_accept"
    case HeartbeatInterval => "heartbeat_interval"
    case Interface => "interface"
    case IPPattern => "ip_pattern"
    case KillGrace => "kill_grace"
    case LogFile => "log_file"
    case MaxHandshakeAge => "max_handshake_age"
    case PingTarget => "ping_target"
    case PollInterval => "poll_interval"
    case ProbeInterval => "probe_interval"
    case ProbeTimeout => "probe_timeout"
    case ProbeURL => "probe_url"
    case SocketPath => "socket_path"
    case Targets => "targets"
    case VerifyEgress => "verify_egress"
    case WGConf => "wg_conf"
  }

  const KEY_COUNT: nat := 21

  /** The place of a key among the rows, which are sorted by name. */
  function Position(k: Key): (i: nat)
    ensures i < KEY_COUNT
  {
    match k
    case CountryPattern => 0
    case DnsblZones => 1
    case DownCyclesToKill => 2
    case ExpectedCountry => 3
    case ExpectedIP => 4
    case ExtraAccept => 5
    case HeartbeatInterval => 6
    case Interface => 7
    case IPPattern => 8
    case KillGrace => 9
    case LogFile => 10
    case MaxHandshakeAge => 11
    case PingTarget => 12
    case PollInterval => 13
    case ProbeInterval => 14
    case ProbeTimeout => 15
    case ProbeURL => 16
    case SocketPath => 17
    case Targets => 18
    case VerifyEgress => 19
    case WGConf => 20
  }

  function KeyAt(i: nat): (k: Key)
    requires i < KEY_COUNT
    ensures Position(k) == i
  {
    if i == 0 then CountryPattern
    else if i == 1 then DnsblZones
    else if i == 2 then DownCyclesToKill
    else if i == 3 then ExpectedCountry
    else if i == 4 then ExpectedIP
    else if i == 5 then ExtraAccept
    else if i == 6 then HeartbeatInterval
    else if i == 7 then Interface
    else if i == 8 then IPPattern
    else if i == 9 then KillGrace
    else if i == 10 then LogFile
    else if i == 11 then MaxHandshakeAge
    else if i == 12 then PingTarget
    else if i == 13 then PollInterval
    else if i == 14 then ProbeInterval
    else if i == 15 then ProbeTimeout
    else if i == 16 then ProbeURL
    else if i == 17 then SocketPath
    else if i == 18 then Targets
    else if i == 19 then VerifyEgress
    else WGConf
  }

  lemma KeyAtPosition(k: Key)
    ensures KeyAt(Position(k)) == k
  {
  }

  /** The typed value a configuration holds under a key. */
  datatype Value = Str(text: string) | Num(n: int) | Flag(on: bool) | List(items: seq<string>)

  function Field(c: Config, k: Key): Value {
    match k
    case CountryPattern => Str(c.countryPattern)
    case DnsblZones => List(c.dnsblZones)
    case DownCyclesToKill => Num(c.downCyclesToKill)
    case ExpectedCountry => Str(c.expectedCountry)
    case ExpectedIP => Str(c.expectedIP)
    case ExtraAccept => List(c.extraAccept)
    case HeartbeatInterval => Str(c.heartbeatInterval)
    case Interface => Str(c.interface)
    case IPPattern => Str(c.ipPattern)
    case KillGrace => Str(c.killGrace)
    case LogFile => Str(c.logFile)
    case MaxHandshakeAge => Str(c.maxHandshakeAge)
    case PingTarget => Str(c.pingTarget)
    case PollInterval => Str(c.pollInterval)
    case ProbeInterval => Str(c.probeInterval)
    case ProbeTimeout => Str(c.probeTimeout)
    case ProbeURL => Str(c.probeURL)
    case SocketPath => Str(c.socketPath)
    case Targets => List(c.targets)
    case VerifyEgress => Flag(c.verifyEgress)
    case WGConf => Str(c.wgConf)
  }

  function Render(v: Value): string {
    match v
    case Str(text) => text
    case Num(n) => Itoa(n)
    case Flag(on) => if on then "true" else "false"
    case List(items) => Join(items, ',')
  }

  predicate PlainLists(c: Config) {
    PlainList(c.dnsblZones) && PlainList(c.targets) && PlainList(c.extraAccept)
  }

  lemma {:induction false} JoinInjective(a: seq<string>, b: seq<string>)
    requires PlainList(a) && PlainList(b) && Join(a, ',') == Join(b, ',')
    ensures a == b
  {
    if a != [] && b != [] {
      SplitJoin(a, ',');
      SplitJoin(b, ',');
    } else if a != [] {
      assert Plain(a[0]);
      JoinEmpty(a, ',');
    } else if b != [] {
      assert Plain(b[0]);
      JoinEmpty(b, ',');
    }
  }

  lemma RenderInjective(c: Config, d: Config, k: Key)
    requires PlainLists(c) && PlainLists(d)
    ensures Render(Field(c, k)) == Render(Field(d, k)) <==> Field(c, k) == Field(d, k)
  {
    if Render(Field(c, k)) == Render(Field(d, k)) {
      match Field(c, k) {
        case Str(_) =>
        case Num(n) => ItoaInjective(n, d.downCyclesToKill);
        case Flag(_) =>
        case List(items) => JoinInjective(items, Field(d, k).items);
      }
    }
  }

  // ----- the difference of two configurations ----------------------------------------

  predicate Differs(c: Config, d: Config, k: Key) {
    Render(Field(c, k)) != Render(Field(d, k))
  }

  /** The keys among the first n rows that meet a condition. */
  function RowsWhere(p: Key -> bool, n: nat): seq<Key>
    requires n <= KEY_COUNT
  {
    if n == 0 then []
    else if p(KeyAt(n - 1)) then RowsWhere(p, n - 1) + [KeyAt(n - 1)]
    else RowsWhere(p, n - 1)
  }

  function DiffOf(c: Config, d: Config): seq<Key> {
    RowsWhere(k => Differs(c, d, k), KEY_COUNT)
  }

  method DiffKeys(c: Config, d: Config) returns (changed: seq<Key>)
    ensures changed == DiffOf(c, d)
  {
    changed := [];
    for i := 0 to KEY_COUNT
      invariant changed == RowsWhere(k => Differs(c, d, k), i)
    {
      if Differs(c, d, KeyAt(i)) {
        changed := changed + [KeyAt(i)];
      }
    }
  }

  lemma {:induction false} LessAt(a: string, b: string, i: nat)
    requires i < |a| && i < |b| && a[..i] == b[..i] && a[i] < b[i]
    ensures Less(a, b)
  {
    if i > 0 {
      assert a[0] == a[..i][0] && b[0] == b[..i][0];
      assert a[1..][..i - 1] == a[..i][1..] && b[1..][..i - 1] == b[..i][1..];
      LessAt(a[1..], b[1..], i - 1);
    }
  }

  lemma FirstNeighboursSorted(i: nat)
    requires i < 6
    ensures Less(Name(KeyAt(i)), Name(KeyAt(i + 1)))
  {
    var a, b := Name(KeyAt(i)), Name(KeyAt(i + 1));
    LessAt(a, b, if i == 1 then 1 else if i == 3 then 9 else if i == 4 then 2 else 0);
  }

  lemma MiddleNeighboursSorted(i: nat)
    requires 6 <= i < 13
    ensures Less(Name(KeyAt(i)), Name(KeyAt(i + 1)))
  {
    var a, b := Name(KeyAt(i)), Name(KeyAt(i + 1));
    LessAt(a, b, if i == 7 || i == 12 then 1 else 0);
  }

  lemma LastNeighboursSorted(i: nat)
    requires 13 <= i < KEY_COUNT - 1
    ensures Less(Name(KeyAt(i)), Name(KeyAt(i + 1)))
  {
    var a, b := Name(KeyAt(i)), Name(KeyAt(i + 1));
    LessAt(a, b, if i == 13 then 1 else if i == 14 || i == 15 then 6 else 0);
  }

  /** The rows stand in the strict order of their names. */
  lemma {:induction false} NamesSorted(i: nat, j: nat)
    requires i < j < KEY_COUNT
    ensures Less(Name(KeyAt(i)), Name(KeyAt(j)))
  {
    if j <= 6 {
      FirstNeighboursSorted(j - 1);
    } else if j <= 13 {
      MiddleNeighboursSorted(j - 1);
    } else {
      LastNeighboursSorted(j - 1);
    }
    if i < j - 1 {
      NamesSorted(i, j - 1);
      LessTransitive(Name(KeyAt(i)), Name(KeyAt(j - 1)), Name(KeyAt(j)));
    }
  }

  lemma {:induction false} LessIsStrict(a: string, b: string)
    requires Less(a, b)
    ensures a != b
  {
    LessTotal(a, b);
  }

  lemma NamesDistinct(k: Key, l: Key)
    requires k != l
    ensures Name(k) != Name(l)
  {
    var i, j := Position(k), Position(l);
    KeyAtPosition(k);
    KeyAtPosition(l);
    if i < j {
      NamesSorted(i, j);
      LessIsStrict(Name(k), Name(l));
    } else {
      NamesSorted(j, i);
      LessIsStrict(Name(l), Name(k));
    }
  }

  lemma {:induction false} RowsMembers(p: Key -> bool, n: nat, k: Key)
    requires n <= KEY_COUNT
    ensures k in RowsWhere(p, n) <==> Position(k) < n && p(k)
  {
    if n > 0 {
      RowsMembers(p, n - 1, k);
      KeyAtPosition(k);
    }
  }

  lemma {:induction false} RowsOrdered(p: Key -> bool, n: nat, i: nat, j: nat)
    requires n <= KEY_COUNT && i < j < |RowsWhere(p, n)|
    ensures Position(RowsWhere(p, n)[i]) < Position(RowsWhere(p, n)[j])
  {
    var init := RowsWhere(p, n - 1);
    if j < |init| {
      RowsOrdered(p, n - 1, i, j);
    } else {
      RowsMembers(p, n - 1, init[i]);
    }
  }

  /** The difference lists exactly the keys whose fields differ, in the strict order of their names. */
  lemma DiffExact(c: Config, d: Config)
    ensures forall k: Key :: k in DiffOf(c, d) <==> Differs(c, d, k)
    ensures PlainLists(c) && PlainLists(d) ==> forall k: Key :: k in DiffOf(c, d) <==> Field(c, k) != Field(d, k)
    ensures forall i, j | 0 <= i < j < |DiffOf(c, d)| :: Less(Name(DiffOf(c, d)[i]), Name(DiffOf(c, d)[j]))
  {
    forall k: Key ensures k in DiffOf(c, d) <==> Differs(c, d, k) {
      RowsMembers(k => Differs(c, d, k), KEY_COUNT, k);
    }
    if PlainLists(c) && PlainLists(d) {
      forall k: Key ensures k in DiffOf(c, d) <==> Field(c, k) != Field(d, k) {
        RenderInjective(c, d, k);
      }
    }
    forall i, j | 0 <= i < j < |DiffOf(c, d)| ensures Less(Name(DiffOf(c, d)[i]), Name(DiffOf(c, d)[j])) {
      DiffNamesOrdered(c, d, i, j);
    }
  }

  lemma DiffNamesOrdered(c: Config, d: Config, i: nat, j: nat)
    requires i < j < |DiffOf(c, d)|
    ensures Less(Name(DiffOf(c, d)[i]), Name(DiffOf(c, d)[j]))
  {
    var k, l := DiffOf(c, d)[i], DiffOf(c, d)[j];
    RowsOrdered(k => Differs(c, d, k), KEY_COUNT, i, j);
    NamesSorted(Position(k), Position(l));
    KeyAtPosition(k);
    KeyAtPosition(l);
  }

  /** Without that condition on lists a change can go unreported: one element holding a comma reads like two. */
  lemma DiffMissesCommas(c: Config)
    ensures var d, e := c.(extraAccept := ["a,b"]), c.(extraAccept := ["a", "b"]);
            Field(d, ExtraAccept) != Field(e, ExtraAccept) && ExtraAccept !in DiffOf(d, e)
  {
    var d, e := c.(extraAccept := ["a,b"]), c.(extraAccept := ["a", "b"]);
    assert Join(["a", "b"], ',') == "a,b" by {
      assert ["a", "b"][1..] == ["b"];
    }
    RowsMembers(k => Differs(d, e, k), KEY_COUNT, ExtraAccept);
    assert d.extraAccept[0] != e.extraAccept[0];
  }

  /** What is left of a list once joining has forgotten which commas were separators. */
  function Pieces(xs: seq<string>): seq<string> {
    if xs == [] then [""]
    else if |xs| == 1 then Split(xs[0], ',')
    else Split(xs[0], ',') + Pieces(xs[1..])
  }

  lemma {:induction false} SplitJoinPieces(xs: seq<string>)
    ensures Split(Join(xs, ','), ',') == Pieces(xs)
  {
    if |xs| > 1 {
      SplitJoinPieces(xs[1..]);
      SplitConcat(xs[0], ',', Join(xs[1..], ','));
    }
  }

  /** A list key is reported exactly when the pieces differ; so a change of the list is reported unless it only moved separators into or out of elements. */
  lemma ListDiffExact(c: Config, d: Config, k: Key)
    requires Field(c, k).List?
    ensures Field(d, k).List?
    ensures k in DiffOf(c, d) <==> Pieces(Field(c, k).items) != Pieces(Field(d, k).items)
  {
    RowsMembers(l => Differs(c, d, l), KEY_COUNT, k);
    PiecesDecide(Field(c, k).items, Field(d, k).items);
  }

  lemma {:induction false} PiecesDecide(a: seq<string>, b: seq<string>)
    ensures Join(a, ',') == Join(b, ',') <==> Pieces(a) == Pieces(b)
  {
    SplitJoinPieces(a);
    SplitJoinPieces(b);
    JoinSplit(Join(a, ','), ',');
    JoinSplit(Join(b, ','), ',');
  }

  // ----- reporting a reload ----------------------------------------------------------

  const RESTART_KEYS: set<Key> := {Interface, SocketPath, LogFile}
  const FIREWALL_KEYS: set<Key> := {Interface, WGConf, ExtraAccept}

  datatype ReloadResult = ReloadResult(applied: seq<Key>, daemonRestart: seq<Key>, firewallReload: seq<Key>)

  /** Which keys a report may put under which heading: in the order given, each under every heading it belongs to. */
  predicate Reports(changed: seq<Key>, r: ReloadResult) {
    && r.daemonRestart == Among(changed, RESTART_KEYS)
    && r.firewallReload == Among(changed, FIREWALL_KEYS)
    && r.applied == Outside(changed, RESTART_KEYS + FIREWALL_KEYS)
  }

  function Among(keys: seq<Key>, s: set<Key>): seq<Key> {
    Pick(keys, (k: Key) => k in s)
  }

  function Outside(keys: seq<Key>, s: set<Key>): seq<Key> {
    Pick(keys, (k: Key) => k !in s)
  }

  method ClassifyReload(changed: seq<Key>) returns (r: ReloadResult)
    ensures Reports(changed, r)
  {
    r := ReloadResult([], [], []);
    for i := 0 to |changed|
      invariant Reports(changed[..i], r)
    {
      assert changed[..i + 1][..i] == changed[..i];
      var key := changed[i];
      if key in RESTART_KEYS {
        r := r.(daemonRestart := r.daemonRestart + [key]);
      }
      if key in FIREWALL_KEYS {
        r := r.(firewallReload := r.firewallReload + [key]);
      }
      if key !in RESTART_KEYS && key !in FIREWALL_KEYS {
        r := r.(applied := r.applied + [key]);
      }
    }
    assert changed[..|changed|] == changed;
  }

  lemma AmongMembers(keys: seq<Key>, s: set<Key>, k: Key)
    ensures k in Among(keys, s) <==> k in keys && k in s
    ensures k in Outside(keys, s) <==> k in keys && k !in s
  {
    PickIn(keys, (l: Key) => l in s, k);
    PickIn(keys, (l: Key) => l !in s, k);
  }

  lemma HeadingNames(k: Key)
    ensures k in RESTART_KEYS <==> Name(k) in {"interface", "socket_path", "log_file"}
    ensures k in FIREWALL_KEYS <==> Name(k) in {"interface", "wg_conf", "extra_accept"}
  {
  }

  /** A report on the difference of two configurations demands a restart for exactly the startup-wired keys that differ, and loses no key. */
  lemma ReportMeaning(c: Config, d: Config, r: ReloadResult, k: Key)
    requires Reports(DiffOf(c, d), r)
    ensures k in r.daemonRestart <==> Name(k) in {"interface", "socket_path", "log_file"} && Field(c, k) != Field(d, k)
    ensures k in r.firewallReload <==> Name(k) in {"interface", "wg_conf", "extra_accept"} && Differs(c, d, k)
    ensures Differs(c, d, k) <==> k in r.applied || k in r.daemonRestart || k in r.firewallReload
    ensures k in r.applied ==> k !in r.daemonRestart && k !in r.firewallReload
  {
    var diff := DiffOf(c, d);
    DiffExact(c, d);
    HeadingNames(k);
    AmongMembers(diff, RESTART_KEYS, k);
    AmongMembers(diff, FIREWALL_KEYS, k);
    AmongMembers(diff, RESTART_KEYS + FIREWALL_KEYS, k);
  }

  /** A start-up key is among the differing keys exactly when its text differs. */
  lemma RestartKeyDiffers(c: Config, d: Config, k: Key)
    requires k in RESTART_KEYS
    ensures k in DiffOf(c, d) <==> Field(c, k) != Field(d, k)
  {
    RowsMembers(l => Differs(c, d, l), KEY_COUNT, k);
  }

  // ----- setting keys ---------------------------------------------------------------------

  function ParseBool(s: string): Option<bool> {
    if s in ["1", "t", "T", "TRUE", "true", "True"] then Some(true)
    else if s in ["0", "f", "F", "FALSE", "false", "False"] then Some(false)
    else None
  }

  /** A word spelled in small letters, in capitals, with a capital first letter, or as its first letter in either case. */
  predicate Spells(s: string, word: string)
    requires word != ""
  {
    || s == word || s == ToUpper(word) || s == [UpperChar(word[0])] + word[1..]
    || s == [word[0]] || s == [UpperChar(word[0])]
  }

  lemma ParseBoolMeaning(s: string)
    ensures ParseBool(s) == Some(true) <==> s == "1" || Spells(s, "true")
    ensures ParseBool(s) == Some(false) <==> s == "0" || Spells(s, "false")
  {
    assert ToUpper("true") == "TRUE" && ToUpper("false") == "FALSE";
    assert ['T'] + "true"[1..] == "True" && ['F'] + "false"[1..] == "False";
  }

  /** The normalised value a text denotes under a key, if it is acceptable there. */
  function ParseValue(lib: Lib, k: Key, v: string): Option<Value> {
    match k
    case PollInterval | MaxHandshakeAge | KillGrace | HeartbeatInterval | ProbeInterval | ProbeTimeout =>
      if lib.parseDuration(v).Some? then Some(Str(v)) else None
    case DownCyclesToKill =>
      (match ParseInt(v) case Some(n) => if n >= 1 then Some(Num(n)) else None case None => None)
    case VerifyEgress => (match ParseBool(v) case Some(b) => Some(Flag(b)) case None => None)
    case ExpectedCountry => if ValidCountry(Country(v)) then Some(Str(Country(v))) else None
    case ExpectedIP => Some(Str(TrimSpace(v)))
    case CountryPattern | IPPattern => if lib.compile(v).Some? then Some(Str(v)) else None
    case DnsblZones | Targets | ExtraAccept => Some(List(ListOf(v)))
    case Interface | PingTarget | ProbeURL | WGConf | SocketPath | LogFile => Some(Str(v))
  }

  /** The key a name stands for. */
  function KeyNamed(name: string): Option<Key> {
    Lookup(name, 0)
  }

  function Lookup(name: string, i: nat): Option<Key>
    requires i <= KEY_COUNT
    decreases KEY_COUNT - i
  {
    if i == KEY_COUNT then None
    else if Name(KeyAt(i)) == name then Some(KeyAt(i))
    else Lookup(name, i + 1)
  }

  lemma {:induction false} LookupFrom(name: string, i: nat, k: Key)
    requires i <= Position(k) && Name(k) == name
    ensures Lookup(name, i) == Some(k)
    decreases KEY_COUNT - i
  {
    KeyAtPosition(k);
    if i < Position(k) {
      NamesDistinct(KeyAt(i), k);
      LookupFrom(name, i + 1, k);
    }
  }

  lemma {:induction false} LookupSound(name: string, i: nat)
    requires i <= KEY_COUNT
    ensures Lookup(name, i).Some? ==> Name(Lookup(name, i).value) == name
    decreases KEY_COUNT - i
  {
    if i < KEY_COUNT && Name(KeyAt(i)) != name {
      LookupSound(name, i + 1);
    }
  }

  lemma KeyNamedMeaning(name: string, k: Key)
    ensures KeyNamed(name) == Some(k) <==> Name(k) == name
  {
    LookupSound(name, 0);
    if Name(k) == name {
      LookupFrom(name, 0, k);
    }
  }

  datatype ApplyError = UnknownKey(name: string) | BadValue(key: Key, text: string)

  /** applyKey: the named field takes the normalised value; unknown keys and malformed values are rejected. */
  function ApplyKey(lib: Lib, c: Config, name: string, v: string): Result<Config, ApplyError> {
    match KeyNamed(name)
    case None => Failure(UnknownKey(name))
    case Some(k) =>
      var value := ParseValue(lib, k, v);
      if value.None? then Failure(BadValue(k, v)) else Success(WithField(c, k, value.value))
  }

  function WithField(c: Config, k: Key, v: Value): Config
    requires match k
             case DownCyclesToKill => v.Num?
             case VerifyEgress => v.Flag?
             case DnsblZones | Targets | ExtraAccept => v.List?
             case _ => v.Str?
  {
    match k
    case CountryPattern => c.(countryPattern := v.text)
    case DnsblZones => c.(dnsblZones := v.items)
    case DownCyclesToKill => c.(downCyclesToKill := v.n)
    case ExpectedCountry => c.(expectedCountry := v.text)
    case ExpectedIP => c.(expectedIP := v.text)
    case ExtraAccept => c.(extraAccept := v.items)
    case HeartbeatInterval => c.(heartbeatInterval := v.text)
    case Interface => c.(interface := v.text)
    case IPPattern => c.(ipPattern := v.text)
    case KillGrace => c.(killGrace := v.text)
    case LogFile => c.(logFile := v.text)
    case MaxHandshakeAge => c.(maxHandshakeAge := v.text)
    case PingTarget => c.(pingTarget := v.text)
    case PollInterval => c.(pollInterval := v.text)
    case ProbeInterval => c.(probeInterval := v.text)
    case ProbeTimeout => c.(probeTimeout := v.text)
    case ProbeURL => c.(probeURL := v.text)
    case SocketPath => c.(socketPath := v.text)
    case Targets => c.(targets := v.items)
    case VerifyEgress => c.(verifyEgress := v.on)
    case WGConf => c.(wgConf := v.text)
  }

  /** Pairs given to `step` in order, stopping at the first it rejects. */
  function FoldPairs<E>(step: (Config, string, string) -> Result<Config, E>, c: Config, pairs: seq<string>): Result<Config, E>
    requires |pairs| % 2 == 0
    decreases |pairs|
  {
    if pairs == [] then Success(c)
    else
      var n := |pairs| - 2;
      match FoldPairs(step, c, pairs[..n])
      case Failure(e) => Failure(e)
      case Success(d) => step(d, pairs[n], pairs[n + 1])
  }

  /** All the pairs of a `config set` command. */
  function Fold(lib: Lib, c: Config, pairs: seq<string>): Result<Config, ApplyError>
    requires |pairs| % 2 == 0
  {
    FoldPairs((d, name, v) => ApplyKey(lib, d, name, v), c, pairs)
  }

  predicate Acceptable(lib: Lib, name: string, v: string) {
    KeyNamed(name).Some? && ParseValue(lib, KeyNamed(name).value, v).Some?
  }

  /** The last text given under a name. */
  function LastGiven(pairs: seq<string>, name: string): Option<string>
    requires |pairs| % 2 == 0
    decreases |pairs|
  {
    if pairs == [] then None
    else
      var n := |pairs| - 2;
      if pairs[n] == name then Some(pairs[n + 1]) else LastGiven(pairs[..n], name)
  }

  lemma ApplyAccepts(lib: Lib, c: Config, name: string, v: string)
    ensures ApplyKey(lib, c, name, v).Success? <==> Acceptable(lib, name, v)
  {
  }

  lemma FieldAfterApply(lib: Lib, c: Config, name: string, v: string, k: Key)
    requires ApplyKey(lib, c, name, v).Success?
    ensures var r := ApplyKey(lib, c, name, v).value;
            if name == Name(k) then ParseValue(lib, k, v) == Some(Field(r, k)) else Field(r, k) == Field(c, k)
  {
    var named, value := ApplyWrites(lib, c, name, v);
    KeyNamedMeaning(name, k);
    if named == k {
      FieldWritten(c, k, value);
    } else {
      FieldUntouched(c, named, value, k);
    }
  }

  lemma ApplyWrites(lib: Lib, c: Config, name: string, v: string) returns (named: Key, value: Value)
    requires ApplyKey(lib, c, name, v).Success?
    ensures KeyNamed(name) == Some(named) && ParseValue(lib, named, v) == Some(value)
    ensures WithField.requires(c, named, value) && ApplyKey(lib, c, name, v) == Success(WithField(c, named, value))
  {
    named := KeyNamed(name).value;
    value := ParseValue(lib, named, v).value;
  }

  lemma FieldWritten(c: Config, k: Key, v: Value)
    requires WithField.requires(c, k, v)
    ensures Field(WithField(c, k, v), k) == v
  {
  }

  lemma FieldUntouched(c: Config, named: Key, v: Value, k: Key)
    requires WithField.requires(c, named, v) && named != k
    ensures Field(WithField(c, named, v), k) == Field(c, k)
  {
  }

  // ----- the keys by name -----------------------------------------------------------------------

  lemma ApplyNamed(lib: Lib, c: Config, name: string, k: Key, v: string)
    requires name == Name(k)
    ensures ApplyKey(lib, c, name, v)
            == match ParseValue(lib, k, v)
               case Some(value) => Success(WithField(c, k, value))
               case None => Failure(BadValue(k, v))
  {
    KeyNamedMeaning(name, k);
  }

  /** Keys that take any text. */
  lemma ApplyText(lib: Lib, c: Config, name: string, v: string)
    requires name in ["interface", "ping_target", "probe_url", "wg_conf", "socket_path", "log_file", "expected_ip"]
    ensures ApplyKey(lib, c, name, v) == Success(
              if name == "interface" then c.(interface := v)
              else if name == "ping_target" then c.(pingTarget := v)
              else if name == "probe_url" then c.(probeURL := v)
              else if name == "wg_conf" then c.(wgConf := v)
              else if name == "socket_path" then c.(socketPath := v)
              else if name == "log_file" then c.(logFile := v)
              else c.(expectedIP := TrimSpace(v)))
  {
    var k := if name == "interface" then Interface
             else if name == "ping_target" then PingTarget
             else if name == "probe_url" then ProbeURL
             else if name == "wg_conf" then WGConf
             else if name == "socket_path" then SocketPath
             else if name == "log_file" then LogFile
             else ExpectedIP;
    ApplyNamed(lib, c, name, k, v);
  }

  /** Keys that take a duration: exactly the texts that parse as one. */
  lemma ApplyDuration(lib: Lib, c: Config, name: string, v: string)
    requires name in DURATION_KEYS
    ensures ApplyKey(lib, c, name, v).Success? <==> lib.parseDuration(v).Some?
    ensures ApplyKey(lib, c, name, v).Success? ==>
              ApplyKey(lib, c, name, v).value
              == if name == "poll_interval" then c.(pollInterval := v)
                 else if name == "max_handshake_age" then c.(maxHandshakeAge := v)
                 else if name == "kill_grace" then c.(killGrace := v)
                 else if name == "probe_interval" then c.(probeInterval := v)
                 else if name == "probe_timeout" then c.(probeTimeout := v)
                 else c.(heartbeatInterval := v)
  {
    var k := if name == "poll_interval" then PollInterval
             else if name == "max_handshake_age" then MaxHandshakeAge
             else if name == "kill_grace" then KillGrace
             else if name == "probe_interval" then ProbeInterval
             else if name == "probe_timeout" then ProbeTimeout
             else HeartbeatInterval;
    ApplyNamed(lib, c, name, k, v);
  }

  /** Keys that take a list. */
  lemma ApplyList(lib: Lib, c: Config, name: string, v: string)
    requires name in ["dnsbl_zones", "targets", "extra_accept"]
    ensures ApplyKey(lib, c, name, v) == Success(
              if name == "dnsbl_zones" then c.(dnsblZones := ListOf(v))
              else if name == "targets" then c.(targets := ListOf(v))
              else c.(extraAccept := ListOf(v)))
  {
    ApplyNamed(lib, c, name, if name == "dnsbl_zones" then DnsblZones else if name == "targets" then Targets else ExtraAccept, v);
  }

  /** The patterns, the threshold, the switch and the country, each with what it accepts. */
  lemma ApplyParsed(lib: Lib, c: Config, name: string, v: string)
    requires name in ["country_pattern", "ip_pattern", "down_cycles_to_kill", "verify_egress", "expected_country"]
    ensures var r, code := ApplyKey(lib, c, name, v), ToUpper(TrimSpace(v));
            if name == "country_pattern" then
              if lib.compile(v).Some? then r == Success(c.(countryPattern := v)) else r.Failure?
            else if name == "ip_pattern" then
              if lib.compile(v).Some? then r == Success(c.(ipPattern := v)) else r.Failure?
            else if name == "down_cycles_to_kill" then
              if ParseInt(v).Some? && ParseInt(v).value >= 1 then r == Success(c.(downCyclesToKill := ParseInt(v).value)) else r.Failure?
            else if name == "verify_egress" then
              if ParseBool(v).Some? then r == Success(c.(verifyEgress := ParseBool(v).value)) else r.Failure?
            else
              if ValidCountry(code) then r == Success(c.(expectedCountry := code)) else r.Failure?
  {
    var k := if name == "country_pattern" then CountryPattern
             else if name == "ip_pattern" then IPPattern
             else if name == "down_cycles_to_kill" then DownCyclesToKill
             else if name == "verify_egress" then VerifyEgress
             else ExpectedCountry;
    ApplyNamed(lib, c, name, k, v);
  }

  /** A list whose shown form is read back as itself: trimmed comma-free elements, and not the empty text alone. */
  predicate ShownFaithfully(xs: seq<string>) {
    xs != [""] && forall x <- xs :: ',' !in x && Trimmed(x)
  }

  lemma ListShown(xs: seq<string>)
    ensures ListOf(Join(xs, ',')) == xs <==> ShownFaithfully(xs)
  {
    if ListOf(Join(xs, ',')) == xs {
      ListElements(Join(xs, ','));
    } else if xs != [] && ShownFaithfully(xs) {
      if Join(xs, ',') == "" {
        JoinEmpty(xs, ',');
      } else {
        SplitInvertsTrimmedJoin(xs);
      }
    }
  }

  lemma ListElements(v: string)
    ensures ShownFaithfully(ListOf(v))
  {
    var text := TrimSpace(v);
    if text != "" {
      var raw := Split(text, ',');
      JoinSplit(text, ',');
      forall i | 0 <= i < |raw| ensures ',' !in TrimSpace(raw[i]) && Trimmed(TrimSpace(raw[i])) {
        TrimKeepsFree(raw[i], ',');
        var a, b := TrimSpaceSplits(raw[i]);
      }
      if ListOf(v) == [""] {
        assert raw == [text];
        TrimIdempotent(v);
      }
    }
  }

  /** When the text shown for a key denotes its value again. */
  predicate ShownDenotes(c: Config, k: Key) {
    match Field(c, k)
    case List(items) => ShownFaithfully(items)
    case Num(n) => n < INT64_LIMIT
    case _ => k == ExpectedCountry ==> ValidCountry(c.expectedCountry)
  }

  lemma ShownParses(lib: Lib, c: Config, k: Key)
    requires Valid(lib, c) && Normalised(c) == c
    ensures ParseValue(lib, k, Render(Field(c, k))) == Some(Field(c, k)) <==> ShownDenotes(c, k)
  {
    match Field(c, k) {
      case List(items) => ListKeyShown(lib, c, k);
      case Num(n) => ThresholdKeyShown(lib, c, k);
      case Flag(on) => SwitchShown(on);
      case Str(_) => TextShown(lib, c, k);
    }
  }

  lemma ListKeyShown(lib: Lib, c: Config, k: Key)
    requires Field(c, k).List?
    ensures ParseValue(lib, k, Join(Field(c, k).items, ',')) == Some(Field(c, k)) <==> ShownFaithfully(Field(c, k).items)
  {
    ListShown(Field(c, k).items);
  }

  lemma ThresholdKeyShown(lib: Lib, c: Config, k: Key)
    requires Field(c, k).Num? && c.downCyclesToKill >= 1
    ensures ParseValue(lib, k, Itoa(Field(c, k).n)) == Some(Field(c, k)) <==> Field(c, k).n < INT64_LIMIT
  {
    ThresholdShown(c.downCyclesToKill);
  }

  lemma SwitchShown(on: bool)
    ensures ParseBool(Render(Flag(on))) == Some(on)
  {
  }

  lemma TextShown(lib: Lib, c: Config, k: Key)
    requires Valid(lib, c) && Normalised(c) == c && Field(c, k).Str?
    ensures ParseValue(lib, k, Field(c, k).text) == Some(Field(c, k)) <==> (k == ExpectedCountry ==> ValidCountry(c.expectedCountry))
  {
    assert Country(c.expectedCountry) == c.expectedCountry && TrimSpace(c.expectedIP) == c.expectedIP;
  }

  lemma ThresholdShown(n: int)
    requires n >= 1
    ensures ParseInt(Itoa(n)) == Some(n) <==> n < INT64_LIMIT
  {
    if n < INT64_LIMIT {
      ParseItoa(n);
    } else {
      ParseIntRange(Itoa(n));
    }
  }

  lemma FieldRestored(c: Config, k: Key)
    ensures WithField.requires(c, k, Field(c, k)) && WithField(c, k, Field(c, k)) == c
  {
  }

  /**
   Setting a key of a valid, loaded configuration to the text that is shown for
   it changes nothing, exactly when that text denotes the value: lists without
   commas or outer blanks in their elements, a threshold of 64 bits, and a
   country that is set.
   */
  lemma SetToShown(lib: Lib, c: Config, k: Key)
    requires Valid(lib, c) && Normalised(c) == c
    ensures ApplyKey(lib, c, Name(k), Render(Field(c, k))) == Success(c) <==> ShownDenotes(c, k)
  {
    var v := Render(Field(c, k));
    ApplyNamed(lib, c, Name(k), k, v);
    ShownParses(lib, c, k);
    FieldRestored(c, k);
    match ParseValue(lib, k, v) {
      case Some(value) => FieldWritten(c, k, value);
      case None =>
    }
  }

  predicate ForAllPairs(ok: (string, string) -> bool, pairs: seq<string>) {
    forall i | 0 <= i < |pairs| - 1 && i % 2 == 0 :: ok(pairs[i], pairs[i + 1])
  }

  lemma {:induction false} FoldPairsSucceeds<E>(
    step: (Config, string, string) -> Result<Config, E>, ok: (string, string) -> bool, c: Config, pairs: seq<string>)
    requires |pairs| % 2 == 0
    requires forall d, name, v :: step(d, name, v).Success? <==> ok(name, v)
    ensures FoldPairs(step, c, pairs).Success? <==> ForAllPairs(ok, pairs)
    decreases |pairs|
  {
    if pairs != [] {
      var n := |pairs| - 2;
      FoldPairsSucceeds(step, ok, c, pairs[..n]);
      if ForAllPairs(ok, pairs[..n]) && ok(pairs[n], pairs[n + 1]) {
        forall i | 0 <= i < |pairs| - 1 && i % 2 == 0 ensures ok(pairs[i], pairs[i + 1]) {
          if i < n {
            assert pairs[i] == pairs[..n][i] && pairs[i + 1] == pairs[..n][i + 1];
          }
        }
      }
    }
  }

  lemma {:induction false} FoldPairsField<E>(
    step: (Config, string, string) -> Result<Config, E>,
    field: Config -> Value, name: string, parse: string -> Option<Value>, c: Config, pairs: seq<string>)
    requires |pairs| % 2 == 0 && FoldPairs(step, c, pairs).Success?
    requires forall d, given, v | step(d, given, v).Success? ::
               if given == name then parse(v) == Some(field(step(d, given, v).value))
               else field(step(d, given, v).value) == field(d)
    ensures match LastGiven(pairs, name)
            case None => field(FoldPairs(step, c, pairs).value) == field(c)
            case Some(v) => parse(v) == Some(field(FoldPairs(step, c, pairs).value))
    decreases |pairs|
  {
    if pairs != [] {
      FoldPairsField(step, field, name, parse, c, pairs[..|pairs| - 2]);
    }
  }

  /** A command is accepted, as far as its pairs go, exactly when each of them names a key and gives it an acceptable text. */
  lemma FoldSucceeds(lib: Lib, c: Config, pairs: seq<string>)
    requires |pairs| % 2 == 0
    ensures Fold(lib, c, pairs).Success? <==> ForAllPairs((name, v) => Acceptable(lib, name, v), pairs)
  {
    forall d, name, v ensures ApplyKey(lib, d, name, v).Success? <==> Acceptable(lib, name, v) {
      ApplyAccepts(lib, d, name, v);
    }
    FoldPairsSucceeds((d, name, v) => ApplyKey(lib, d, name, v), (name, v) => Acceptable(lib, name, v), c, pairs);
  }

  /**
   A fold that succeeds leaves each named key with the normalised value of its
   last occurrence and each unnamed key with its loaded value.
   */
  lemma {:induction false} FoldMeaning(lib: Lib, c: Config, pairs: seq<string>, k: Key)
    requires |pairs| % 2 == 0 && Fold(lib, c, pairs).Success?
    ensures match LastGiven(pairs, Name(k))
            case None => Field(Fold(lib, c, pairs).value, k) == Field(c, k)
            case Some(v) => ParseValue(lib, k, v) == Some(Field(Fold(lib, c, pairs).value, k))
  {
    forall d, given, v | ApplyKey(lib, d, given, v).Success?
      ensures if given == Name(k) then ParseValue(lib, k, v) == Some(Field(ApplyKey(lib, d, given, v).value, k))
              else Field(ApplyKey(lib, d, given, v).value, k) == Field(d, k)
    {
      FieldAfterApply(lib, d, given, v, k);
    }
    FoldPairsField((d, given, v) => ApplyKey(lib, d, given, v), d => Field(d, k), Name(k), v => ParseValue(lib, k, v), c, pairs);
  }

  /** The loop of SetConfigFileKeys over its step: the pairs applied in order, stopping at the first that is rejected. */
  method ApplyPairs<E>(step: (Config, string, string) -> Result<Config, E>, c: Config, pairs: seq<string>)
    returns (r: Result<Config, E>)
    requires |pairs| % 2 == 0
    ensures r == FoldPairs(step, c, pairs)
  {
    var cfg := c;
    var i := 0;
    while i < |pairs|
      invariant i <= |pairs| && i % 2 == 0
      invariant FoldPairs(step, c, pairs[..i]) == Success(cfg)
    {
      assert i + 2 <= |pairs|;
      assert pairs[..i + 2][..i] == pairs[..i];
      var next := step(cfg, pairs[i], pairs[i + 1]);
      if next.Failure? {
        FoldStops(step, c, pairs, i + 2);
        return next;
      }
      cfg := next.value;
      i := i + 2;
    }
    assert pairs[..|pairs|] == pairs;
    return Success(cfg);
  }

  datatype SetError = OddArguments | LoadFailed(load: LoadError) | Rejected(apply: ApplyError) | Invalid(config: ConfigError) | WriteFailed

  /** The configuration a command starts from: the stored one, or the defaults when there is no file. */
  function Base(file: ConfigFile): Result<Config, LoadError> {
    if file == Missing then Success(DEFAULTS) else LoadConfig(file)
  }

  class ConfigStore {
    var file: ConfigFile

    constructor (file: ConfigFile)
      ensures this.file == file
    {
      this.file := file;
    }

    /**
     SetConfigFileKeys. `written` says whether the temporary file could be
     written and renamed over the old one. Either an error is returned and the
     file is what it was, or the complete valid result has replaced it.
     */
    method SetKeys(lib: Lib, pairs: seq<string>, written: bool) returns (r: Result<Config, SetError>)
      modifies this
      ensures r.Failure? ==> file == old(file)
      ensures r.Success? ==> file == Json(r.value) && Valid(lib, r.value)
      ensures r.Success? <==>
                && |pairs| % 2 == 0 && Base(old(file)).Success?
                && Fold(lib, Base(old(file)).value, pairs).Success?
                && Valid(lib, Fold(lib, Base(old(file)).value, pairs).value)
                && written
      ensures r.Success? ==> r.value == Fold(lib, Base(old(file)).value, pairs).value
      ensures r.Success? ==>
                match old(file)
                case Missing => r.value == Fold(lib, DEFAULTS, pairs).value
                case Json(c) => r.value == Fold(lib, Normalised(c), pairs).value
                case _ => false
      ensures r.Failure? ==>
                match r.error
                case OddArguments => |pairs| % 2 == 1
                case LoadFailed(e) => Base(old(file)) == Failure(e)
                case Rejected(e) => |pairs| % 2 == 0 && Base(old(file)).Success? && Fold(lib, Base(old(file)).value, pairs) == Failure(e)
                case Invalid(e) =>
                  && |pairs| % 2 == 0 && Base(old(file)).Success? && Fold(lib, Base(old(file)).value, pairs).Success?
                  && Blames(lib, Fold(lib, Base(old(file)).value, pairs).value, e)
                case WriteFailed => !written
    {
      if |pairs| % 2 != 0 {
        return Failure(OddArguments);
      }
      var base := Base(file);
      if base.Failure? {
        return Failure(LoadFailed(base.error));
      }
      var folded := ApplyPairs((d, name, v) => ApplyKey(lib, d, name, v), base.value, pairs);
      if folded.Failure? {
        return Failure(Rejected(folded.error));
      }
      var cfg := folded.value;
      var err := Validate(lib, cfg);
      if err.Some? {
        return Failure(Invalid(err.value));
      }
      if !written {
        return Failure(WriteFailed);
      }
      file := Json(cfg);
      return Success(cfg);
    }
  }

  lemma {:induction false} FoldStops<E>(step: (Config, string, string) -> Result<Config, E>, c: Config, pairs: seq<string>, n: nat)
    requires |pairs| % 2 == 0 && n <= |pairs| && n % 2 == 0 && FoldPairs(step, c, pairs[..n]).Failure?
    ensures FoldPairs(step, c, pairs) == FoldPairs(step, c, pairs[..n])
    decreases |pairs|
  {
    if n < |pairs| {
      assert pairs[..|pairs| - 2][..n] == pairs[..n];
      FoldStops(step, c, pairs[..|pairs| - 2], n);
    } else {
      assert pairs[..n] == pairs;
    }
  }

  /** A stored result reads back as itself: the normalisation of loading has nothing left to do. */
  lemma StoredReadsBack(lib: Lib, file: ConfigFile, pairs: seq<string>)
    requires |pairs| % 2 == 0 && Base(file).Success? && Fold(lib, Base(file).value, pairs).Success?
    ensures var stored := Fold(lib, Base(file).value, pairs).value;
            LoadConfig(Json(stored)) == Success(stored)
  {
    if file != Missing {
      LoadStable(file);
    }
    FoldMeaning(lib, Base(file).value, pairs, ExpectedCountry);
    FoldMeaning(lib, Base(file).value, pairs, ExpectedIP);
    match LastGiven(pairs, Name(ExpectedCountry)) {
      case Some(v) => CountryIdempotent(v);
      case None =>
    }
    match LastGiven(pairs, Name(ExpectedIP)) {
      case Some(v) => TrimIdempotent(v);
      case None =>
    }
  }
}
