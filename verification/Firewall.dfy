/** From the Endpoint lines of a wg-quick file to the packets the kill switch lets out. */
module Firewall {
  import opened Selection
  import opened Wrappers
  import opened Text
  import opened Address

  datatype Endpoint = Endpoint(ip: IP, port: string)

  /** net.SplitHostPort and net.IP.String belong to the library. */
  datatype NetLib = NetLib(
    splitHostPort: string -> Option<(string, string)>,
    v6: V6Parser,
    ipText: IP -> string)

  /** Distinct addresses have distinct texts. */
  ghost predicate CanonicalText(lib: NetLib) {
    forall a, b :: lib.ipText(a) == lib.ipText(b) ==> a == b
  }

  // ----- ports -----------------------------------------------------------------------

  /** The number a port text denotes, if it is one to five digits between 1 and 65535. */
  function PortNumber(s: string): Option<nat> {
    if 1 <= |s| <= 5 && AllDigits(s) && 1 <= DigitsValue(s) <= 65535 then Some(DigitsValue(s)) else None
  }

  method IsPort(s: string) returns (ok: bool)
    ensures ok == PortNumber(s).Some?
  {
    if |s| == 0 || |s| > 5 {
      return false;
    }
    var n := 0;
    for i := 0 to |s|
      invariant AllDigits(s[..i]) && n == DigitsValue(s[..i])
    {
      if s[i] < '0' || s[i] > '9' {
        assert s[i] in s;
        return false;
      }
      assert s[..i + 1] == s[..i] + [s[i]];
      assert s[..i + 1][..i] == s[..i];
      n := n * 10 + DigitValue(s[i]);
    }
    assert s[..|s|] == s;
    return 1 <= n <= 65535;
  }

  lemma PortMeaning(n: nat)
    ensures PortNumber(Digits(n)) == if 1 <= n <= 65535 then Some(n) else None
  {
    DigitsRoundTrip(n);
    if n <= 65535 {
      DigitsShort(n, 100000, 5);
    }
  }

  /** A number below ten to the power of d has at most d digits. */
  lemma {:induction false} DigitsShort(n: nat, limit: nat, d: nat)
    requires n < limit && d >= 1 && limit == Power10(d)
    ensures |Digits(n)| <= d
  {
    if n >= 10 {
      DigitsShort(n / 10, limit / 10, d - 1);
    }
  }

  function Power10(d: nat): nat {
    if d == 0 then 1 else 10 * Power10(d - 1)
  }

  // ----- endpoints ---------------------------------------------------------------------

  /** The class \s of Go's regular expressions. */
  predicate RegexSpace(c: char) {
    c in "\t\n\U{000C}\r "
  }

  function SkipSpace(s: string): string {
    if s != "" && RegexSpace(s[0]) then SkipSpace(s[1..]) else s
  }

  /** The trimmed right-hand side of a line `Endpoint = ...`, in any letter case; a line with nothing after the sign is no such line. */
  function EndpointValue(line: string): Option<string> {
    var s := SkipSpace(line);
    if |s| < 8 || ToUpper(s[..8]) != "ENDPOINT" then None
    else
      var t := SkipSpace(s[8..]);
      if |t| < 2 || t[0] != '=' then None else Some(TrimSpace(t[1..]))
  }

  predicate RegexBlank(s: string) {
    forall c <- s :: RegexSpace(c)
  }

  lemma {:induction false} SkipSpaceSplits(s: string) returns (k: nat)
    ensures k <= |s| && RegexBlank(s[..k]) && SkipSpace(s) == s[k..] && (k < |s| ==> !RegexSpace(s[k]))
  {
    k := 0;
    if s != "" && RegexSpace(s[0]) {
      var j := SkipSpaceSplits(s[1..]);
      k := j + 1;
      assert s[..k] == [s[0]] + s[1..][..j] && s[k..] == s[1..][j..];
    }
  }

  lemma {:induction false} SkipSpaceOver(blank: string, rest: string)
    requires RegexBlank(blank) && (rest != "" ==> !RegexSpace(rest[0]))
    ensures SkipSpace(blank + rest) == rest
  {
    if blank == "" {
      assert blank + rest == rest;
    } else {
      assert blank[0] in blank && (blank + rest)[1..] == blank[1..] + rest;
      SkipSpaceOver(blank[1..], rest);
    }
  }

  /** Blanks, the word in any case, blanks, a sign and at least one character. */
  predicate TakenApart(line: string, a: string, word: string, b: string, rest: string) {
    && RegexBlank(a) && ToUpper(word) == "ENDPOINT" && RegexBlank(b) && rest != ""
    && line == a + (word + (b + ("=" + rest)))
  }

  /** Exactly the lines that the pattern for endpoints matches have a value, and it is what stands behind the sign. */
  lemma EndpointValueMeaning(line: string, value: string)
    ensures EndpointValue(line) == Some(value)
            <==> exists a, word, b, rest :: TakenApart(line, a, word, b, rest) && value == TrimSpace(rest)
  {
    if EndpointValue(line) == Some(value) {
      var a, word, b, rest := EndpointLineFound(line, value);
    }
    if a, word, b, rest :| TakenApart(line, a, word, b, rest) && value == TrimSpace(rest) {
      EndpointLineRead(line, a, word, b, rest);
    }
  }

  lemma EndpointLineFound(line: string, value: string) returns (a: string, word: string, b: string, rest: string)
    requires EndpointValue(line) == Some(value)
    ensures TakenApart(line, a, word, b, rest) && value == TrimSpace(rest)
  {
    var i := SkipSpaceSplits(line);
    var s := SkipSpace(line);
    var j := SkipSpaceSplits(s[8..]);
    var t := SkipSpace(s[8..]);
    a, word, b, rest := line[..i], s[..8], s[8..][..j], t[1..];
    Reassembled(s, 8, j);
    assert line == a + s;
  }

  lemma Reassembled(s: string, n: nat, j: nat)
    requires n <= |s| && j < |s[n..]| && s[n..][j] == '='
    ensures s == s[..n] + (s[n..][..j] + ("=" + s[n..][j..][1..]))
  {
    var t := s[n..][j..];
    assert t == "=" + t[1..] && s[n..] == s[n..][..j] + t && s == s[..n] + s[n..];
  }

  lemma EndpointLineRead(line: string, a: string, word: string, b: string, rest: string)
    requires TakenApart(line, a, word, b, rest)
    ensures EndpointValue(line) == Some(TrimSpace(rest))
  {
    var t := "=" + rest;
    var s := word + (b + t);
    WordVisible(word, b + t);
    SkipSpaceOver(a, s);
    assert s[..8] == word && s[8..] == b + t;
    SkipSpaceOver(b, t);
    assert t[1..] == rest;
  }

  lemma WordVisible(word: string, more: string)
    requires ToUpper(word) == "ENDPOINT"
    ensures |word| == 8 && !RegexSpace((word + more)[0])
  {
    var upper := ToUpper(word);
    assert |upper| == |word| && upper[0] == UpperChar(word[0]);
    LetterVisible(word[0]);
  }

  lemma LetterVisible(c: char)
    requires UpperChar(c) == 'E'
    ensures !RegexSpace(c)
  {
  }

  datatype EndpointError = InvalidEndpoint(line: nat, raw: string) | HostnameEndpoint(line: nat, raw: string) | ReadError | NoEndpoint

  /** What one Endpoint value denotes. */
  function ParseOne(lib: NetLib, line: nat, raw: string): Result<Endpoint, EndpointError> {
    match lib.splitHostPort(raw)
    case None => Failure(InvalidEndpoint(line, raw))
    case Some((host, port)) =>
      if PortNumber(port).None? then Failure(InvalidEndpoint(line, raw))
      else match ParseIP(lib.v6, host)
        case None => Failure(HostnameEndpoint(line, raw))
        case Some(ip) => Success(Endpoint(ip, port))
  }

  /** The endpoints the lines denote, in order, repetitions included; the first bad line decides. */
  function Denoted(lib: NetLib, lines: seq<string>): Result<seq<Endpoint>, EndpointError> {
    if lines == [] then Success([])
    else
      var n := |lines| - 1;
      match Denoted(lib, lines[..n])
      case Failure(e) => Failure(e)
      case Success(init) =>
        match EndpointValue(lines[n])
        case None => Success(init)
        case Some(raw) =>
          match ParseOne(lib, n + 1, raw)
          case Failure(e) => Failure(e)
          case Success(ep) => Success(init + [ep])
  }

  /** The lines that say where an endpoint is. */
  predicate Says(lib: NetLib, line: string, e: Endpoint)  {
    match EndpointValue(line)
    case None => false
    case Some(raw) =>
      match lib.splitHostPort(raw)
      case None => false
      case Some((host, port)) => port == e.port && PortNumber(port).Some? && ParseIP(lib.v6, host) == Some(e.ip)
  }

  /** The endpoints of a readable file, line by line: one for each line of an endpoint, in order, and what that line says. */
  lemma {:induction false} DenotedPositions(lib: NetLib, lines: seq<string>) returns (at: seq<nat>)
    requires Denoted(lib, lines).Success?
    ensures Positions(lines, (l: string) => EndpointValue(l).Some?, at) && |Denoted(lib, lines).value| == |at|
    ensures forall i | 0 <= i < |at| :: Says(lib, lines[at[i]], Denoted(lib, lines).value[i])
  {
    at := [];
    if lines != [] {
      var n := |lines| - 1;
      at := DenotedPositions(lib, lines[..n]);
      if EndpointValue(lines[n]).Some? {
        at := PositionsSnoc(lines, (l: string) => EndpointValue(l).Some?, at);
      } else {
        forall k: nat | k < |lines| && EndpointValue(lines[k]).Some? ensures k in at {
          assert lines[k] == lines[..n][k];
        }
      }
    }
  }

  lemma DenotedNext(lib: NetLib, lines: seq<string>, i: nat, all: seq<Endpoint>)
    requires i < |lines| && Denoted(lib, lines[..i]) == Success(all)
    ensures Denoted(lib, lines[..i + 1])
            == match EndpointValue(lines[i])
               case None => Success(all)
               case Some(raw) =>
                 (match ParseOne(lib, i + 1, raw) case Failure(e) => Failure(e) case Success(ep) => Success(all + [ep]))
  {
    assert lines[..i + 1][..i] == lines[..i];
  }

  /** What a refused endpoint line is refused for. */
  predicate Refuses(lib: NetLib, line: string, n: nat, e: EndpointError) {
    match EndpointValue(line)
    case None => false
    case Some(raw) =>
      match lib.splitHostPort(raw)
      case None => e == InvalidEndpoint(n, raw)
      case Some((host, port)) =>
        if PortNumber(port).None? then e == InvalidEndpoint(n, raw)
        else ParseIP(lib.v6, host).None? && e == HostnameEndpoint(n, raw)
  }

  /** The error is that of the first line that is refused; lines count from 1. */
  lemma {:induction false} DenotedError(lib: NetLib, lines: seq<string>) returns (n: nat)
    requires Denoted(lib, lines).Failure?
    ensures n < |lines| && Refuses(lib, lines[n], n + 1, Denoted(lib, lines).error) && Denoted(lib, lines[..n]).Success?
  {
    var last := |lines| - 1;
    if Denoted(lib, lines[..last]).Failure? {
      n := DenotedError(lib, lines[..last]);
      assert lines[..last][..n] == lines[..n];
    } else {
      n := last;
    }
  }

  lemma {:induction false} DenotedStops(lib: NetLib, lines: seq<string>, n: nat)
    requires n <= |lines| && Denoted(lib, lines[..n]).Failure?
    ensures Denoted(lib, lines) == Denoted(lib, lines[..n])
  {
    if n < |lines| {
      assert lines[..|lines| - 1][..n] == lines[..n];
      DenotedStops(lib, lines[..|lines| - 1], n);
    } else {
      assert lines[..n] == lines;
    }
  }

  predicate NoRepeats(eps: seq<Endpoint>) {
    forall i, j | 0 <= i < j < |eps| :: eps[i] != eps[j]
  }

  /** The list without repetitions, first occurrences in order. */
  function Unique(eps: seq<Endpoint>): (u: seq<Endpoint>)
    ensures NoRepeats(u) && (u == [] <==> eps == []) && forall e :: e in u <==> e in eps
  {
    if eps == [] then []
    else
      var init, last := eps[..|eps| - 1], eps[|eps| - 1];
      assert eps == init + [last];
      if last in Unique(init) then Unique(init) else Unique(init) + [last]
  }

  /** Ascending positions at which these endpoints occur first. */
  predicate Firsts(eps: seq<Endpoint>, u: seq<Endpoint>, at: seq<nat>) {
    && |at| == |u| && (forall i, j | 0 <= i < j < |at| :: at[i] < at[j])
    && forall i | 0 <= i < |at| :: at[i] < |eps| && eps[at[i]] == u[i] && u[i] !in eps[..at[i]]
  }

  lemma FirstsLonger(eps: seq<Endpoint>, e: Endpoint, u: seq<Endpoint>, at: seq<nat>)
    requires Firsts(eps, u, at)
    ensures Firsts(eps + [e], u, at)
  {
    forall i | 0 <= i < |at| ensures u[i] !in (eps + [e])[..at[i]] {
      assert (eps + [e])[..at[i]] == eps[..at[i]];
    }
  }

  lemma FirstsSnoc(eps: seq<Endpoint>, e: Endpoint, u: seq<Endpoint>, at: seq<nat>)
    requires Firsts(eps, u, at) && e !in eps
    ensures Firsts(eps + [e], u + [e], at + [|eps|])
  {
    FirstsLonger(eps, e, u, at);
    assert (eps + [e])[..|eps|] == eps;
  }

  lemma UniqueSnoc(eps: seq<Endpoint>, e: Endpoint)
    ensures Unique(eps + [e]) == if e in eps then Unique(eps) else Unique(eps) + [e]
  {
    assert (eps + [e])[..|eps|] == eps;
  }

  /** The kept endpoints are the first occurrences, in the order of the list. */
  lemma {:induction false} UniqueFirsts(eps: seq<Endpoint>) returns (at: seq<nat>)
    ensures Firsts(eps, Unique(eps), at)
  {
    at := [];
    if eps != [] {
      var n := |eps| - 1;
      at := UniqueFirsts(eps[..n]);
      UniqueSnoc(eps[..n], eps[n]);
      assert eps == eps[..n] + [eps[n]];
      if eps[n] in eps[..n] {
        FirstsLonger(eps[..n], eps[n], Unique(eps[..n]), at);
      } else {
        FirstsSnoc(eps[..n], eps[n], Unique(eps[..n]), at);
        at := at + [n];
      }
    }
  }

  function KeyText(lib: NetLib, e: Endpoint): string {
    lib.ipText(e.ip) + ":" + e.port
  }

  /** The text under which an endpoint is remembered identifies it, since ports hold no colon. */
  lemma KeyIdentifies(lib: NetLib, a: Endpoint, b: Endpoint)
    requires CanonicalText(lib) && AllDigits(a.port) && AllDigits(b.port)
    ensures KeyText(lib, a) == KeyText(lib, b) <==> a == b
  {
    if KeyText(lib, a) == KeyText(lib, b) {
      LastColon(lib.ipText(a.ip), a.port, lib.ipText(b.ip), b.port);
    }
  }

  lemma NoLaterColon(b: string, q: string, i: nat)
    requires AllDigits(q) && |b| < i <= |b| + |q|
    ensures (b + ":" + q)[i] != ':'
  {
    assert (b + ":" + q)[i] == q[i - |b| - 1];
    assert q[i - |b| - 1] in q;
  }

  lemma LastColon(a: string, p: string, b: string, q: string)
    requires AllDigits(p) && AllDigits(q) && a + ":" + p == b + ":" + q
    ensures a == b && p == q
  {
    var s := a + ":" + p;
    assert |s| == |a| + 1 + |p| == |b| + 1 + |q|;
    assert s[|a|] == ':' && s[|b|] == ':';
    if |a| > |b| {
      NoLaterColon(b, q, |a|);
    } else if |b| > |a| {
      NoLaterColon(a, p, |b|);
    }
    assert s[..|a|] == a && s[..|b|] == b;
    assert s[|a| + 1..] == p && s[|b| + 1..] == q;
  }

  predicate AllDigitPorts(eps: seq<Endpoint>) {
    forall e <- eps :: AllDigits(e.port)
  }

  ghost function KeyTexts(lib: NetLib, eps: seq<Endpoint>): set<string> {
    set e | e in eps :: KeyText(lib, e)
  }

  lemma EndpointSeen(lib: NetLib, eps: seq<Endpoint>, ep: Endpoint)
    requires CanonicalText(lib) && AllDigits(ep.port) && AllDigitPorts(eps)
    ensures KeyText(lib, ep) in KeyTexts(lib, eps) <==> ep in eps
    ensures KeyTexts(lib, eps + [ep]) == KeyTexts(lib, eps) + {KeyText(lib, ep)}
    ensures AllDigitPorts(eps + [ep])
  {
    assert forall e :: e in eps + [ep] <==> e in eps || e == ep;
    if KeyText(lib, ep) in KeyTexts(lib, eps) {
      var e :| e in eps && KeyText(lib, e) == KeyText(lib, ep);
      KeyIdentifies(lib, e, ep);
    }
  }

  /**
   parseEndpoints over the lines of a readable file; `failed` says whether the
   scanner stopped on an error. The result is complete, free of repetitions and
   in order of first occurrence; a malformed or host-named endpoint is refused,
   and so is a file with none.
   */
  method ParseEndpoints(lib: NetLib, lines: seq<string>, failed: bool) returns (r: Result<seq<Endpoint>, EndpointError>)
    requires CanonicalText(lib)
    ensures match Denoted(lib, lines)
            case Failure(e) => r == Failure(e)
            case Success(eps) =>
              r == if failed then Failure(ReadError) else if eps == [] then Failure(NoEndpoint) else Success(Unique(eps))
  {
    var seen: set<string> := {};
    var endpoints: seq<Endpoint> := [];
    ghost var all: seq<Endpoint> := [];
    for i := 0 to |lines|
      invariant Denoted(lib, lines[..i]) == Success(all)
      invariant endpoints == Unique(all) && AllDigitPorts(endpoints)
      invariant seen == KeyTexts(lib, endpoints)
    {
      DenotedNext(lib, lines, i, all);
      var value := EndpointValue(lines[i]);
      if value.None? {
        continue;
      }
      var one := ParseOne(lib, i + 1, value.value);
      if one.Failure? {
        DenotedStops(lib, lines, i + 1);
        return Failure(one.error);
      }
      var ep := one.value;
      EndpointSeen(lib, endpoints, ep);
      UniqueSnoc(all, ep);
      var key := KeyText(lib, ep);
      if key !in seen {
        seen := seen + {key};
        endpoints := endpoints + [ep];
      }
      all := all + [ep];
    }
    assert lines[..|lines|] == lines;
    if failed {
      return Failure(ReadError);
    }
    if |endpoints| == 0 {
      return Failure(NoEndpoint);
    }
    return Success(endpoints);
  }

  // ----- the chain ------------------------------------------------------------------------

  datatype Transport = Udp(sport: nat, dport: nat) | Icmp6(kind: nat) | OtherTransport

  /** An outgoing packet: the interface it leaves by, its destination and its transport header. */
  datatype Packet = Packet(oif: string, daddr: IP, transport: Transport)

  datatype Verdict = Accept | Drop

  const ND_ROUTER_SOLICIT: nat := 133
  const ND_NEIGHBOR_SOLICIT: nat := 135

  /** A rule of the output chain; what an extra rule does to a packet is its own business. */
  datatype Rule =
    | LeavesBy(iface: string)
    | ToEndpoint4(quad: Quad, port: string)
    | ToEndpoint6(bytes: seq<Byte>, port: string)
    | UdpPorts(sport: nat, dport: nat)
    | NeighborDiscovery
    | Extra(verdict: Packet -> Option<Verdict>)

  function RuleVerdict(r: Rule, p: Packet): Option<Verdict> {
    match r
    case LeavesBy(iface) => if p.oif == iface then Some(Accept) else None
    case ToEndpoint4(quad, port) =>
      if p.daddr == V4(quad) && p.transport.Udp? && PortNumber(port) == Some(p.transport.dport) then Some(Accept) else None
    case ToEndpoint6(bytes, port) =>
      if p.daddr == V6(bytes) && p.transport.Udp? && PortNumber(port) == Some(p.transport.dport) then Some(Accept) else None
    case UdpPorts(sport, dport) => if p.transport == Udp(sport, dport) then Some(Accept) else None
    case NeighborDiscovery =>
      if p.transport == Icmp6(ND_ROUTER_SOLICIT) || p.transport == Icmp6(ND_NEIGHBOR_SOLICIT) then Some(Accept) else None
    case Extra(verdict) => verdict(p)
  }

  /** The first rule with a verdict decides; without one the policy drops. */
  function ChainVerdict(rules: seq<Rule>, p: Packet): Verdict {
    if rules == [] then Drop
    else match RuleVerdict(rules[0], p)
      case Some(v) => v
      case None => ChainVerdict(rules[1..], p)
  }

  function EndpointRule(e: Endpoint): Rule {
    match e.ip
    case V4(quad) => ToEndpoint4(quad, e.port)
    case V6(bytes) => ToEndpoint6(bytes, e.port)
  }

  function EndpointRules(eps: seq<Endpoint>): (rs: seq<Rule>)
    ensures |rs| == |eps| && forall i | 0 <= i < |rs| :: rs[i] == EndpointRule(eps[i])
  {
    seq(|eps|, i requires 0 <= i < |eps| => EndpointRule(eps[i]))
  }

  function ControlRules(): seq<Rule> {
    [UdpPorts(68, 67), UdpPorts(546, 547), NeighborDiscovery]
  }

  function BaseRules(iface: string, eps: seq<Endpoint>): seq<Rule> {
    [LeavesBy("lo"), LeavesBy(iface)] + EndpointRules(eps) + ControlRules()
  }

  /** buildRuleset, rule by rule; the extra rules come last. */
  method BuildRuleset(iface: string, eps: seq<Endpoint>, extra: seq<Packet -> Option<Verdict>>) returns (rules: seq<Rule>)
    ensures rules == BaseRules(iface, eps) + ExtraRules(extra)
  {
    rules := [LeavesBy("lo"), LeavesBy(iface)];
    for i := 0 to |eps|
      invariant rules == [LeavesBy("lo"), LeavesBy(iface)] + EndpointRules(eps)[..i]
    {
      match eps[i].ip {
        case V4(quad) => rules := rules + [ToEndpoint4(quad, eps[i].port)];
        case V6(bytes) => rules := rules + [ToEndpoint6(bytes, eps[i].port)];
      }
    }
    rules := rules + [UdpPorts(68, 67)];
    rules := rules + [UdpPorts(546, 547)];
    rules := rules + [NeighborDiscovery];
    ghost var base := rules;
    for i := 0 to |extra|
      invariant rules == base + seq(i, j requires 0 <= j < i => Extra(extra[j]))
    {
      rules := rules + [Extra(extra[i])];
    }
  }

  // ----- what the chain lets out ---------------------------------------------------------------

  /** UDP to the address and port of an endpoint. */
  predicate Reaches(p: Packet, e: Endpoint) {
    p.daddr == e.ip && p.transport.Udp? && PortNumber(e.port) == Some(p.transport.dport)
  }

  /** DHCP, DHCPv6 and the neighbour discovery needed to find a router or an on-link endpoint. */
  predicate ControlTraffic(p: Packet) {
    p.transport in [Udp(68, 67), Udp(546, 547), Icmp6(ND_ROUTER_SOLICIT), Icmp6(ND_NEIGHBOR_SOLICIT)]
  }

  predicate Permitted(iface: string, eps: seq<Endpoint>, p: Packet) {
    || p.oif == "lo" || p.oif == iface
    || (exists e <- eps :: Reaches(p, e))
    || ControlTraffic(p)
  }

  /** A prefix that accepts decides; a prefix that says nothing leaves the packet to the rest. */
  lemma {:induction false} ChainConcat(a: seq<Rule>, b: seq<Rule>, p: Packet)
    requires forall r <- a :: RuleVerdict(r, p) != Some(Drop)
    ensures ChainVerdict(a, p) == Accept <==> exists r <- a :: RuleVerdict(r, p) == Some(Accept)
    ensures ChainVerdict(a + b, p) == if ChainVerdict(a, p) == Accept then Accept else ChainVerdict(b, p)
  {
    if a == [] {
      assert a + b == b;
    } else {
      assert a[0] in a && (a + b)[1..] == a[1..] + b;
      ChainConcat(a[1..], b, p);
      assert forall r <- a :: r == a[0] || r in a[1..];
    }
  }

  lemma BaseNeverDrops(iface: string, eps: seq<Endpoint>, p: Packet)
    ensures forall r <- BaseRules(iface, eps) :: RuleVerdict(r, p) != Some(Drop)
  {
    forall r <- BaseRules(iface, eps) ensures RuleVerdict(r, p) != Some(Drop) {
      var i :| 0 <= i < |BaseRules(iface, eps)| && BaseRules(iface, eps)[i] == r;
      assert i >= 2 && i < 2 + |eps| ==> r == EndpointRule(eps[i - 2]);
    }
  }

  lemma AcceptedIsPermitted(iface: string, eps: seq<Endpoint>, p: Packet, i: nat)
    requires i < |BaseRules(iface, eps)| && RuleVerdict(BaseRules(iface, eps)[i], p) == Some(Accept)
    ensures Permitted(iface, eps, p)
  {
    if 2 <= i < 2 + |eps| {
      var e := eps[i - 2];
      assert BaseRules(iface, eps)[i] == EndpointRule(e);
      assert e in eps && Reaches(p, e);
    }
  }

  lemma PermittedIsAccepted(iface: string, eps: seq<Endpoint>, p: Packet) returns (i: nat)
    requires Permitted(iface, eps, p)
    ensures i < |BaseRules(iface, eps)| && RuleVerdict(BaseRules(iface, eps)[i], p) == Some(Accept)
  {
    var n := 2 + |eps|;
    if p.oif == "lo" {
      i := 0;
    } else if p.oif == iface {
      i := 1;
    } else if exists k | 0 <= k < |eps| :: Reaches(p, eps[k]) {
      var k :| 0 <= k < |eps| && Reaches(p, eps[k]);
      i := k + 2;
      assert BaseRules(iface, eps)[i] == EndpointRule(eps[k]);
    } else {
      i := if p.transport == Udp(68, 67) then n else if p.transport == Udp(546, 547) then n + 1 else n + 2;
      assert BaseRules(iface, eps)[i] == ControlRules()[i - n];
    }
  }

  lemma BaseAccepts(iface: string, eps: seq<Endpoint>, p: Packet)
    ensures (exists r <- BaseRules(iface, eps) :: RuleVerdict(r, p) == Some(Accept)) <==> Permitted(iface, eps, p)
  {
    var rules := BaseRules(iface, eps);
    if exists r <- rules :: RuleVerdict(r, p) == Some(Accept) {
      var i :| 0 <= i < |rules| && RuleVerdict(rules[i], p) == Some(Accept);
      AcceptedIsPermitted(iface, eps, p, i);
    }
    if Permitted(iface, eps, p) {
      var i := PermittedIsAccepted(iface, eps, p);
      assert rules[i] in rules;
    }
  }

  /**
   Without extra rules a packet gets out exactly when it leaves by loopback or
   the tunnel, is UDP to the address and port of an endpoint, or is the control
   traffic named above. Extra rules, being last, cannot take a permission away.
   */
  lemma {:induction false} PolicyExact(iface: string, eps: seq<Endpoint>, extra: seq<Rule>, p: Packet)
    ensures ChainVerdict(BaseRules(iface, eps), p) == Accept <==> Permitted(iface, eps, p)
    ensures ChainVerdict(BaseRules(iface, eps) + extra, p)
            == if Permitted(iface, eps, p) then Accept else ChainVerdict(extra, p)
  {
    BaseNeverDrops(iface, eps, p);
    BaseAccepts(iface, eps, p);
    ChainConcat(BaseRules(iface, eps), extra, p);
  }

  /** Dropping repetitions does not change what is permitted. */
  lemma {:induction false} UniquePermits(iface: string, eps: seq<Endpoint>, p: Packet)
    ensures Permitted(iface, Unique(eps), p) == Permitted(iface, eps, p)
  {
  }

  function ExtraRules(extra: seq<Packet -> Option<Verdict>>): (rs: seq<Rule>)
    ensures |rs| == |extra| && forall i | 0 <= i < |rs| :: rs[i] == Extra(extra[i])
  {
    seq(|extra|, i requires 0 <= i < |extra| => Extra(extra[i]))
  }

  /**
   firewall up, from the file to the packet: for a file parseEndpoints accepts,
   the chain lets out the loopback, tunnel and control traffic, UDP to the
   endpoints the file names, and of the rest what the extra rules accept.
   */
  method FirewallUp(
    lib: NetLib, iface: string, lines: seq<string>, failed: bool, extra: seq<Packet -> Option<Verdict>>, ghost p: Packet)
    returns (r: Result<seq<Rule>, EndpointError>)
    requires CanonicalText(lib)
    ensures r.Success? <==> Denoted(lib, lines).Success? && Denoted(lib, lines).value != [] && !failed
    ensures r.Success? ==>
              ChainVerdict(r.value, p)
              == if Permitted(iface, Denoted(lib, lines).value, p) then Accept else ChainVerdict(ExtraRules(extra), p)
    ensures r.Failure? ==>
              r.error == if Denoted(lib, lines).Failure? then Denoted(lib, lines).error else if failed then ReadError else NoEndpoint
  {
    var eps := ParseEndpoints(lib, lines, failed);
    if eps.Failure? {
      return Failure(eps.error);
    }
    var rules := BuildRuleset(iface, eps.value, extra);
    PolicyExact(iface, eps.value, ExtraRules(extra), p);
    UniquePermits(iface, Denoted(lib, lines).value, p);
    return Success(rules);
  }

  /** Of the extra rules the first that has a verdict on a packet decides; where none accepts, the policy drops. */
  lemma {:induction false} ExtrasDecide(extra: seq<Packet -> Option<Verdict>>, p: Packet)
    ensures ChainVerdict(ExtraRules(extra), p) == Accept
            <==> exists i | 0 <= i < |extra| :: extra[i](p) == Some(Accept) && forall j | 0 <= j < i :: extra[j](p).None?
  {
    if extra != [] {
      assert ExtraRules(extra)[1..] == ExtraRules(extra[1..]);
      ExtrasDecide(extra[1..], p);
      FirstOrLater(extra, p);
    }
  }

  lemma FirstOrLater(extra: seq<Packet -> Option<Verdict>>, p: Packet)
    requires extra != []
    ensures var rest := extra[1..];
            (exists i | 0 <= i < |extra| :: extra[i](p) == Some(Accept) && forall j | 0 <= j < i :: extra[j](p).None?)
            <==> extra[0](p) == Some(Accept)
                 || (extra[0](p).None?
                     && exists i | 0 <= i < |rest| :: rest[i](p) == Some(Accept) && forall j | 0 <= j < i :: rest[j](p).None?)
  {
    var rest := extra[1..];
    if i :| 0 <= i < |extra| && extra[i](p) == Some(Accept) && forall j | 0 <= j < i :: extra[j](p).None? {
      if i > 0 {
        assert rest[i - 1](p) == Some(Accept) && forall j | 0 <= j < i - 1 :: rest[j] == extra[j + 1];
      }
    }
    if i :| extra[0](p).None? && 0 <= i < |rest| && rest[i](p) == Some(Accept) && forall j | 0 <= j < i :: rest[j](p).None? {
      assert extra[i + 1](p) == Some(Accept);
      forall j | 0 <= j < i + 1 ensures extra[j](p).None? {
        if j > 0 {
          assert extra[j] == rest[j - 1];
        }
      }
    }
  }
}
