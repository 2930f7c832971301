/**
 IP addresses as net.ParseIP yields them, and the octet reversal of a DNSBL
 query name (section 2.1 of RFC 5782).
 */
module Address {
  import opened Wrappers
  import opened Text

  type Byte = n: nat | n < 256

  datatype Quad = Quad(a: Byte, b: Byte, c: Byte, d: Byte) {
    function Reversed(): Quad {
      Quad(d, c, b, a)
    }
  }

  /** An address; an IPv4-mapped IPv6 address is the IPv4 address, as for net.IP.To4. */
  datatype IP = V4(quad: Quad) | V6(bytes: seq<Byte>)

  /** The parser of the colon-separated forms belongs to the library and is a parameter. */
  type V6Parser = string -> Option<IP>

  function ParseOctet(s: string): Option<Byte> {
    if s == "" || !AllDigits(s) || (|s| > 1 && s[0] == '0') || DigitsValue(s) > 255 then None
    else Some(DigitsValue(s))
  }

  function ParseIPv4(s: string): Option<Quad> {
    var f := Split(s, '.');
    if |f| != 4 then None
    else match (ParseOctet(f[0]), ParseOctet(f[1]), ParseOctet(f[2]), ParseOctet(f[3]))
      case (Some(a), Some(b), Some(c), Some(d)) => Some(Quad(a, b, c, d))
      case _ => None
  }

  /** The first character that decides the family of an address text. */
  function FamilyMark(s: string): Option<char> {
    if s == "" then None
    else if s[0] in ".:%" then Some(s[0])
    else FamilyMark(s[1..])
  }

  /** net.ParseIP */
  function ParseIP(v6: V6Parser, s: string): Option<IP> {
    match FamilyMark(s)
    case Some('.') => (match ParseIPv4(s) case Some(q) => Some(V4(q)) case None => None)
    case Some(':') => v6(s)
    case _ => None
  }

  function Dotted(q: Quad): string {
    Join([Digits(q.a), Digits(q.b), Digits(q.c), Digits(q.d)], '.')
  }

  lemma DottedText(q: Quad)
    ensures Dotted(q) == Digits(q.a) + "." + Digits(q.b) + "." + Digits(q.c) + "." + Digits(q.d)
  {
    var a, b, c, d := Digits(q.a), Digits(q.b), Digits(q.c), Digits(q.d);
    assert [a, b, c, d][1..] == [b, c, d] && [b, c, d][1..] == [c, d] && [c, d][1..] == [d];
    assert Join([c, d], '.') == c + ['.'] + d;
    assert Join([b, c, d], '.') == b + ['.'] + (c + ['.'] + d);
    assert Join([a, b, c, d], '.') == a + ['.'] + (b + ['.'] + (c + ['.'] + d));
    assert a + ['.'] + (b + ['.'] + (c + ['.'] + d)) == a + "." + b + "." + c + "." + d;
  }

  /** Neither end of a dotted address is blank. */
  lemma DottedTrimmed(q: Quad)
    ensures Trimmed(Dotted(q))
  {
    DottedText(q);
    var s, a, d := Dotted(q), Digits(q.a), Digits(q.d);
    assert s[0] == a[0] && s[|s| - 1] == d[|d| - 1];
    assert a[0] in a && d[|d| - 1] in d;
    assert IsDigit(a[0]) && IsDigit(d[|d| - 1]);
  }

  /** reverseIPv4: None is the source's `false`. */
  function ReverseIPv4(v6: V6Parser, ip: string): Option<string> {
    match ParseIP(v6, ip)
    case Some(V4(q)) => Some(Dotted(q.Reversed()))
    case _ => None
  }

  lemma {:induction false} OctetRoundTrip(n: Byte)
    ensures ParseOctet(Digits(n)) == Some(n)
  {
    DigitsRoundTrip(n);
    if n >= 10 {
      assert Digits(n) == Digits(n / 10) + [DigitChar(n % 10)];
    }
  }

  lemma OctetCanonical(s: string)
    requires ParseOctet(s).Some?
    ensures Digits(ParseOctet(s).value) == s
  {
    DigitsCanonical(s);
  }

  lemma {:induction false} DottedMark(head: string, tail: string)
    requires AllDigits(head)
    ensures FamilyMark(head + "." + tail) == Some('.')
  {
    if head != "" {
      DottedMark(head[1..], tail);
      assert IsDigit(head[0]);
      assert (head + "." + tail)[0] == head[0];
      assert (head + "." + tail)[1..] == head[1..] + "." + tail;
    }
  }

  lemma ParseDotted(v6: V6Parser, q: Quad)
    ensures ParseIPv4(Dotted(q)) == Some(q)
    ensures ParseIP(v6, Dotted(q)) == Some(V4(q))
  {
    var parts := [Digits(q.a), Digits(q.b), Digits(q.c), Digits(q.d)];
    forall p <- parts ensures '.' !in p {
      assert AllDigits(p);
    }
    SplitJoin(parts, '.');
    OctetRoundTrip(q.a);
    OctetRoundTrip(q.b);
    OctetRoundTrip(q.c);
    OctetRoundTrip(q.d);
    DottedMark(parts[0], Join(parts[1..], '.'));
  }

  lemma DottedParse(s: string)
    requires ParseIPv4(s).Some?
    ensures Dotted(ParseIPv4(s).value) == s
  {
    var f := Split(s, '.');
    JoinSplit(s, '.');
    OctetCanonical(f[0]);
    OctetCanonical(f[1]);
    OctetCanonical(f[2]);
    OctetCanonical(f[3]);
    assert f == [f[0], f[1], f[2], f[3]];
  }

  /**
   Reversing twice through the text gives the address back: the very text for a
   dotted-decimal address, the dotted form of the same address for a mapped one.
   */
  lemma ReverseInvolution(v6: V6Parser, ip: string)
    requires ReverseIPv4(v6, ip).Some?
    ensures var back := ReverseIPv4(v6, ReverseIPv4(v6, ip).value);
            && back.Some?
            && ParseIP(v6, back.value) == ParseIP(v6, ip)
            && (ParseIPv4(ip).Some? ==> back.value == ip)
  {
    var q := ParseIP(v6, ip).value.quad;
    ParseDotted(v6, q.Reversed());
    ParseDotted(v6, q);
    if ParseIPv4(ip).Some? {
      DottedParse(ip);
      ParseDotted(v6, ParseIPv4(ip).value);
    }
  }

  /** The reversal lists the four octets in the opposite order. */
  lemma ReverseOrder(v6: V6Parser, q: Quad)
    ensures var r := ReverseIPv4(v6, Dotted(q));
            r.Some? && Split(r.value, '.') == [Digits(q.d), Digits(q.c), Digits(q.b), Digits(q.a)]
  {
    ParseDotted(v6, q);
    var parts := [Digits(q.d), Digits(q.c), Digits(q.b), Digits(q.a)];
    forall p <- parts ensures '.' !in p {
      assert AllDigits(p);
    }
    SplitJoin(parts, '.');
  }
}
