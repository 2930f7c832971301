/**
 The parts of Go's `strings`, `strconv`, `sort` and `bufio` packages that the
 daemon's own text handling rests on, as functions with the laws used later.
 */
module Text {
  import opened Wrappers

  // ----- white space ---------------------------------------------------------

  /** unicode.IsSpace */
  predicate IsSpace(c: char) {
    || '\t' <= c <= '\r' || c == ' ' || c == '\U{0085}' || c == '\U{00A0}' || c == '\U{1680}'
    || '\U{2000}' <= c <= '\U{200A}' || c == '\U{2028}' || c == '\U{2029}' || c == '\U{202F}'
    || c == '\U{205F}' || c == '\U{3000}'
  }

  predicate Blank(s: string) {
    forall c <- s :: IsSpace(c)
  }

  function TrimLeft(s: string): string {
    if s != "" && IsSpace(s[0]) then TrimLeft(s[1..]) else s
  }

  function TrimRight(s: string): string {
    if s != "" && IsSpace(s[|s| - 1]) then TrimRight(s[..|s| - 1]) else s
  }

  /** strings.TrimSpace */
  function TrimSpace(s: string): string {
    TrimRight(TrimLeft(s))
  }

  predicate Trimmed(s: string) {
    s == "" || (!IsSpace(s[0]) && !IsSpace(s[|s| - 1]))
  }

  /** TrimLeft removes a blank prefix and nothing else. */
  lemma {:induction false} TrimLeftSplits(s: string) returns (k: nat)
    ensures k <= |s| && TrimLeft(s) == s[k..] && Blank(s[..k])
    ensures k < |s| ==> !IsSpace(s[k])
  {
    if s != "" && IsSpace(s[0]) {
      var j := TrimLeftSplits(s[1..]);
      k := j + 1;
      assert s[..k] == [s[0]] + s[1..][..j];
      assert s[k..] == s[1..][j..];
    } else {
      k := 0;
    }
  }

  /** TrimRight removes a blank suffix and nothing else. */
  lemma {:induction false} TrimRightSplits(s: string) returns (k: nat)
    ensures k <= |s| && TrimRight(s) == s[..k] && Blank(s[k..])
    ensures k > 0 ==> !IsSpace(s[k - 1])
  {
    if s != "" && IsSpace(s[|s| - 1]) {
      var t := s[..|s| - 1];
      k := TrimRightSplits(t);
      assert s[k..] == t[k..] + [s[|s| - 1]];
      assert s[..k] == t[..k];
    } else {
      k := |s|;
    }
  }

  /** TrimSpace returns the one stretch of the text whose two ends are not blank and whose surroundings are. */
  lemma TrimSpaceSplits(s: string) returns (i: nat, j: nat)
    ensures i <= j <= |s| && TrimSpace(s) == s[i..j]
    ensures Blank(s[..i]) && Blank(s[j..])
    ensures Trimmed(TrimSpace(s))
  {
    i := TrimLeftSplits(s);
    var k := TrimRightSplits(s[i..]);
    j := i + k;
    assert s[i..][..k] == s[i..j];
    assert s[i..][k..] == s[j..];
  }

  lemma TrimTrimmed(s: string)
    requires Trimmed(s)
    ensures TrimSpace(s) == s
  {
  }

  lemma TrimIdempotent(s: string)
    ensures TrimSpace(TrimSpace(s)) == TrimSpace(s)
  {
    var i, j := TrimSpaceSplits(s);
    TrimTrimmed(TrimSpace(s));
  }

  lemma {:induction false} TrimLeftBlank(a: string, s: string)
    requires Blank(a)
    ensures TrimLeft(a + s) == TrimLeft(s)
  {
    if a == "" {
      assert a + s == s;
    } else {
      assert a[0] in a && (a + s)[1..] == a[1..] + s;
      TrimLeftBlank(a[1..], s);
    }
  }

  lemma {:induction false} TrimRightBlank(s: string, b: string)
    requires Blank(b)
    ensures TrimRight(s + b) == TrimRight(s)
  {
    if b == "" {
      assert s + b == s;
    } else {
      var n := |b| - 1;
      assert b[n] in b && (s + b)[..|s| + n] == s + b[..n];
      TrimRightBlank(s, b[..n]);
    }
  }

  /** Blank surroundings do not change what trimming leaves. */
  lemma TrimBlankAround(a: string, s: string, b: string)
    requires Blank(a) && Blank(b)
    ensures TrimSpace(a + s + b) == TrimSpace(s)
  {
    TrimLeftBlank(a, s + b);
    assert a + s + b == a + (s + b);
    var k := TrimLeftSplits(s);
    TrimLeftBlank(s[..k], s[k..] + b);
    assert s + b == s[..k] + (s[k..] + b);
    if k < |s| {
      assert TrimLeft(s[k..] + b) == s[k..] + b;
      TrimRightBlank(s[k..], b);
    } else {
      assert s[k..] == "";
      assert s[k..] + b == b;
      AllBlank(b);
    }
  }

  lemma {:induction false} AllBlank(s: string)
    requires Blank(s)
    ensures TrimLeft(s) == "" && TrimRight(s) == ""
  {
    TrimLeftBlank(s, "");
    TrimRightBlank("", s);
    assert s + "" == s && "" + s == s;
  }

  // ----- letters ---------------------------------------------------------------

  function UpperChar(c: char): char {
    if 'a' <= c <= 'z' then c - 32 as char else c
  }

  /** strings.ToUpper on ASCII letters. */
  function ToUpper(s: string): (r: string)
    ensures |r| == |s| && forall i | 0 <= i < |s| :: r[i] == UpperChar(s[i])
  {
    if s == "" then "" else [UpperChar(s[0])] + ToUpper(s[1..])
  }

  /** The form in which a country code is held: trimmed, then upper case. */
  function Country(s: string): string {
    ToUpper(TrimSpace(s))
  }

  lemma CountryIdempotent(s: string)
    ensures Country(Country(s)) == Country(s)
  {
    var i, j := TrimSpaceSplits(s);
    UpperKeeps(TrimSpace(s));
    TrimTrimmed(Country(s));
  }

  lemma UpperKeeps(t: string)
    requires Trimmed(t)
    ensures Trimmed(ToUpper(t)) && ToUpper(ToUpper(t)) == ToUpper(t)
  {
    var u := ToUpper(t);
    assert ToUpper(u) == u;
    if t != "" {
      assert u[0] == UpperChar(t[0]) && u[|u| - 1] == UpperChar(t[|t| - 1]);
    }
  }

  // ----- splitting and joining -------------------------------------------------

  /** strings.Split with a one-character separator. */
  function Split(s: string, sep: char): (parts: seq<string>)
    ensures parts != []
  {
    if s == "" then
      [""]
    else
      var rest := Split(s[1..], sep);
      if s[0] == sep then [""] + rest else [[s[0]] + rest[0]] + rest[1..]
  }

  /** strings.Join with a one-character separator. */
  function Join(parts: seq<string>, sep: char): string {
    if parts == [] then ""
    else if |parts| == 1 then parts[0]
    else parts[0] + [sep] + Join(parts[1..], sep)
  }

  lemma {:induction false} JoinSplit(s: string, sep: char)
    ensures Join(Split(s, sep), sep) == s
    ensures forall p <- Split(s, sep) :: sep !in p
  {
    if s != "" {
      JoinSplit(s[1..], sep);
      var rest := Split(s[1..], sep);
      assert s == [s[0]] + s[1..];
      if s[0] == sep {
        assert ([""] + rest)[1..] == rest;
      } else {
        var parts := [[s[0]] + rest[0]] + rest[1..];
        assert parts[1..] == rest[1..];
        assert Split(s, sep) == parts;
        if |rest| > 1 {
          assert Join(parts, sep) == [s[0]] + rest[0] + [sep] + Join(rest[1..], sep);
          assert Join(parts, sep) == [s[0]] + (rest[0] + [sep] + Join(rest[1..], sep));
        }
      }
    }
  }

  lemma {:induction false} SplitFree(s: string, sep: char)
    requires sep !in s
    ensures Split(s, sep) == [s]
  {
    if s != "" {
      SplitFree(s[1..], sep);
      assert s == [s[0]] + s[1..];
    }
  }

  lemma {:induction false} SplitStep(s: string, sep: char, ra: seq<string>, rb: seq<string>)
    requires s != "" && ra != [] && Split(s[1..], sep) == ra + rb
    ensures Split(s, sep) == (if s[0] == sep then [""] + ra else [[s[0]] + ra[0]] + ra[1..]) + rb
  {
    assert (ra + rb)[1..] == ra[1..] + rb;
  }

  /** A separator cuts the list of parts exactly where it stands. */
  lemma {:induction false} SplitConcat(a: string, sep: char, b: string)
    ensures Split(a + [sep] + b, sep) == Split(a, sep) + Split(b, sep)
  {
    var s := a + [sep] + b;
    if a == "" {
      assert s[1..] == b;
    } else {
      SplitConcat(a[1..], sep, b);
      assert s[1..] == a[1..] + [sep] + b;
      SplitStep(s, sep, Split(a[1..], sep), Split(b, sep));
      assert s[0] == a[0];
    }
  }

  lemma {:induction false} SplitJoin(parts: seq<string>, sep: char)
    requires parts != [] && forall p <- parts :: sep !in p
    ensures Split(Join(parts, sep), sep) == parts
  {
    SplitFree(parts[0], sep);
    if |parts| == 1 {
    } else {
      SplitJoin(parts[1..], sep);
      SplitConcat(parts[0], sep, Join(parts[1..], sep));
      assert parts == [parts[0]] + parts[1..];
    }
  }

  /** The text before and after the first `sep`. */
  function Cut(s: string, sep: char): (r: Option<(string, string)>)
    ensures r.None? <==> sep !in s
    ensures r.Some? ==> s == r.value.0 + [sep] + r.value.1 && sep !in r.value.0
  {
    if s == "" then None
    else if s[0] == sep then Some(("", s[1..]))
    else match Cut(s[1..], sep)
      case None => None
      case Some(p) => Some(([s[0]] + p.0, p.1))
  }

  lemma {:induction false} CutAt(a: string, sep: char, b: string)
    requires sep !in a
    ensures Cut(a + [sep] + b, sep) == Some((a, b))
  {
    var s := a + [sep] + b;
    if a == "" {
      assert s[1..] == b;
    } else {
      CutAt(a[1..], sep, b);
      assert s[1..] == a[1..] + [sep] + b;
      assert [a[0]] + a[1..] == a;
    }
  }

  // ----- lines -------------------------------------------------------------------

  function DropCR(line: string): string {
    if line != "" && line[|line| - 1] == '\r' then line[..|line| - 1] else line
  }

  function DropCRs(lines: seq<string>): (r: seq<string>)
    ensures |r| == |lines| && forall i | 0 <= i < |r| :: r[i] == DropCR(lines[i])
  {
    if lines == [] then [] else [DropCR(lines[0])] + DropCRs(lines[1..])
  }

  lemma {:induction false} DropCRsConcat(a: seq<string>, b: seq<string>)
    ensures DropCRs(a + b) == DropCRs(a) + DropCRs(b)
  {
  }

  /** The tokens bufio.ScanLines yields: no empty last line, one carriage return dropped from each. */
  function Lines(s: string): seq<string> {
    LinesOf(Split(s, '\n'))
  }

  function LinesOf(parts: seq<string>): seq<string>
    requires parts != []
  {
    DropCRs(if parts[|parts| - 1] == "" then parts[..|parts| - 1] else parts)
  }

  lemma {:induction false} LinesOfConcat(pa: seq<string>, pb: seq<string>)
    requires pb != []
    ensures LinesOf(pa + pb) == DropCRs(pa) + LinesOf(pb)
  {
    var last := |pb| - 1;
    assert (pa + pb)[..|pa| + last] == pa + pb[..last];
    if pb[last] == "" {
      DropCRsConcat(pa, pb[..last]);
    } else {
      DropCRsConcat(pa, pb);
    }
  }

  lemma {:induction false} LinesOfTerminated(a: string)
    ensures Lines(a + "\n") == DropCRs(Split(a, '\n'))
  {
    SplitConcat(a, '\n', "");
    assert a + "\n" == a + ['\n'] + "";
    assert (Split(a, '\n') + [""])[..|Split(a, '\n')|] == Split(a, '\n');
  }

  lemma LinesConcat(a: string, b: string)
    ensures Lines(a + "\n" + b) == Lines(a + "\n") + Lines(b)
  {
    LinesOfTerminated(a);
    SplitConcat(a, '\n', b);
    LinesOfConcat(Split(a, '\n'), Split(b, '\n'));
  }

  // ----- decimal numbers -----------------------------------------------------------

  predicate IsDigit(c: char) {
    '0' <= c <= '9'
  }

  predicate AllDigits(s: string) {
    forall c <- s :: IsDigit(c)
  }

  function DigitChar(n: nat): (c: char)
    requires n < 10
    ensures IsDigit(c)
  {
    '0' + n as char
  }

  function DigitValue(c: char): (n: nat)
    requires IsDigit(c)
    ensures n < 10 && DigitChar(n) == c
  {
    (c - '0') as nat
  }

  /** The value of a run of decimal digits; leading zeros are allowed. */
  function DigitsValue(s: string): nat
    requires AllDigits(s)
  {
    if s == "" then 0 else DigitsValue(s[..|s| - 1]) * 10 + DigitValue(s[|s| - 1])
  }

  function Digits(n: nat): (s: string)
    ensures s != "" && AllDigits(s)
  {
    if n < 10 then [DigitChar(n)] else Digits(n / 10) + [DigitChar(n % 10)]
  }

  lemma {:induction false} DigitsRoundTrip(n: nat)
    ensures DigitsValue(Digits(n)) == n
    ensures Digits(n)[0] == '0' <==> n == 0
  {
    if n < 10 {
      assert Digits(n)[..0] == "";
      assert DigitsValue(Digits(n)[..0]) == 0;
    } else {
      DigitsRoundTrip(n / 10);
      assert Digits(n)[..|Digits(n)| - 1] == Digits(n / 10);
    }
  }

  /** Without a leading zero the digits are the only spelling of the number. */
  lemma {:induction false} DigitsCanonical(s: string)
    requires s != "" && AllDigits(s) && (|s| > 1 ==> s[0] != '0')
    ensures Digits(DigitsValue(s)) == s
    ensures |s| > 1 ==> DigitsValue(s) >= 10
  {
    var t, c := s[..|s| - 1], s[|s| - 1];
    assert s == t + [c];
    if t == "" {
    } else {
      DigitsCanonical(t);
      if |t| == 1 {
        assert t[..0] == "";
        assert DigitsValue(t) == DigitValue(t[0]);
        assert DigitValue(t[0]) > 0;
      }
      assert DigitsValue(s) / 10 == DigitsValue(t) && DigitsValue(s) % 10 == DigitValue(c);
    }
  }

  const INT64_LIMIT: int := 0x8000_0000_0000_0000

  /** strconv.ParseInt(s, 10, 64); strconv.Atoi agrees with it on 64-bit machines. */
  function ParseInt(s: string): Option<int> {
    var negative := s != "" && s[0] == '-';
    var body := if s != "" && (s[0] == '-' || s[0] == '+') then s[1..] else s;
    if body == "" || !AllDigits(body) then None
    else
      var n: int := DigitsValue(body);
      if negative then (if n <= INT64_LIMIT then Some(-n) else None)
      else (if n < INT64_LIMIT then Some(n) else None)
  }

  /** strconv.Itoa */
  function Itoa(n: int): string {
    if n < 0 then "-" + Digits(-n) else Digits(n)
  }

  lemma ItoaInjective(a: int, b: int)
    requires Itoa(a) == Itoa(b)
    ensures a == b
  {
    assert a >= 0 ==> Itoa(a)[0] in Digits(a) && IsDigit(Itoa(a)[0]);
    assert b >= 0 ==> Itoa(b)[0] in Digits(b) && IsDigit(Itoa(b)[0]);
    assert (a < 0) == (b < 0);
    if a < 0 {
      assert Itoa(a)[1..] == Digits(-a) && Itoa(b)[1..] == Digits(-b);
      DigitsRoundTrip(-a);
      DigitsRoundTrip(-b);
    } else {
      DigitsRoundTrip(a);
      DigitsRoundTrip(b);
    }
  }

  /** Parsing inverts printing on every 64-bit integer. */
  lemma ParseItoa(n: int)
    requires -INT64_LIMIT <= n < INT64_LIMIT
    ensures ParseInt(Itoa(n)) == Some(n)
  {
    var digits := Digits(if n < 0 then -n else n);
    DigitsRoundTrip(if n < 0 then -n else n);
    if n < 0 {
      assert Itoa(n)[0] == '-' && Itoa(n)[1..] == digits;
    } else {
      assert IsDigit(digits[0]) && digits[0] != '-' && digits[0] != '+';
    }
  }

  /** Integers of more than 64 bits do not parse. */
  lemma ParseIntRange(s: string)
    ensures ParseInt(s).Some? ==> -INT64_LIMIT <= ParseInt(s).value < INT64_LIMIT
  {
  }

  /** The number of bytes of the UTF-8 encoding, which is Go's len of a string. */
  function ByteLen(s: string): nat {
    if s == "" then 0
    else (if s[0] < '\U{0080}' then 1 else if s[0] < '\U{0800}' then 2 else if s[0] < '\U{10000}' then 3 else 4)
         + ByteLen(s[1..])
  }

  /** The characters that fit the payload of an encoding of n bytes. */
  function Payload(n: nat): int {
    if n == 1 then 0x80 else if n == 2 then 0x800 else if n == 3 then 0x1_0000 else 0x11_0000
  }

  /** Lengths add up, and a character takes the fewest bytes whose payload it fits. */
  lemma {:induction false} ByteLenMeaning(s: string, c: char)
    ensures ByteLen("") == 0 && ByteLen(s + [c]) > ByteLen(s)
    ensures var n := ByteLen(s + [c]) - ByteLen(s);
            n <= 4 && (c as int) < Payload(n) && (n > 1 ==> (c as int) >= Payload(n - 1))
  {
    if s == "" {
      assert s + [c] == [c] && [c][1..] == "";
    } else {
      ByteLenMeaning(s[1..], c);
      assert (s + [c])[1..] == s[1..] + [c];
    }
  }

  // ----- ordering --------------------------------------------------------------------

  /** Lexicographic order, as Go compares strings. */
  predicate Less(a: string, b: string) {
    b != "" && (a == "" || a[0] < b[0] || (a[0] == b[0] && Less(a[1..], b[1..])))
  }

  lemma {:induction false} LessTotal(a: string, b: string)
    ensures Less(a, b) || Less(b, a) || a == b
    ensures !(Less(a, b) && Less(b, a)) && !Less(a, a)
  {
    if a != "" && b != "" {
      LessTotal(a[1..], b[1..]);
      LessTotal(a[1..], a[1..]);
      assert a == [a[0]] + a[1..] && b == [b[0]] + b[1..];
    } else if a != "" {
      LessTotal(a[1..], a[1..]);
    }
  }

  lemma {:induction false} LessTransitive(a: string, b: string, c: string)
    requires Less(a, b) && Less(b, c)
    ensures Less(a, c)
  {
    if a != "" && a[0] == b[0] == c[0] {
      LessTransitive(a[1..], b[1..], c[1..]);
    }
  }

  predicate StrictlySorted(s: seq<string>) {
    forall i, j | 0 <= i < j < |s| :: Less(s[i], s[j])
  }
}
