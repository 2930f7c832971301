/** The printing half of the log: one line per record. */
module Handler {
  import opened Text

  datatype Time = Time(hour: nat, minute: nat, second: nat) {
    predicate Valid() {
      hour < 24 && minute < 60 && second < 60
    }
  }

  datatype Attr = Attr(key: string, value: string)

  /** A log record; levels are slog's, spaced four apart with INFO at 0. */
  datatype Record = Record(time: Time, level: int, message: string, attrs: seq<Attr>)

  const LEVEL_INFO: int := 0
  const LEVEL_WARN: int := 4
  const LEVEL_ERROR: int := 8

  predicate Enabled(r: Record) {
    r.level >= LEVEL_INFO
  }

  function TwoDigits(n: nat): string
    requires n < 100
  {
    [DigitChar(n / 10), DigitChar(n % 10)]
  }

  /** Format("15:04:05") */
  function Clock(t: Time): string
    requires t.Valid()
  {
    TwoDigits(t.hour) + ":" + TwoDigits(t.minute) + ":" + TwoDigits(t.second)
  }

  /** The level word padded to a fixed width. */
  function LevelWord(level: int): string {
    if level < LEVEL_INFO then "DEBUG "
    else if level < LEVEL_WARN then "INFO  "
    else if level < LEVEL_ERROR then "WARN  "
    else "ERROR "
  }

  predicate NeedsQuotes(s: string) {
    exists c <- s :: c in " \t\""
  }

  /** strconv.Quote belongs to the library and is a parameter. */
  type Quoter = string -> string

  function AttrText(quote: Quoter, a: Attr): string {
    " " + a.key + "=" + (if NeedsQuotes(a.value) then quote(a.value) else a.value)
  }

  function AttrsText(quote: Quoter, attrs: seq<Attr>): string {
    if attrs == [] then "" else AttrsText(quote, attrs[..|attrs| - 1]) + AttrText(quote, attrs[|attrs| - 1])
  }

  lemma Associative(a: string, b: string, c: string)
    ensures (a + b) + c == a + (b + c)
  {
  }

  lemma {:induction false} AttrsTextConcat(quote: Quoter, a: seq<Attr>, b: seq<Attr>)
    ensures AttrsText(quote, a + b) == AttrsText(quote, a) + AttrsText(quote, b)
  {
    if b == [] {
      assert a + b == a;
    } else {
      var init, last := b[..|b| - 1], AttrText(quote, b[|b| - 1]);
      AttrsTextConcat(quote, a, init);
      assert (a + b)[..|a + b| - 1] == a + init;
      Associative(AttrsText(quote, a), AttrsText(quote, init), last);
    }
  }

  /** The message and the attributes, the handler's own first. */
  function Body(quote: Quoter, own: seq<Attr>, r: Record): string {
    r.message + AttrsText(quote, own + r.attrs)
  }

  /**
   What the text of a record is made of: the message, then the handler's own
   attributes and the record's in order, each behind a blank with its key and
   its value, quoted if it holds a blank, a tab or a quote.
   */
  lemma BodyMeaning(quote: Quoter, own: seq<Attr>, r: Record, a: Attr)
    ensures Body(quote, [], r.(attrs := [])) == r.message
    ensures Body(quote, own, r) == Body(quote, own + r.attrs, r.(attrs := []))
    ensures var shown := if ' ' in a.value || '\t' in a.value || '"' in a.value then quote(a.value) else a.value;
            Body(quote, own, r.(attrs := r.attrs + [a])) == Body(quote, own, r) + (" " + a.key + "=" + shown)
  {
    assert own + r.attrs + [] == own + r.attrs;
    assert own + (r.attrs + [a]) == own + r.attrs + [a];
    AttrsTextConcat(quote, own + r.attrs, [a]);
    assert [a][..0] == [];
    Associative(r.message, AttrsText(quote, own + r.attrs), AttrText(quote, a));
    QuotesNeeded(a.value);
  }

  lemma QuotesNeeded(s: string)
    ensures NeedsQuotes(s) <==> ' ' in s || '\t' in s || '"' in s
  {
  }

  /** What stands before the message. */
  function Prefix(showTime: bool, r: Record): string
    requires r.time.Valid()
  {
    (if showTime then Clock(r.time) + " " else "") + LevelWord(r.level)
  }

  /** The clock, where it is shown, and the level's word in six columns. */
  lemma PrefixMeaning(r: Record)
    requires r.time.Valid()
    ensures Prefix(true, r) == Clock(r.time) + " " + Prefix(false, r)
    ensures Prefix(false, r) == if r.level >= 8 then "ERROR " else if r.level >= 4 then "WARN  "
                                else if r.level >= 0 then "INFO  " else "DEBUG "
  {
  }

  /** What a record adds to the output. */
  function Printed(showTime: bool, quote: Quoter, own: seq<Attr>, r: Record): string
    requires r.time.Valid()
  {
    if Enabled(r) then Prefix(showTime, r) + Body(quote, own, r) + "\n" else ""
  }

  class ConsoleHandler {
    const showTime: bool
    const quote: Quoter
    const attrs: seq<Attr>
    var written: string

    constructor (showTime: bool, quote: Quoter, attrs: seq<Attr>)
      ensures this.showTime == showTime && this.quote == quote && this.attrs == attrs && written == ""
    {
      this.showTime, this.quote, this.attrs, written := showTime, quote, attrs, "";
    }

    method Handle(r: Record)
      requires r.time.Valid()
      modifies this
      ensures written == old(written) + Printed(showTime, quote, attrs, r)
      ensures written != old(written) <==> r.level >= 0
    {
      if !Enabled(r) {
        return;
      }
      var b := WritePrefix(r);
      b := b + r.message;
      var own := AppendAttrs(attrs);
      b := b + own;
      var given := AppendAttrs(r.attrs);
      b := b + given;
      AttrsTextConcat(quote, attrs, r.attrs);
      Associative(Prefix(showTime, r) + r.message, own, given);
      Associative(Prefix(showTime, r), r.message, own + given);
      written := written + (b + "\n");
    }

    method WritePrefix(r: Record) returns (b: string)
      requires r.time.Valid()
      ensures b == Prefix(showTime, r)
    {
      b := "";
      if showTime {
        b := Clock(r.time) + " ";
      }
      if r.level < LEVEL_INFO {
        b := b + "DEBUG ";
      } else if r.level < LEVEL_WARN {
        b := b + "INFO  ";
      } else if r.level < LEVEL_ERROR {
        b := b + "WARN  ";
      } else {
        b := b + "ERROR ";
      }
    }

    method AppendAttrs(list: seq<Attr>) returns (b: string)
      ensures b == AttrsText(quote, list)
    {
      b := "";
      for i := 0 to |list|
        invariant b == AttrsText(quote, list[..i])
      {
        assert list[..i + 1][..i] == list[..i];
        var s := list[i].value;
        if NeedsQuotes(s) {
          s := quote(s);
        }
        b := b + (" " + list[i].key + "=" + s);
      }
      assert list[..|list|] == list;
    }
  }
}
