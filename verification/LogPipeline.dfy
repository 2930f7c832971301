/** The log end to end: what the handler prints is what history reads back. */
module LogPipeline {
  import opened Selection
  import opened Wrappers
  import opened Text
  import opened Handler
  import opened History

  // ----- more on trimming -----------------------------------------------------------

  function NonBlanks(s: string): nat {
    if s == "" then 0 else NonBlanks(s[..|s| - 1]) + (if IsSpace(s[|s| - 1]) then 0 else 1)
  }

  lemma {:induction false} NonBlanksConcat(a: string, b: string)
    ensures NonBlanks(a + b) == NonBlanks(a) + NonBlanks(b)
  {
    if b == "" {
      assert a + b == a;
    } else {
      NonBlanksConcat(a, b[..|b| - 1]);
      assert (a + b)[..|a + b| - 1] == a + b[..|b| - 1];
    }
  }

  lemma {:induction false} NonBlanksBlank(s: string)
    ensures NonBlanks(s) == 0 <==> Blank(s)
  {
    if s != "" {
      NonBlanksBlank(s[..|s| - 1]);
      assert s == s[..|s| - 1] + [s[|s| - 1]];
      assert s[|s| - 1] in s;
    }
  }

  lemma {:induction false} TrimKeepsNonBlanks(s: string)
    ensures NonBlanks(TrimSpace(s)) == NonBlanks(s)
  {
    var i, j := TrimSpaceSplits(s);
    assert s == s[..i] + s[i..j] + s[j..];
    NonBlanksConcat(s[..i] + s[i..j], s[j..]);
    NonBlanksConcat(s[..i], s[i..j]);
    NonBlanksBlank(s[..i]);
    NonBlanksBlank(s[j..]);
  }

  // ----- parsing a printed line ---------------------------------------------------------

  /** The name of an slog level, which are spaced four apart with INFO at 0. */
  function LevelName(level: int): string {
    if level < 4 then "INFO" else if level < 8 then "WARN" else "ERROR"
  }

  function LevelRank(level: int): int {
    if level < 4 then 0 else if level < 8 then 1 else 2
  }

  /** The entry that stands for an event with that time, level and text. */
  function EntryFor(t: Time, level: int, text: string): Entry
    requires t.Valid()
  {
    Entry(Clock(t), LevelName(level), TrimSpace(text), LevelRank(level))
  }

  lemma {:induction false} TrimNewlinesFree(s: string)
    requires '\n' !in s
    ensures TrimNewlines(s) == s
  {
  }

  lemma ClockShape(t: Time)
    requires t.Valid()
    ensures IsClock(Clock(t)) && ' ' !in Clock(t) && '\n' !in Clock(t)
  {
  }

  /** The time of day can be read off the text. */
  lemma ClockReads(t: Time)
    requires t.Valid()
    ensures var s := Clock(t);
            && |s| == 8 && s[2] == ':' && s[5] == ':'
            && DigitValue(s[0]) * 10 + DigitValue(s[1]) == t.hour
            && DigitValue(s[3]) * 10 + DigitValue(s[4]) == t.minute
            && DigitValue(s[6]) * 10 + DigitValue(s[7]) == t.second
  {
  }

  /** The parser takes the three fields of such a line apart again. */
  lemma ParseFields(clock: string, word: string, rest: string)
    requires IsClock(clock) && ' ' !in clock && ' ' !in word
    requires '\n' !in clock && '\n' !in word && '\n' !in rest
    ensures var level := ToUpper(TrimSpace(word));
            ParseEvent(clock + " " + (word + " " + rest))
            == if RankOf(level).Some? then Some(Entry(clock, level, TrimSpace(rest), RankOf(level).value)) else None
  {
    var line := clock + " " + (word + " " + rest);
    TrimNewlinesFree(line);
    CutAt(clock, ' ', word + " " + rest);
    CutAt(word, ' ', rest);
  }

  lemma LevelNameStable(level: int)
    ensures ToUpper(TrimSpace(LevelName(level))) == LevelName(level)
    ensures RankOf(LevelName(level)) == Some(LevelRank(level))
    ensures ' ' !in LevelName(level) && '\n' !in LevelName(level)
  {
    LevelStable(LevelName(level));
  }

  /** Two digits, a colon, two digits, a colon, two digits. */
  predicate TimeOfDay(s: string) {
    && |s| == 8 && s[2] == ':' && s[5] == ':'
    && forall i | 0 <= i < 8 && i !in {2, 5} :: '0' <= s[i] <= '9'
  }

  /** Up to the first blank, up to the second, and what follows. */
  predicate Fields(line: string, clock: string, word: string, rest: string) {
    line == clock + " " + (word + " " + rest) && ' ' !in clock && ' ' !in word
  }

  /** The entry that a line of these fields is, if its first is a time of day and its second a level in any case. */
  predicate MeansEntry(line: string, word: string, rest: string, e: Entry) {
    && Fields(line, e.time, word, rest) && TimeOfDay(e.time)
    && e.level == ToUpper(TrimSpace(word)) && e.rest == TrimSpace(rest)
    && (e.level, e.rank) in [("INFO", 0), ("WARN", 1), ("ERROR", 2)]
  }

  /** Exactly the lines with a time of day and one of the three levels are events. */
  lemma ParseEventMeaning(line: string, e: Entry)
    requires '\n' !in line
    ensures ParseEvent(line) == Some(e) <==> exists word, rest :: MeansEntry(line, word, rest, e)
  {
    if ParseEvent(line) == Some(e) {
      var word, rest := EventFields(line, e);
    }
    if word, rest :| MeansEntry(line, word, rest, e) {
      FieldsEvent(line, word, rest, e);
    }
  }

  lemma EventFields(line: string, e: Entry) returns (word: string, rest: string)
    requires '\n' !in line && ParseEvent(line) == Some(e)
    ensures MeansEntry(line, word, rest, e)
  {
    TrimNewlinesFree(line);
    var tail := Cut(line, ' ').value.1;
    word, rest := Cut(tail, ' ').value.0, Cut(tail, ' ').value.1;
    assert Fields(line, e.time, word, rest);
  }

  lemma FieldsEvent(line: string, word: string, rest: string, e: Entry)
    requires '\n' !in line && MeansEntry(line, word, rest, e)
    ensures ParseEvent(line) == Some(e)
  {
    TrimNewlinesFree(line);
    CutAt(e.time, ' ', word + " " + rest);
    CutAt(word, ' ', rest);
  }

  /** What pads a level name to a fixed width. */
  function LevelGap(name: string): string {
    if name == "ERROR" then "" else " "
  }

  lemma LevelPadded(level: int)
    requires level >= LEVEL_INFO
    ensures LevelWord(level) == LevelName(level) + " " + LevelGap(LevelName(level))
  {
  }

  lemma FieldsJoined(clock: string, name: string, gap: string, text: string)
    ensures clock + " " + (name + " " + gap) + text == clock + " " + (name + " " + (gap + text))
  {
  }

  lemma ParsePadded(clock: string, name: string, gap: string, text: string)
    requires IsClock(clock) && ' ' !in clock && '\n' !in clock
    requires RankOf(name).Some? && ToUpper(TrimSpace(name)) == name && ' ' !in name && '\n' !in name
    requires Blank(gap) && '\n' !in gap && '\n' !in text
    ensures ParseEvent(clock + " " + (name + " " + (gap + text)))
            == Some(Entry(clock, name, TrimSpace(text), RankOf(name).value))
  {
    ParseFields(clock, name, gap + text);
    TrimBlankAround(gap, text, "");
    assert gap + text + "" == gap + text;
  }

  /** A printed line, as far as its first newline, parses to the entry of the text it shows. */
  lemma ParsePrinted(r: Record, text: string)
    requires r.time.Valid() && r.level >= 0 && '\n' !in text
    ensures ParseEvent(Prefix(true, r) + text) == Some(EntryFor(r.time, r.level, text))
  {
    var clock, name, gap := Clock(r.time), LevelName(r.level), LevelGap(LevelName(r.level));
    ClockShape(r.time);
    LevelNameStable(r.level);
    LevelPadded(r.level);
    FieldsJoined(clock, name, gap, text);
    ParsePadded(clock, name, gap, text);
  }

  lemma {:induction false} ClockVisible(line: string)
    requires Cut(line, ' ').Some? && IsClock(Cut(line, ' ').value.0)
    ensures !Blank(line)
  {
    assert line[0] == Cut(line, ' ').value.0[0];
    assert line[0] in line && !IsSpace(line[0]);
  }

  /** A line of blanks is no event. */
  lemma BlankLineIgnored(line: string)
    requires Blank(line)
    ensures ParseEvent(line).None?
  {
    BlankTrimmed(line);
    var cut := Cut(TrimNewlines(line), ' ');
    if cut.Some? && IsClock(cut.value.0) {
      ClockVisible(TrimNewlines(line));
    }
  }

  lemma {:induction false} BlankTrimmed(line: string)
    requires Blank(line)
    ensures Blank(TrimNewlines(line))
  {
    if line != "" && line[|line| - 1] == '\n' {
      BlankTrimmed(line[..|line| - 1]);
    }
  }

  lemma {:induction false} BlankLinesIgnored(lines: seq<string>)
    requires forall l <- lines :: Blank(l)
    ensures EventsOf(lines) == []
  {
    if lines != [] {
      BlankLinesIgnored(lines[..|lines| - 1]);
      assert lines[|lines| - 1] in lines;
      BlankLineIgnored(lines[|lines| - 1]);
    }
  }

  // ----- one record ------------------------------------------------------------------------

  function Expected(quote: Quoter, own: seq<Attr>, r: Record): Entry
    requires r.time.Valid()
  {
    EntryFor(r.time, r.level, Body(quote, own, r))
  }

  /** No newline stands before the last visible character. */
  predicate OneLine(text: string) {
    '\n' !in TrimRight(text)
  }

  lemma DropCRTrims(head: string, text: string)
    requires head != "" && head[|head| - 1] != '\r'
    ensures exists t :: DropCR(head + text) == head + t && TrimSpace(t) == TrimSpace(text) && forall c <- t :: c in text
  {
    if text != "" && text[|text| - 1] == '\r' {
      var t := text[..|text| - 1];
      assert (head + text)[..|head + text| - 1] == head + t;
      TrimBlankAround("", t, "\r");
      assert "" + t + "\r" == text;
      assert DropCR(head + text) == head + t;
    } else {
      assert DropCR(head + text) == head + text;
    }
  }

  /** The first line of a printed record, carriage return dropped or not, parses to the entry of its text. */
  lemma FirstLineParses(r: Record, text: string)
    requires r.time.Valid() && r.level >= 0 && '\n' !in text
    ensures ParseEvent(DropCR(Prefix(true, r) + text)) == Some(EntryFor(r.time, r.level, text))
  {
    DropCRTrims(Prefix(true, r), text);
    var t :| DropCR(Prefix(true, r) + text) == Prefix(true, r) + t && TrimSpace(t) == TrimSpace(text) && forall c <- t :: c in text;
    ParsePrinted(r, t);
  }

  lemma PrefixFree(r: Record)
    requires r.time.Valid()
    ensures '\n' !in Prefix(true, r)
  {
    ClockShape(r.time);
  }

  lemma SingleEvent(line: string, e: Entry)
    requires ParseEvent(line) == Some(e)
    ensures EventsOf([line]) == [e]
  {
    assert [line][..0] == [];
  }

  lemma {:induction false} PartsBlank(q: string)
    requires Blank(q)
    ensures EventsOf(DropCRs(Split(q, '\n'))) == []
  {
    JoinSplit(q, '\n');
    var parts := DropCRs(Split(q, '\n'));
    forall l <- parts ensures Blank(l) {
      var i :| 0 <= i < |parts| && parts[i] == l;
      PartBlank(q, i);
    }
    BlankLinesIgnored(parts);
  }

  lemma {:induction false} PartBlank(q: string, i: nat)
    requires Blank(q) && i < |Split(q, '\n')|
    ensures Blank(Split(q, '\n')[i])
  {
    if q != "" {
      assert q[0] in q && forall c <- q[1..] :: c in q;
      var rest := Split(q[1..], '\n');
      if q[0] == '\n' {
        if i > 0 {
          PartBlank(q[1..], i - 1);
        }
      } else {
        PartBlank(q[1..], i);
      }
    }
  }

  /** Text that continues on further lines keeps its reading exactly when those lines are blank. */
  lemma BlankContinuation(p: string, q: string)
    requires '\n' !in p && Blank(q)
    ensures OneLine(p + "\n" + q) && TrimSpace(p) == TrimSpace(p + "\n" + q)
  {
    var tail := "\n" + q;
    assert p + "\n" + q == p + tail == "" + p + tail;
    TrimBlankAround("", p, tail);
    TrimRightBlank(p, tail);
    var k := TrimRightSplits(p);
  }

  lemma VisibleContinuation(p: string, q: string)
    requires !Blank(q)
    ensures !OneLine(p + "\n" + q) && TrimSpace(p) != TrimSpace(p + "\n" + q)
  {
    var text := p + "\n" + q;
    NonBlanksBlank(q);
    TrimKeepsNonBlanks(p);
    TrimKeepsNonBlanks(text);
    NonBlanksConcat(p + "\n", q);
    NonBlanksConcat(p, "\n");
    NewlineKept(p, q);
  }

  lemma {:induction false} NewlineKept(p: string, q: string)
    requires !Blank(q)
    ensures '\n' in TrimRight(p + "\n" + q)
  {
    var text := p + "\n" + q;
    var k := TrimRightSplits(text);
    var c :| c in q && !IsSpace(c);
    var i :| 0 <= i < |q| && q[i] == c;
    forall j | k <= j < |text| ensures IsSpace(text[j]) {
      assert text[k..][j - k] in text[k..];
    }
    assert text[|p| + 1 + i] == c;
    assert TrimRight(text)[|p|] == '\n';
  }

  /** The events a printed record is read back as. */
  function ReadBack(quote: Quoter, own: seq<Attr>, r: Record): seq<Entry>
    requires r.time.Valid()
  {
    EventsOf(Lines(Printed(true, quote, own, r)))
  }

  lemma ReadBackUnbroken(quote: Quoter, own: seq<Attr>, r: Record)
    requires r.time.Valid() && r.level >= 0 && '\n' !in Body(quote, own, r)
    ensures ReadBack(quote, own, r) == [Expected(quote, own, r)]
  {
    var line := Prefix(true, r) + Body(quote, own, r);
    PrefixFree(r);
    LinesOfTerminated(line);
    SplitFree(line, '\n');
    FirstLineParses(r, Body(quote, own, r));
    SingleEvent(DropCR(line), Expected(quote, own, r));
    assert DropCRs([line]) == [DropCR(line)];
  }

  lemma ReadBackBroken(quote: Quoter, own: seq<Attr>, r: Record, p: string, q: string)
    requires r.time.Valid() && r.level >= 0 && '\n' !in p && Body(quote, own, r) == p + "\n" + q
    ensures ReadBack(quote, own, r) == [EntryFor(r.time, r.level, p)] + EventsOf(DropCRs(Split(q, '\n')))
  {
    PrefixFree(r);
    FirstLineParses(r, p);
    BrokenEvents(Prefix(true, r), Body(quote, own, r), p, q, EntryFor(r.time, r.level, p));
  }

  lemma BrokenEvents(prefix: string, body: string, p: string, q: string, e: Entry)
    requires '\n' !in prefix && '\n' !in p && body == p + "\n" + q
    requires ParseEvent(DropCR(prefix + p)) == Some(e)
    ensures EventsOf(Lines(prefix + body + "\n")) == [e] + EventsOf(DropCRs(Split(q, '\n')))
  {
    var first := prefix + p;
    assert '\n' !in first;
    assert prefix + body == first + "\n" + q;
    BrokenLines(first, q);
    HeadEvent(DropCR(first), e, DropCRs(Split(q, '\n')));
  }

  lemma HeadEvent(line: string, e: Entry, rest: seq<string>)
    requires ParseEvent(line) == Some(e)
    ensures EventsOf([line] + rest) == [e] + EventsOf(rest)
  {
    SingleEvent(line, e);
    EventsOfConcat([line], rest);
  }

  lemma BrokenLines(first: string, q: string)
    requires '\n' !in first
    ensures Lines(first + "\n" + q + "\n") == [DropCR(first)] + DropCRs(Split(q, '\n'))
  {
    LinesOfTerminated(first + "\n" + q);
    assert first + ['\n'] + q == first + "\n" + q;
    BrokenParts(first, q);
  }

  lemma BrokenParts(first: string, q: string)
    requires '\n' !in first
    ensures DropCRs(Split(first + ['\n'] + q, '\n')) == [DropCR(first)] + DropCRs(Split(q, '\n'))
  {
    SplitConcat(first, '\n', q);
    SplitFree(first, '\n');
    DropCRsConcat([first], Split(q, '\n'));
    assert DropCRs([first]) == [DropCR(first)];
  }

  /**
   A record is read back as the one entry it stands for exactly when no newline
   stands before the last visible character of its message and attributes; in
   particular when there is no newline at all.
   */
  lemma RoundTripExactly(quote: Quoter, own: seq<Attr>, r: Record)
    requires r.time.Valid() && r.level >= 0
    ensures ReadBack(quote, own, r) == [Expected(quote, own, r)] <==> OneLine(Body(quote, own, r))
    ensures '\n' !in Body(quote, own, r) ==> OneLine(Body(quote, own, r))
  {
    var text := Body(quote, own, r);
    match Cut(text, '\n') {
      case None =>
        ReadBackUnbroken(quote, own, r);
        var k := TrimRightSplits(text);
      case Some((p, q)) =>
        ReadBackBroken(quote, own, r, p, q);
        if Blank(q) {
          BlankContinuation(p, q);
          PartsBlank(q);
        } else {
          VisibleContinuation(p, q);
          assert ReadBack(quote, own, r)[0].rest == TrimSpace(p);
        }
    }
  }

  // ----- the whole log -----------------------------------------------------------------------

  predicate AllValid(rs: seq<Record>) {
    forall i | 0 <= i < |rs| :: rs[i].time.Valid()
  }

  predicate AllOneLine(quote: Quoter, own: seq<Attr>, rs: seq<Record>) {
    forall i | 0 <= i < |rs| && rs[i].level >= 0 :: OneLine(Body(quote, own, rs[i]))
  }

  /** The file after a sequence of records has been handled. */
  function Output(quote: Quoter, own: seq<Attr>, rs: seq<Record>): string
    requires AllValid(rs)
  {
    if rs == [] then "" else Output(quote, own, rs[..|rs| - 1]) + Printed(true, quote, own, rs[|rs| - 1])
  }

  /** The entries of the enabled records. */
  function EntriesFor(quote: Quoter, own: seq<Attr>, rs: seq<Record>): seq<Entry>
    requires AllValid(rs)
  {
    if rs == [] then []
    else
      var init, last := EntriesFor(quote, own, rs[..|rs| - 1]), rs[|rs| - 1];
      if last.level >= 0 then init + [Expected(quote, own, last)] else init
  }

  /** Output ends where a line ends. */
  lemma {:induction false} OutputTerminated(quote: Quoter, own: seq<Attr>, rs: seq<Record>)
    requires AllValid(rs)
    ensures var out := Output(quote, own, rs); out != "" ==> out[|out| - 1] == '\n'
  {
    if rs != [] {
      OutputTerminated(quote, own, rs[..|rs| - 1]);
    }
  }

  lemma EventsOfAppended(file: string, more: string)
    requires file != "" ==> file[|file| - 1] == '\n'
    ensures EventsOf(Lines(file + more)) == EventsOf(Lines(file)) + EventsOf(Lines(more))
  {
    if file == "" {
      assert file + more == more;
    } else {
      var a := file[..|file| - 1];
      assert file == a + "\n";
      LinesConcat(a, more);
      EventsOfConcat(Lines(file), Lines(more));
    }
  }

  predicate DifferAt(a: seq<Entry>, b: seq<Entry>, j: nat) {
    j < |a| && j < |b| && a[j] != b[j]
  }

  lemma {:induction false} OutputSnoc(quote: Quoter, own: seq<Attr>, rs: seq<Record>)
    requires AllValid(rs) && rs != []
    ensures var n := |rs| - 1;
            EventsOf(Lines(Output(quote, own, rs))) == EventsOf(Lines(Output(quote, own, rs[..n]))) + ReadBack(quote, own, rs[n])
  {
    var n := |rs| - 1;
    OutputTerminated(quote, own, rs[..n]);
    EventsOfAppended(Output(quote, own, rs[..n]), Printed(true, quote, own, rs[n]));
  }

  lemma {:induction false} OutputReadsBack(quote: Quoter, own: seq<Attr>, rs: seq<Record>)
    requires AllValid(rs) && AllOneLine(quote, own, rs)
    ensures EventsOf(Lines(Output(quote, own, rs))) == EntriesFor(quote, own, rs)
  {
    if rs != [] {
      var init, last := rs[..|rs| - 1], rs[|rs| - 1];
      OutputReadsBack(quote, own, init);
      OutputSnoc(quote, own, rs);
      if last.level >= 0 {
        RoundTripExactly(quote, own, last);
      }
    }
  }

  /** A broken record reads back as a first entry that is not the one it stands for. */
  lemma BrokenFirst(quote: Quoter, own: seq<Attr>, r: Record)
    requires r.time.Valid() && r.level >= 0 && !OneLine(Body(quote, own, r))
    ensures ReadBack(quote, own, r) != [] && ReadBack(quote, own, r)[0] != Expected(quote, own, r)
  {
    var text := Body(quote, own, r);
    match Cut(text, '\n') {
      case None =>
        var k := TrimRightSplits(text);
        assert false;
      case Some((p, q)) =>
        ReadBackBroken(quote, own, r, p, q);
        BrokenVisible(p, q);
        VisibleContinuation(p, q);
        assert ReadBack(quote, own, r)[0].rest == TrimSpace(p);
    }
  }

  lemma BrokenVisible(p: string, q: string)
    requires '\n' !in p && !OneLine(p + "\n" + q)
    ensures !Blank(q)
  {
    if Blank(q) {
      BlankContinuation(p, q);
    }
  }

  lemma DifferGrown(a: seq<Entry>, b: seq<Entry>, j: nat, x: seq<Entry>, y: seq<Entry>)
    requires DifferAt(a, b, j)
    ensures DifferAt(a + x, b + y, j)
  {
  }

  lemma DifferNext(a: seq<Entry>, x: seq<Entry>, y: seq<Entry>)
    requires x != [] && y != [] && x[0] != y[0]
    ensures DifferAt(a + x, a + y, |a|)
  {
  }

  function StandsFor(quote: Quoter, own: seq<Attr>, r: Record): seq<Entry>
    requires r.time.Valid()
  {
    if r.level >= 0 then [Expected(quote, own, r)] else []
  }

  lemma {:induction false} EntriesSnoc(quote: Quoter, own: seq<Attr>, rs: seq<Record>)
    requires AllValid(rs) && rs != []
    ensures EntriesFor(quote, own, rs) == EntriesFor(quote, own, rs[..|rs| - 1]) + StandsFor(quote, own, rs[|rs| - 1])
  {
  }

  lemma OneLineSnoc(quote: Quoter, own: seq<Attr>, rs: seq<Record>)
    requires rs != []
    ensures var n := |rs| - 1;
            AllOneLine(quote, own, rs) <==>
            AllOneLine(quote, own, rs[..n]) && (rs[n].level >= 0 ==> OneLine(Body(quote, own, rs[n])))
  {
    var n := |rs| - 1;
    assert forall i | 0 <= i < n :: rs[i] == rs[..n][i];
  }

  /** Where a log with a broken record goes wrong. */
  lemma {:induction false} BrokenSomewhere(quote: Quoter, own: seq<Attr>, rs: seq<Record>) returns (j: nat)
    requires AllValid(rs) && !AllOneLine(quote, own, rs)
    ensures DifferAt(EventsOf(Lines(Output(quote, own, rs))), EntriesFor(quote, own, rs), j)
  {
    var n := |rs| - 1;
    OutputSnoc(quote, own, rs);
    EntriesSnoc(quote, own, rs);
    OneLineSnoc(quote, own, rs);
    var read, stood := EventsOf(Lines(Output(quote, own, rs[..n]))), EntriesFor(quote, own, rs[..n]);
    if AllOneLine(quote, own, rs[..n]) {
      OutputReadsBack(quote, own, rs[..n]);
      BrokenFirst(quote, own, rs[n]);
      j := |stood|;
      DifferNext(stood, ReadBack(quote, own, rs[n]), [Expected(quote, own, rs[n])]);
    } else {
      j := BrokenSomewhere(quote, own, rs[..n]);
      DifferGrown(read, stood, j, ReadBack(quote, own, rs[n]), StandsFor(quote, own, rs[n]));
    }
  }

  /** The whole log reads back as the entries it stands for exactly when no enabled record is broken. */
  lemma {:induction false} OutputReadsBackExactly(quote: Quoter, own: seq<Attr>, rs: seq<Record>)
    requires AllValid(rs)
    ensures EventsOf(Lines(Output(quote, own, rs))) == EntriesFor(quote, own, rs) <==> AllOneLine(quote, own, rs)
  {
    if AllOneLine(quote, own, rs) {
      OutputReadsBack(quote, own, rs);
    } else {
      var j := BrokenSomewhere(quote, own, rs);
    }
  }

  /** Writes a log through the handler. */
  method WriteLog(h: ConsoleHandler, rs: seq<Record>)
    requires AllValid(rs) && h.showTime && h.written == ""
    modifies h
    ensures h.written == Output(h.quote, h.attrs, rs)
  {
    for i := 0 to |rs|
      invariant h.written == Output(h.quote, h.attrs, rs[..i])
    {
      assert rs[..i + 1][..i] == rs[..i];
      h.Handle(rs[i]);
    }
    assert rs[..|rs|] == rs;
  }

  /**
   The log end to end: write the records, read the file back with a minimum
   rank and a count, and get exactly the last n enabled records of at least
   that rank, in order, with their time, level name and trimmed text.
   */
  method WriteThenRead(h: ConsoleHandler, rs: seq<Record>, min: int, n: int)
    returns (r: Result<seq<Entry>, HistoryError>)
    requires AllValid(rs) && AllOneLine(h.quote, h.attrs, rs)
    requires h.showTime && h.written == "" && 0 <= n <= MAX_HISTORY_ENTRIES
    modifies h
    ensures r == Success(LastN(AtLeast(EntriesFor(h.quote, h.attrs, rs), min), n))
  {
    WriteLog(h, rs);
    OutputReadsBack(h.quote, h.attrs, rs);
    r := ReadLog(h.written, EntriesFor(h.quote, h.attrs, rs), min, n);
  }

  method ReadLog(file: string, ghost entries: seq<Entry>, min: int, n: int) returns (r: Result<seq<Entry>, HistoryError>)
    requires EventsOf(Lines(file)) == entries && 0 <= n <= MAX_HISTORY_ENTRIES
    ensures r == Success(LastN(AtLeast(entries, min), n))
  {
    var lines := Lines(file);
    r := ReadRecentEvents(lines, false, min, n);
    if n == 0 {
      assert LastN(AtLeast(entries, min), 0) == [];
    }
  }

  // ----- history's own output ------------------------------------------------------------------

  lemma ParsedShape(line: string)
    requires ParseEvent(line).Some? && '\n' !in line
    ensures Shaped(ParseEvent(line).value)
  {
    TrimNewlinesFree(line);
    var tail := Cut(line, ' ').value.1;
    var rest := Cut(tail, ' ').value.1;
    assert forall c <- rest :: c in tail;
    assert forall c <- tail :: c in line;
    var i, j := TrimSpaceSplits(rest);
    TrimIdempotent(rest);
  }

  lemma {:induction false} LevelStable(level: string)
    requires RankOf(level).Some?
    ensures ToUpper(TrimSpace(level)) == level && ' ' !in level && '\n' !in level
    ensures Pad5(level) == level + LevelGap(level)
  {
    LevelPlain(level);
    TrimTrimmed(level);
    LevelPads(level);
  }

  lemma LevelPlain(level: string)
    requires RankOf(level).Some?
    ensures Trimmed(level) && ToUpper(level) == level && ' ' !in level && '\n' !in level
  {
    assert ToUpper(level) == level;
  }

  lemma {:induction false} LevelPads(level: string)
    requires RankOf(level).Some?
    ensures Pad5(level) == level + LevelGap(level)
  {
  }

  /** An entry as the parser makes them from a line. */
  predicate Shaped(e: Entry) {
    && IsClock(e.time) && ' ' !in e.time && '\n' !in e.time
    && RankOf(e.level) == Some(e.rank) && '\n' !in e.rest && TrimSpace(e.rest) == e.rest
  }

  lemma PaddedFields(e: Entry)
    requires RankOf(e.level).Some?
    ensures RenderLine(e) == e.time + " " + (e.level + " " + (LevelGap(e.level) + e.rest))
  {
    LevelStable(e.level);
    FieldsJoined(e.time, e.level, LevelGap(e.level), e.rest);
    assert Pad5(e.level) + " " == e.level + " " + LevelGap(e.level);
  }

  lemma PaddedParses(e: Entry)
    requires Shaped(e)
    ensures ParseEvent(RenderLine(e)) == Some(e)
  {
    LevelStable(e.level);
    PaddedFields(e);
    ParsePadded(e.time, e.level, LevelGap(e.level), e.rest);
  }

  /** An entry is printed as its event was logged, but for blanks around its text. */
  lemma ReprintsLine(r: Record, text: string)
    requires r.time.Valid() && r.level >= 0
    ensures RenderLine(EntryFor(r.time, r.level, text)) == Prefix(true, r) + TrimSpace(text)
  {
    var e := EntryFor(r.time, r.level, text);
    LevelNameStable(r.level);
    LevelPads(e.level);
    LevelPadded(r.level);
    Reprinted(e.time, e.level, LevelGap(e.level), e.rest);
  }

  lemma Reprinted(clock: string, name: string, gap: string, text: string)
    ensures clock + " " + (name + gap) + " " + text == clock + " " + (name + " " + gap) + text || gap !in {"", " "}
  {
    if gap == " " {
      assert name + gap + " " == name + " " + gap;
    }
  }

  /** Everything RenderEntries writes without colour. */
  function Rendered(entries: seq<Entry>): string {
    if entries == [] then "" else Rendered(entries[..|entries| - 1]) + (RenderLine(entries[|entries| - 1]) + "\n")
  }

  method RenderEntries(entries: seq<Entry>) returns (out: string)
    ensures out == Rendered(entries)
  {
    out := "";
    for i := 0 to |entries|
      invariant out == Rendered(entries[..i])
    {
      assert entries[..i + 1][..i] == entries[..i];
      out := out + (RenderLine(entries[i]) + "\n");
    }
    assert entries[..|entries|] == entries;
  }

  lemma RenderLineUncut(e: Entry)
    requires Shaped(e)
    ensures '\n' !in RenderLine(e) && DropCR(RenderLine(e)) == RenderLine(e)
  {
    LevelStable(e.level);
    TrimmedEnd(e.rest);
    JoinedUncut(e.time, Pad5(e.level), e.rest);
  }

  lemma JoinedUncut(a: string, b: string, rest: string)
    requires '\n' !in a && '\n' !in b && '\n' !in rest && (rest == "" || rest[|rest| - 1] != '\r')
    ensures '\n' !in a + " " + b + " " + rest && DropCR(a + " " + b + " " + rest) == a + " " + b + " " + rest
  {
    EndKept(a + " " + b + " ", rest);
  }

  lemma TrimmedEnd(s: string)
    requires TrimSpace(s) == s
    ensures s == "" || s[|s| - 1] != '\r'
  {
    var i, j := TrimSpaceSplits(s);
  }

  lemma EndKept(head: string, rest: string)
    requires head != "" && head[|head| - 1] == ' ' && (rest == "" || rest[|rest| - 1] != '\r')
    ensures DropCR(head + rest) == head + rest
  {
    var s := head + rest;
    assert s[|s| - 1] == if rest == "" then head[|head| - 1] else rest[|rest| - 1];
  }

  lemma RenderLineReadsBack(e: Entry)
    requires Shaped(e)
    ensures EventsOf(Lines(RenderLine(e) + "\n")) == [e]
  {
    var line := RenderLine(e);
    RenderLineUncut(e);
    LinesOfTerminated(line);
    SplitFree(line, '\n');
    assert DropCRs([line]) == [line];
    PaddedParses(e);
    SingleEvent(line, e);
  }

  predicate Terminated(s: string) {
    s == "" || s[|s| - 1] == '\n'
  }

  lemma LineTerminated(head: string, line: string)
    ensures Terminated(head + (line + "\n"))
  {
    var s := head + (line + "\n");
    assert s[|s| - 1] == (line + "\n")[|line|];
  }

  lemma {:induction false} RenderedTerminated(entries: seq<Entry>)
    ensures Terminated(Rendered(entries))
  {
    if entries != [] {
      LineTerminated(Rendered(entries[..|entries| - 1]), RenderLine(entries[|entries| - 1]));
    }
  }

  lemma AppendLine(entries: seq<Entry>, head: string, e: Entry)
    requires Terminated(head) && Shaped(e) && EventsOf(Lines(head)) == entries
    ensures EventsOf(Lines(head + (RenderLine(e) + "\n"))) == entries + [e]
  {
    EventsOfAppended(head, RenderLine(e) + "\n");
    RenderLineReadsBack(e);
  }

  lemma {:induction false} RenderedSnoc(init: seq<Entry>, e: Entry)
    requires Shaped(e) && EventsOf(Lines(Rendered(init))) == init
    ensures EventsOf(Lines(Rendered(init + [e]))) == init + [e]
  {
    assert (init + [e])[..|init|] == init;
    RenderedTerminated(init);
    AppendLine(init, Rendered(init), e);
  }

  lemma {:induction false} SnocInduction(holds: seq<Entry> -> bool, ok: Entry -> bool, entries: seq<Entry>)
    requires holds([]) && forall init, e :: holds(init) && ok(e) ==> holds(init + [e])
    requires forall e <- entries :: ok(e)
    ensures holds(entries)
  {
    if entries != [] {
      var n := |entries| - 1;
      SnocInduction(holds, ok, entries[..n]);
      assert holds(entries[..n] + [entries[n]]) && entries[..n] + [entries[n]] == entries;
    }
  }

  /** What history prints without colour reads back as the very entries it printed. */
  lemma {:induction false} RenderedReadsBack(entries: seq<Entry>)
    requires forall e <- entries :: Shaped(e)
    ensures EventsOf(Lines(Rendered(entries))) == entries
  {
    var holds := es => EventsOf(Lines(Rendered(es))) == es;
    forall init, e | holds(init) && Shaped(e) ensures holds(init + [e]) {
      RenderedSnoc(init, e);
    }
    SnocInduction(holds, Shaped, entries);
  }

  lemma {:induction false} EventsShaped(lines: seq<string>)
    requires forall l <- lines :: '\n' !in l
    ensures forall e <- EventsOf(lines) :: Shaped(e)
  {
    if lines != [] {
      var n := |lines| - 1;
      EventsShaped(lines[..n]);
      if ParseEvent(lines[n]).Some? {
        ParsedShape(lines[n]);
      }
    }
  }

  lemma AtLeastFrom(entries: seq<Entry>, min: int)
    ensures forall e <- AtLeast(entries, min) :: e in entries
  {
    forall e <- AtLeast(entries, min) ensures e in entries {
      PickIn(entries, (x: Entry) => x.rank >= min, e);
    }
  }

  lemma LinesUnbroken(file: string)
    ensures forall l <- Lines(file) :: '\n' !in l
  {
    var parts := Split(file, '\n');
    JoinSplit(file, '\n');
    forall i | 0 <= i < |Lines(file)| ensures '\n' !in Lines(file)[i] {
      assert Lines(file)[i] == DropCR(parts[i]) && parts[i] in parts;
    }
  }

  /**
   What `history` prints of a file without colour, whatever the file, parses
   back to the very entries it printed.
   */
  lemma {:induction false} HistoryReadsBack(file: string, min: int, n: nat)
    ensures var es := LastN(AtLeast(EventsOf(Lines(file)), min), n);
            EventsOf(Lines(Rendered(es))) == es
  {
    var events := EventsOf(Lines(file));
    LinesUnbroken(file);
    EventsShaped(Lines(file));
    AtLeastFrom(events, min);
    RenderedReadsBack(LastN(AtLeast(events, min), n));
  }

  /** The history command without colour, from the file to its output. */
  method PrintHistory(file: string, min: int, n: int) returns (r: Result<string, HistoryError>)
    ensures r.Success? <==> 0 <= n <= MAX_HISTORY_ENTRIES
    ensures r.Success? ==> EventsOf(Lines(r.value)) == LastN(AtLeast(EventsOf(Lines(file)), min), n)
  {
    var entries := ReadRecentEvents(Lines(file), false, min, n);
    if entries.Failure? {
      return Failure(entries.error);
    }
    var out := RenderEntries(entries.value);
    HistoryReadsBack(file, min, n);
    return Success(out);
  }
}
