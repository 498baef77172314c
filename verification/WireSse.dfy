/** The shared SSE writer and reader: printing events and reading them back line by line. */
module WireSse {
  import opened Common

  datatype Event = Event(event: string, id: string, data: string)

  /** The scanner's limit on one line together with its newline. */
  const MAX_LINE := 65536

  predicate Has(s: string, c: char) { exists i :: 0 <= i < |s| && s[i] == c }

  // ---------------------------------------------------------------------- writing

  function Field(name: string, value: string): string { if value == "" then "" else name + value + "\n" }

  function Printed(e: Event): string {
    Field("event: ", e.event) + Field("id: ", e.id) + "data: " + e.data + "\n\n"
  }

  function PrintedAll(es: seq<Event>): string {
    if es == [] then "" else Printed(es[0]) + PrintedAll(es[1..])
  }

  // ---------------------------------------------------------------------- reading

  /** One carriage return before the newline belongs to the line ending. */
  function DropCr(s: string): string { if s != [] && s[|s| - 1] == '\r' then s[..|s| - 1] else s }

  /** A scanned line and the rest of the input, the end of input, or a line too long to buffer. */
  datatype Scanned = Line(text: string, rest: string) | AtEnd | TooLong

  function ScanLine(s: string): (r: Scanned)
    ensures r.Line? ==> |r.rest| < |s| && !Has(r.text, '\n')
  {
    if s == [] then AtEnd
    else
      var i := LineEnd(s);
      if i < |s| && i < MAX_LINE then Line(DropCr(s[..i]), s[i + 1..])
      else if |s| >= MAX_LINE then TooLong
      else Line(DropCr(s), [])
  }

  datatype ReadResult = Read(event: Event, rest: string) | Eof | ScanError

  const BLANK := Event("", "", "")

  /** What a non-empty line does to the event being read. */
  function Absorb(e: Event, line: string): Event {
    if "event: " <= line then e.(event := line[7..])
    else if "id: " <= line then e.(id := line[4..])
    else if "data: " <= line then e.(data := line[6..])
    else e
  }

  predicate Reportable(e: Event) { e.data != "" || e.event != "" }

  /** Reading from s with e under construction. */
  function ReadFrom(s: string, e: Event): (r: ReadResult)
    ensures r.Read? ==> |r.rest| <= |s| && Reportable(r.event)
    ensures r.Read? && !Reportable(e) ==> |r.rest| < |s|
    decreases |s|
  {
    match ScanLine(s)
    case AtEnd => if Reportable(e) then Read(e, []) else Eof
    case TooLong => ScanError
    case Line(text, rest) =>
      if text != "" then ReadFrom(rest, Absorb(e, text))
      else if Reportable(e) then Read(e, rest)
      else ReadFrom(rest, e)
  }

  /** Everything read until the input ends, and whether it ended without a scan error. */
  datatype Session = Session(events: seq<Event>, clean: bool)

  function ReadAll(s: string, e: Event): Session
    requires !Reportable(e)
    decreases |s|
  {
    match ReadFrom(s, e)
    case Eof => Session([], true)
    case ScanError => Session([], false)
    case Read(first, rest) =>
      var more := ReadAll(rest, BLANK);
      Session([first] + more.events, more.clean)
  }

  class SseWriter {
    var out: string

    constructor ()
      ensures out == ""
    {
      out := "";
    }

    method WriteEvent(ev: Event)
      modifies this
      ensures out == old(out) + Printed(ev)
      ensures ev.event != "" && ev.id != "" ==>
                Printed(ev) == "event: " + ev.event + "\nid: " + ev.id + "\ndata: " + ev.data + "\n\n"
    {
      ghost var start := out;
      ghost var a, b := Field("event: ", ev.event), Field("id: ", ev.id);
      if ev.event != "" { out := out + ("event: " + ev.event + "\n"); }
      assert out == start + a;
      if ev.id != "" { out := out + ("id: " + ev.id + "\n"); }
      assert out == start + a + b;
      out := out + ("data: " + ev.data + "\n\n");
      PrintedParts(start, ev);
    }
  }

  lemma {:induction false} PrintedParts(start: string, ev: Event)
    ensures start + Field("event: ", ev.event) + Field("id: ", ev.id) + ("data: " + ev.data + "\n\n") == start + Printed(ev)
  {
  }

  class SseReader {
    var input: string

    constructor (input: string)
      ensures this.input == input
    {
      this.input := input;
    }

    /** Reads lines until an event is complete or the input ends. */
    method ReadEvent() returns (r: ReadResult)
      modifies this
      ensures r == ReadFrom(old(input), BLANK)
      ensures r.Read? ==> input == r.rest
    {
      var ev := BLANK;
      while true
        invariant ReadFrom(old(input), BLANK) == ReadFrom(input, ev)
        decreases |input|
      {
        var scanned := ScanLine(input);
        match scanned
        case TooLong => return ScanError;
        case AtEnd =>
          input := [];
          if Reportable(ev) { return Read(ev, []); }
          return Eof;
        case Line(line, rest) =>
          input := rest;
          if line == "" {
            if Reportable(ev) { return Read(ev, rest); }
            continue;
          }
          ev := Absorb(ev, line);
      }
    }
  }

  // ------------------------------------------------------------------ reading one line

  predicate Short(line: string) { |line| < MAX_LINE }

  lemma {:induction false} ScanPrinted(line: string, t: string)
    requires !Has(line, '\n')
    ensures ScanLine(line + "\n" + t) == if Short(line) then Line(DropCr(line), t) else TooLong
  {
    var s := line + "\n" + t;
    assert s[|line|] == '\n';
    assert forall k | 0 <= k < |line| :: s[k] == line[k];
    assert LineEnd(s) == |line|;
    assert s[..|line|] == line && s[|line| + 1..] == t;
  }

  /** How a printed field reads back. */
  function Trimmed(value: string): string { DropCr(value) }

  lemma {:induction false} DropCrField(name: string, value: string)
    requires name != "" && name[|name| - 1] != '\r'
    ensures DropCr(name + value) == name + Trimmed(value)
  {
    var s := name + value;
    if value == [] {
      assert s == name;
    } else {
      assert s[|s| - 1] == value[|value| - 1];
      if value[|value| - 1] == '\r' { assert s[..|s| - 1] == name + value[..|value| - 1]; }
    }
  }

  lemma {:induction false} NoNewlineConcat(name: string, value: string)
    requires !Has(name, '\n') && !Has(value, '\n')
    ensures !Has(name + value, '\n')
  {
    var s := name + value;
    forall i | 0 <= i < |s| ensures s[i] != '\n' {
      if i < |name| { assert s[i] == name[i]; } else { assert s[i] == value[i - |name|]; }
    }
  }

  predicate IsName(name: string) { name == "event: " || name == "id: " || name == "data: " }

  function WithField(e: Event, name: string, value: string): Event
    requires IsName(name)
  {
    if name == "event: " then e.(event := value) else if name == "id: " then e.(id := value) else e.(data := value)
  }

  lemma {:induction false} AbsorbNamed(e: Event, name: string, value: string)
    requires IsName(name)
    ensures Absorb(e, name + value) == WithField(e, name, value) && name + value != ""
  {
    var line := name + value;
    assert line[..|name|] == name && line[|name|..] == value;
    assert line[0] == name[0];
    if name == "event: " { assert "event: " <= line && line[7..] == value; }
    else if name == "id: " { assert line[0] == 'i'; assert "id: " <= line && line[4..] == value; }
    else { assert line[0] == 'd'; assert "data: " <= line && line[6..] == value; }
  }

  /** One printed field line, read with e under construction. */
  lemma {:induction false} ReadField(name: string, value: string, t: string, e: Event)
    requires IsName(name) && !Has(value, '\n')
    ensures ReadFrom(name + value + "\n" + t, e) ==
            if Short(name + value) then ReadFrom(t, WithField(e, name, Trimmed(value))) else ScanError
  {
    NameFacts(name);
    NoNewlineConcat(name, value);
    ScanPrinted(name + value, t);
    DropCrField(name, value);
    AbsorbNamed(e, name, Trimmed(value));
  }

  lemma {:induction false} NameFacts(name: string)
    requires IsName(name)
    ensures name != "" && name[|name| - 1] == ' ' && !Has(name, '\n')
  {
  }

  lemma {:induction false} ReadBlank(t: string, e: Event)
    ensures ReadFrom("\n" + t, e) == if Reportable(e) then Read(e, t) else ReadFrom(t, e)
  {
    var s := "\n" + t;
    assert s[0] == '\n' && LineEnd(s) == 0;
    assert s[..0] == "" && s[1..] == t;
    assert ScanLine(s) == Line("", t);
  }

  // ---------------------------------------------------------------- reading one event

  predicate OneLine(e: Event) { !Has(e.event, '\n') && !Has(e.id, '\n') && !Has(e.data, '\n') }

  predicate LinesShort(e: Event) {
    && (e.event != "" ==> Short("event: " + e.event))
    && (e.id != "" ==> Short("id: " + e.id))
    && Short("data: " + e.data)
  }

  /** What reading a printed event leaves, starting with only an id left over from before. */
  function AsRead(e: Event, leftover: string): Event {
    Event(Trimmed(e.event), if e.id == "" then leftover else Trimmed(e.id), Trimmed(e.data))
  }

  lemma {:induction false} ReadOptional(name: string, value: string, t: string, e: Event)
    requires IsName(name) && !Has(value, '\n')
    ensures ReadFrom(Field(name, value) + t, e) ==
            if value == "" then ReadFrom(t, e)
            else if Short(name + value) then ReadFrom(t, WithField(e, name, Trimmed(value)))
            else ScanError
  {
    if value == "" {
      assert Field(name, value) + t == t;
    } else {
      assert Field(name, value) + t == name + value + "\n" + t;
      ReadField(name, value, t, e);
    }
  }

  lemma {:induction false} ReadPrinted(e: Event, t: string, leftover: string)
    requires OneLine(e)
    ensures ReadFrom(Printed(e) + t, Event("", leftover, "")) ==
            if !LinesShort(e) then ScanError
            else if Reportable(AsRead(e, leftover)) then Read(AsRead(e, leftover), t)
            else ReadFrom(t, AsRead(e, leftover))
  {
    var start := Event("", leftover, "");
    var tail := "data: " + e.data + "\n" + ("\n" + t);
    PrintedSplit(e, t);
    ReadOptional("event: ", e.event, Field("id: ", e.id) + tail, start);
    var withEvent := start.(event := Trimmed(e.event));
    ReadOptional("id: ", e.id, tail, withEvent);
    var withId := withEvent.(id := if e.id == "" then leftover else Trimmed(e.id));
    ReadField("data: ", e.data, "\n" + t, withId);
    ReadBlank(t, AsRead(e, leftover));
  }

  lemma {:induction false} PrintedSplit(e: Event, t: string)
    ensures Printed(e) + t == Field("event: ", e.event) + (Field("id: ", e.id) + ("data: " + e.data + "\n" + ("\n" + t)))
  {
  }

  // ------------------------------------------------------------------------ round trip

  predicate EndsInCr(s: string) { s != "" && s[|s| - 1] == '\r' }

  /** An event the reader gives back as it was written. */
  predicate Fits(e: Event) {
    && Reportable(e)
    && OneLine(e)
    && !EndsInCr(e.event) && !EndsInCr(e.id) && !EndsInCr(e.data)
    && LinesShort(e)
  }

  /** Nothing a reader returns contains a newline. */
  lemma {:induction false} ReadFromOneLine(s: string, e: Event)
    requires OneLine(e)
    ensures ReadFrom(s, e).Read? ==> OneLine(ReadFrom(s, e).event)
    decreases |s|
  {
    var r := ScanLine(s);
    if r.Line? {
      if r.text != "" {
        AbsorbOneLine(e, r.text);
        ReadFromOneLine(r.rest, Absorb(e, r.text));
      } else if !Reportable(e) {
        ReadFromOneLine(r.rest, e);
      }
    }
  }

  lemma {:induction false} AbsorbOneLine(e: Event, line: string)
    requires OneLine(e) && !Has(line, '\n')
    ensures OneLine(Absorb(e, line))
  {
    forall n | 0 <= n <= |line| ensures !Has(line[n..], '\n') {
      assert forall i | 0 <= i < |line[n..]| :: line[n..][i] == line[n + i];
    }
  }

  lemma {:induction false} ReadAllOneLine(s: string, e: Event)
    requires !Reportable(e) && OneLine(e)
    ensures forall x | x in ReadAll(s, e).events :: OneLine(x)
    decreases |s|
  {
    ReadFromOneLine(s, e);
    var r := ReadFrom(s, e);
    if r.Read? { ReadAllOneLine(r.rest, BLANK); }
  }

  /** Events without newlines read back as at most as many events as were written. */
  lemma {:induction false} ReadAtMost(es: seq<Event>, leftover: string)
    requires forall e | e in es :: OneLine(e)
    ensures |ReadAll(PrintedAll(es), Event("", leftover, "")).events| <= |es|
    decreases |es|
  {
    if es != [] {
      var v := AsRead(es[0], leftover);
      ReadPrinted(es[0], PrintedAll(es[1..]), leftover);
      if LinesShort(es[0]) {
        if Reportable(v) {
          ReadAtMost(es[1..], "");
        } else {
          assert v == Event("", v.id, "");
          ReadAtMost(es[1..], v.id);
        }
      }
    }
  }

  lemma {:induction false} TrimmedSame(s: string)
    ensures Trimmed(s) == s <==> !EndsInCr(s)
  {
  }

  lemma {:induction false} FitsIff(e: Event)
    requires OneLine(e)
    ensures Fits(e) <==> LinesShort(e) && Reportable(AsRead(e, "")) && AsRead(e, "") == e
  {
    TrimmedSame(e.event);
    TrimmedSame(e.id);
    TrimmedSame(e.data);
  }

  lemma {:induction false} SameCons(v: Event, vs: seq<Event>, e: Event, es: seq<Event>)
    ensures [v] + vs == [e] + es <==> v == e && vs == es
  {
    if [v] + vs == [e] + es {
      assert v == ([v] + vs)[0] && vs == ([v] + vs)[1..];
      assert e == ([e] + es)[0] && es == ([e] + es)[1..];
    }
  }

  /** What a session that starts with one printed event reads. */
  lemma {:induction false} ReadFirst(e: Event, t: string)
    requires OneLine(e)
    ensures var v, more := AsRead(e, ""), ReadAll(t, BLANK);
            && (Reportable(v) || v == Event("", v.id, ""))
            && ReadAll(Printed(e) + t, BLANK) ==
               if !LinesShort(e) then Session([], false)
               else if Reportable(v) then Session([v] + more.events, more.clean)
               else ReadAll(t, v)
  {
    ReadPrinted(e, t, "");
  }

  lemma {:induction false} RoundTripStep(e: Event, t: string, es: seq<Event>)
    requires OneLine(e) && |ReadAll(t, Event("", AsRead(e, "").id, "")).events| <= |es|
    ensures ReadAll(Printed(e) + t, BLANK) == Session([e] + es, true) <==>
            Fits(e) && ReadAll(t, BLANK) == Session(es, true)
  {
    FitsIff(e);
    ReadFirst(e, t);
    SameCons(AsRead(e, ""), ReadAll(t, BLANK).events, e, es);
  }

  lemma {:induction false} RoundTripOneLine(es: seq<Event>)
    requires forall e | e in es :: OneLine(e)
    ensures ReadAll(PrintedAll(es), BLANK) == Session(es, true) <==> forall e | e in es :: Fits(e)
    decreases |es|
  {
    if es != [] {
      ReadAtMost(es[1..], AsRead(es[0], "").id);
      RoundTripStep(es[0], PrintedAll(es[1..]), es[1..]);
      RoundTripOneLine(es[1..]);
      assert es == [es[0]] + es[1..];
    }
  }

  /** Reading back what was written gives the same events iff every one of them fits. */
  lemma {:induction false} RoundTripIff(es: seq<Event>)
    ensures ReadAll(PrintedAll(es), BLANK) == Session(es, true) <==> forall e | e in es :: Fits(e)
  {
    if forall e | e in es :: OneLine(e) {
      RoundTripOneLine(es);
    } else {
      ReadAllOneLine(PrintedAll(es), BLANK);
    }
  }

  /** Data with a newline loses everything after it. */
  lemma {:induction false} NewlineLosesData()
    ensures ReadAll(Printed(Event("", "", "a\nb")), BLANK) == Session([Event("", "", "a")], true)
  {
    assert Printed(Event("", "", "a\nb")) == "data: " + "a" + "\n" + "b\n\n";
    ReadField("data: ", "a", "b\n\n", BLANK);
    ReadStray(Event("", "", "a"));
  }

  /** A line that names no field is skipped. */
  lemma {:induction false} ReadStray(e: Event)
    requires Reportable(e)
    ensures ReadFrom("b\n\n", e) == Read(e, "")
  {
    assert "b\n\n" == "b" + "\n" + "\n";
    ScanPrinted("b", "\n");
    assert Absorb(e, "b") == e by { assert "b"[0] == 'b'; }
    assert "\n" == "\n" + "";
    ReadBlank("", e);
  }

  /** A data line the input ends with, without a newline, is read iff it fits the scanner's buffer. */
  lemma {:induction false} UnterminatedDataIff(x: string)
    requires x != "" && !Has(x, '\n') && x[|x| - 1] != '\r'
    ensures ReadFrom("data: " + x, BLANK) == Read(Event("", "", x), "") <==> |x| < 65530
    ensures |x| >= 65530 ==> ReadFrom("data: " + x, BLANK) == ScanError
  {
    var s := "data: " + x;
    assert forall i | 0 <= i < |s| :: s[i] == if i < 6 then "data: "[i] else x[i - 6];
    assert LineEnd(s) == |s|;
    assert DropCr(s) == s && s[6..] == x;
    if |s| < MAX_LINE {
      assert ScanLine(s) == Line(s, []);
      assert s[0] == 'd';
      assert Absorb(BLANK, s) == Event("", "", x);
      assert ReadFrom([], Event("", "", x)) == Read(Event("", "", x), []);
    }
  }
}
