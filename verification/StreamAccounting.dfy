/** The gateway's side of a stream: provider bytes forwarded line by line while usage is folded up. */
module StreamAccounting {
  import opened Common
  import opened Config
  import opened SseFrames
  import Cost

  // ------------------------------------------------------------------ line reading

  /** Lines from position k on with their newline; an unterminated rest is a line of its own. */
  function RawLines(s: Bytes, k: nat := 0): seq<Bytes>
    requires k <= |s|
    decreases |s| - k
  {
    if k == |s| then []
    else
      var i := LineEnd(s, k);
      if i == |s| then [s[k..]] else [s[k..i + 1]] + RawLines(s, i + 1)
  }

  /** No newline before position n. */
  ghost predicate Unbroken(s: Bytes, n: nat) {
    forall k | 0 <= k < n && k < |s| :: s[k] != '\n'
  }

  /** line is the first line of all, with its newline when there is one, and rest is what follows. */
  ghost predicate Splits(all: Bytes, line: Bytes, rest: Bytes, terminated: bool) {
    && all == line + rest
    && (if terminated then line != [] && line[|line| - 1] == '\n' && Unbroken(line, |line| - 1)
        else rest == [] && Unbroken(line, |line|))
  }

  /** A newline that is already buffered ends the first line, whatever is still to come. */
  lemma {:induction false} CutLine(buf: Bytes, more: Bytes)
    requires LineEnd(buf) < |buf|
    ensures var n := LineEnd(buf) + 1; Splits(buf + more, buf[..n], buf[n..] + more, true)
  {
    var n := LineEnd(buf) + 1;
    assert buf + more == buf[..n] + (buf[n..] + more);
  }

  lemma {:induction false} UncutLine(buf: Bytes)
    requires LineEnd(buf) == |buf|
    ensures Splits(buf + [], buf, [] + [], false)
  {
  }

  /** A buffered reader over a stream whose final error, once met, is met again on every read. */
  class LineReader {
    const script: Script
    var next: nat
    var buf: Bytes
    var ended: Option<Status>

    constructor (script: Script)
      ensures Valid() && Unread() == Delivered(script) && Last() == Terminal(script)
    {
      this.script, next, buf, ended := script, 0, [], None;
      new;
      assert [] + Delivered(script) == Delivered(script);
    }

    ghost predicate Valid()
      reads this
    {
      next <= |script| && (ended.Some? ==> ended.value != Going)
    }

    ghost function Pending(): Bytes
      requires Valid()
      reads this
    {
      if ended.Some? then [] else Delivered(script, next)
    }

    ghost function Unread(): Bytes
      requires Valid()
      reads this
    {
      buf + Pending()
    }

    ghost function Last(): Status
      requires Valid()
      reads this
    {
      if ended.Some? then ended.value else Terminal(script, next)
    }

    /** One more read into the buffer; it moves bytes and loses none. */
    method Fill()
      requires Valid() && ended.None?
      modifies this
      ensures Valid() && Unread() == old(Unread()) && Last() == old(Last())
      ensures ended.Some? || next > old(next)
    {
      FillFacts(buf, script, next);
      if next == |script| {
        ended := Some(Eof);
      } else {
        buf := buf + script[next].data;
        if script[next].status != Going { ended := Some(script[next].status); }
        next := next + 1;
      }
    }

    /** Bytes up to and including the next newline, or all that is left with the final error. */
    method ReadLine() returns (line: Bytes, err: Status)
      requires Valid()
      modifies this
      ensures Valid() && Last() == old(Last())
      ensures Splits(old(Unread()), line, Unread(), err == Going)
      ensures err == Going || err == Last()
    {
      while LineEnd(buf) == |buf| && ended.None?
        invariant Valid() && Unread() == old(Unread()) && Last() == old(Last())
        decreases ended.None?, |script| - next
      {
        Fill();
      }
      var i := LineEnd(buf);
      if i < |buf| {
        CutLine(buf, Pending());
        line, err, buf := buf[..i + 1], Going, buf[i + 1..];
      } else {
        UncutLine(buf);
        line, err, buf := buf, ended.value, [];
      }
    }
  }

  lemma {:induction false} FillFacts(buf: Bytes, script: Script, k: nat)
    requires k <= |script|
    ensures k == |script| ==> buf + Delivered(script, k) == buf + []
    ensures k < |script| ==>
              buf + Delivered(script, k) ==
              buf + script[k].data + (if script[k].status == Going then Delivered(script, k + 1) else [])
  {
  }

  // --------------------------------------------------------------- line to event

  function TrimRight(s: Bytes): (r: Bytes)
    ensures r <= s
  {
    if s != [] && (s[|s| - 1] == '\r' || s[|s| - 1] == '\n') then TrimRight(s[..|s| - 1]) else s
  }

  predicate IsEventLine(t: Bytes) { "event: " <= t }

  /** The event name in force after these lines: the last event line since the last blank one. */
  function CurrentEvent(lines: seq<Bytes>): string {
    if lines == [] then ""
    else
      var n := |lines| - 1;
      var t := TrimRight(lines[n]);
      if t == "" then "" else if IsEventLine(t) then t[7..] else CurrentEvent(lines[..n])
  }

  datatype Observation = Observation(event: string, data: string)

  /** The data lines, each with the event it belongs to. */
  function Observations(lines: seq<Bytes>): seq<Observation> {
    if lines == [] then []
    else
      var n := |lines| - 1;
      var t := TrimRight(lines[n]);
      Observations(lines[..n]) +
      (if IsDataLine(t) then [Observation(CurrentEvent(lines[..n]), t[6..])] else [])
  }

  /** The line is blank or begins with the event prefix. */
  predicate SetsEvent(line: Bytes) {
    var t := TrimRight(line);
    t == "" || (|t| >= 7 && t[..7] == "event: ")
  }

  /** The last event line names the event in force, unless a blank line came after it. */
  lemma {:induction false} EventInForce(lines: seq<Bytes>, k: nat)
    requires k < |lines| && SetsEvent(lines[k]) && forall i | k < i < |lines| :: !SetsEvent(lines[i])
    ensures var t := TrimRight(lines[k]); CurrentEvent(lines) == if t == "" then "" else t[7..]
    decreases |lines|
  {
    var n := |lines| - 1;
    if k < n { EventInForce(lines[..n], k); }
  }

  /** Line k is a data line with this text, under the event then in force. */
  ghost predicate DataAt(lines: seq<Bytes>, k: nat, o: Observation) {
    k < |lines| && TrimRight(lines[k]) == "data: " + o.data && o.event == CurrentEvent(lines[..k])
  }

  /** Exactly the data lines are observed, each under the event in force before it. */
  lemma {:induction false} ObservedIff(lines: seq<Bytes>, o: Observation)
    ensures o in Observations(lines) <==> exists k :: DataAt(lines, k, o)
    decreases |lines|
  {
    hide *;
    if lines == [] {
      NoneObserved(o);
    } else {
      var n := |lines| - 1;
      ObservedIff(lines[..n], o);
      ObservedLast(lines, o);
      if k: nat :| DataAt(lines[..n], k, o) { DataBelow(lines[..n], k, o); SameData(lines, n, k, o); }
      if k: nat :| DataAt(lines, k, o) { DataBelow(lines, k, o); if k < n { SameData(lines, n, k, o); } }
    }
  }

  lemma {:induction false} NoneObserved(o: Observation)
    ensures o !in Observations([]) && !exists k :: DataAt([], k, o)
  {
  }

  lemma {:induction false} DataBelow(lines: seq<Bytes>, k: nat, o: Observation)
    requires DataAt(lines, k, o)
    ensures k < |lines|
  {
  }

  lemma {:induction false} SameData(lines: seq<Bytes>, n: nat, k: nat, o: Observation)
    requires k < n <= |lines|
    ensures DataAt(lines[..n], k, o) <==> DataAt(lines, k, o)
  {
    assert lines[..n][..k] == lines[..k];
  }

  lemma {:induction false} ObservedLast(lines: seq<Bytes>, o: Observation)
    requires lines != []
    ensures o in Observations(lines) <==> o in Observations(lines[..|lines| - 1]) || DataAt(lines, |lines| - 1, o)
  {
    LastDataLine(TrimRight(lines[|lines| - 1]), o.data);
  }

  lemma {:induction false} LastDataLine(t: Bytes, x: string)
    ensures t == "data: " + x <==> IsDataLine(t) && t[6..] == x
  {
    if IsDataLine(t) { assert t == t[..6] + t[6..] && t[..6] == "data: "; }
  }

  // ------------------------------------------------------------------ accumulation

  datatype StartUsage = StartUsage(input: int, output: int, cacheRead: Option<int>, cacheCreate: Option<int>)

  /** JSON decoding of the three payloads that can carry usage; None when absent or malformed. */
  datatype Decoder = Decoder(
    start: string -> Option<StartUsage>, delta: string -> Option<int>, chunk: string -> Option<(int, int)>)

  datatype Accumulator = Accumulator(usage: Cost.Usage, hasUsage: bool)

  const EMPTY := Accumulator(Cost.Usage(0, 0, 0, 0), false)

  predicate Anthropic(wire: string) { wire == "anthropic" || wire == "anthropic_compat" }
  predicate OpenAI(wire: string) { wire == "openai" || wire == "openai_compat" }

  function Or(x: Option<int>, fallback: int): int { if x.Some? then x.value else fallback }

  /** What one data line does to the accumulator. */
  function Handle(acc: Accumulator, o: Observation, wire: string, d: Decoder): Accumulator {
    if Anthropic(wire) then
      if o.event == "message_start" then
        var u := d.start(o.data);
        if u.None? then acc
        else Accumulator(Cost.Usage(u.value.input, u.value.output,
                                    Or(u.value.cacheRead, acc.usage.cacheRead),
                                    Or(u.value.cacheCreate, acc.usage.cacheCreate)), true)
      else if o.event == "message_delta" then
        var out := d.delta(o.data);
        if out.None? then acc else Accumulator(acc.usage.(output := out.value), true)
      else acc
    else if OpenAI(wire) then
      var c := d.chunk(o.data);
      if c.None? then acc else Accumulator(acc.usage.(input := c.value.0, output := c.value.1), true)
    else acc
  }

  function Folded(os: seq<Observation>, wire: string, d: Decoder): Accumulator {
    if os == [] then EMPTY else Handle(Folded(os[..|os| - 1], wire, d), os[|os| - 1], wire, d)
  }

  lemma {:induction false} SeenStep(seen: seq<Bytes>, line: Bytes)
    ensures var t := TrimRight(line);
            && CurrentEvent(seen + [line]) ==
               (if t == "" then "" else if IsEventLine(t) then t[7..] else CurrentEvent(seen))
            && Observations(seen + [line]) ==
               Observations(seen) + (if IsDataLine(t) then [Observation(CurrentEvent(seen), t[6..])] else [])
            && (IsDataLine(t) ==> t != "" && !IsEventLine(t))
  {
    assert (seen + [line])[..|seen|] == seen;
    var t := TrimRight(line);
    if IsDataLine(t) { assert t[0] == 'd'; }
  }

  lemma {:induction false} FoldStep(os: seq<Observation>, o: Observation, wire: string, d: Decoder)
    ensures Folded(os + [o], wire, d) == Handle(Folded(os, wire, d), o, wire, d)
  {
    assert (os + [o])[..|os|] == os;
  }

  /** event and acc are what the loop holds after these lines. */
  ghost predicate Tracks(lines: seq<Bytes>, event: string, acc: Accumulator, wire: string, d: Decoder) {
    event == CurrentEvent(lines) && acc == Folded(Observations(lines), wire, d)
  }

  lemma {:induction false} TrackStep(seen: seq<Bytes>, line: Bytes, event: string, acc: Accumulator, wire: string, d: Decoder)
    requires Tracks(seen, event, acc, wire, d)
    ensures var t, lines := TrimRight(line), seen + [line];
            if t == "" then Tracks(lines, "", acc, wire, d)
            else if IsEventLine(t) then Tracks(lines, t[7..], acc, wire, d)
            else if IsDataLine(t) then Tracks(lines, event, Handle(acc, Observation(event, t[6..]), wire, d), wire, d)
            else Tracks(lines, event, acc, wire, d)
  {
    var t := TrimRight(line);
    SeenStep(seen, line);
    assert Observations(seen) + [] == Observations(seen);
    if IsDataLine(t) { FoldStep(Observations(seen), Observation(event, t[6..]), wire, d); }
  }

  /** written went out, rest is unread, seen are the lines gone by. */
  ghost predicate Passed(all: Bytes, written: Bytes, rest: Bytes, seen: seq<Bytes>) {
    all == written + rest && RawLines(all) == seen + RawLines(all, |written|) && written == Flatten(seen)
  }

  lemma {:induction false} Between(a: Bytes, line: Bytes, b: Bytes)
    ensures a + (line + b) == a + line + b
    ensures (a + line + b)[|a|..|a + line|] == line
    ensures forall i | |a| <= i < |a + line| :: (a + line + b)[i] == line[i - |a|]
    ensures b == [] ==> (a + line + b)[|a|..] == line
  {
  }

  lemma {:induction false} TerminatedLine(s: Bytes, k: nat, n: nat)
    requires k < n <= |s| && s[n - 1] == '\n' && forall i | k <= i < n - 1 :: s[i] != '\n'
    ensures RawLines(s, k) == [s[k..n]] + RawLines(s, n)
  {
    LineEndIs(s, k, n - 1);
  }

  lemma {:induction false} LineEndIs(s: Bytes, k: nat, i: nat)
    requires k <= i < |s| && s[i] == '\n' && forall j | k <= j < i :: s[j] != '\n'
    ensures LineEnd(s, k) == i
  {
  }

  lemma {:induction false} UnterminatedLine(s: Bytes, k: nat)
    requires k < |s| && forall i | k <= i < |s| :: s[i] != '\n'
    ensures RawLines(s, k) == [s[k..]]
  {
    assert LineEnd(s, k) == |s|;
  }

  lemma {:induction false} SplitsAt(written: Bytes, line: Bytes, rest: Bytes, terminated: bool)
    requires line != [] && Splits(line + rest, line, rest, terminated)
    ensures RawLines(written + line + rest, |written|) == [line] + RawLines(written + line + rest, |written + line|)
  {
    Between(written, line, rest);
    if terminated {
      TerminatedLine(written + line + rest, |written|, |written + line|);
    } else {
      UnterminatedLine(written + line + rest, |written|);
    }
  }

  lemma {:induction false} Shift(lines: seq<Bytes>, seen: seq<Bytes>, now: seq<Bytes>, line: Bytes, later: seq<Bytes>)
    requires lines == seen + now && now == [line] + later
    ensures lines == seen + [line] + later
  {
  }

  lemma {:induction false} FlattenAppend(a: seq<Bytes>, x: Bytes)
    ensures Flatten(a + [x]) == Flatten(a) + x
    decreases |a|
  {
    if a == [] {
      assert Flatten([x]) == x + [] && a + [x] == [x];
    } else {
      FlattenAppend(a[1..], x);
      assert (a + [x])[1..] == a[1..] + [x];
    }
  }

  lemma {:induction false} PassLine(all: Bytes, written: Bytes, rest: Bytes, seen: seq<Bytes>, line: Bytes, rest': Bytes, terminated: bool)
    requires line != [] && Passed(all, written, rest, seen) && Splits(rest, line, rest', terminated)
    ensures Passed(all, written + line, rest', seen + [line])
  {
    Between(written, line, rest');
    SplitsAt(written, line, rest', terminated);
    Shift(RawLines(all), seen, RawLines(all, |written|), line, RawLines(all, |written + line|));
    FlattenAppend(seen, line);
  }

  lemma {:induction false} AllPassed(all: Bytes, written: Bytes, seen: seq<Bytes>)
    requires Passed(all, written, [], seen)
    ensures written == all && seen == RawLines(all)
  {
    assert written + [] == written;
    assert seen + [] == seen;
  }

  /** One forwarded line; skip when the loop goes straight to the next read. */
  method DigestLine(line: Bytes, event: string, acc: Accumulator, wire: string, d: Decoder, ghost seen: seq<Bytes>)
    returns (event': string, acc': Accumulator, skip: bool)
    requires Tracks(seen, event, acc, wire, d)
    ensures Tracks(seen + [line], event', acc', wire, d)
  {
    TrackStep(seen, line, event, acc, wire, d);
    var text := TrimRight(line);
    if text == "" { return "", acc, true; }
    if IsEventLine(text) { return text[7..], acc, true; }
    if IsDataLine(text) { return event, Handle(acc, Observation(event, text[6..]), wire, d), false; }
    return event, acc, false;
  }

  /** How many of these lines a client takes that closes after so many writes, if it closes. */
  function Taken(lines: seq<Bytes>, accepts: Option<nat>): (n: nat)
    ensures n <= |lines|
  {
    if accepts.Some? && accepts.value < |lines| then accepts.value else |lines|
  }

  /** What forwarding a stream of these bytes to such a client comes to. */
  ghost predicate Forwarded(all: Bytes, accepts: Option<nat>, wire: string, d: Decoder,
                            written: Bytes, acc: Accumulator, writes: nat) {
    var lines := RawLines(all);
    && writes == Taken(lines, accepts)
    && written == Flatten(lines[..writes])
    && acc == Folded(Observations(lines[..writes]), wire, d)
    && (writes == |lines| ==> written == all)
  }

  lemma {:induction false} ForwardedPart(all: Bytes, accepts: Option<nat>, wire: string, d: Decoder,
                       written: Bytes, acc: Accumulator, rest: Bytes, seen: seq<Bytes>, event: string)
    requires Passed(all, written, rest, seen) && Tracks(seen, event, acc, wire, d)
    requires rest != [] && accepts == Some(|seen|)
    ensures Forwarded(all, accepts, wire, d, written, acc, |seen|) && |seen| < |RawLines(all)|
  {
    assert RawLines(all)[..|seen|] == seen;
  }

  lemma {:induction false} ForwardedAll(all: Bytes, accepts: Option<nat>, wire: string, d: Decoder,
                      written: Bytes, acc: Accumulator, seen: seq<Bytes>, event: string)
    requires Passed(all, written, [], seen) && Tracks(seen, event, acc, wire, d)
    requires accepts.Some? ==> |seen| <= accepts.value
    ensures Forwarded(all, accepts, wire, d, written, acc, |seen|) && |seen| == |RawLines(all)|
  {
    AllPassed(all, written, seen);
    assert seen[..|seen|] == seen;
  }

  lemma {:induction false} NothingYet(all: Bytes, wire: string, d: Decoder)
    ensures Passed(all, [], all, []) && Tracks([], "", EMPTY, wire, d)
  {
    assert [] + all == all && [] + RawLines(all) == RawLines(all);
  }

  /** Forwards line by line until the stream ends or a write fails, and returns how it ended. */
  method ForwardFrames(src: LineReader, wire: string, d: Decoder, accepts: Option<nat>)
    returns (written: Bytes, acc: Accumulator, end: Status, writes: nat)
    requires src.Valid()
    modifies src
    ensures Forwarded(old(src.Unread()), accepts, wire, d, written, acc, writes)
    ensures end == if writes == |RawLines(old(src.Unread()))| then old(src.Last()) else Failed
  {
    hide Passed, Tracks, Forwarded, RawLines, Unbroken, Handle;
    var currentEvent := "";
    written, acc, writes := [], EMPTY, 0;
    ghost var all, seen := src.Unread(), [];
    NothingYet(all, wire, d);
    while true
      invariant src.Valid() && src.Last() == old(src.Last())
      invariant Passed(all, written, src.Unread(), seen)
      invariant Tracks(seen, currentEvent, acc, wire, d)
      invariant writes == |seen| && (accepts.Some? ==> writes <= accepts.value)
      decreases |src.Unread()|
    {
      ghost var rest := src.Unread();
      var line, err := src.ReadLine();
      if |line| > 0 {
        if accepts.Some? && writes == accepts.value {
          ForwardedPart(all, accepts, wire, d, written, acc, rest, seen, currentEvent);
          return written, acc, Failed, writes;
        }
        PassLine(all, written, rest, seen, line, src.Unread(), err == Going);
        written, writes := written + line, writes + 1;
        var skip;
        currentEvent, acc, skip := DigestLine(line, currentEvent, acc, wire, d, seen);
        seen := seen + [line];
        if skip { continue; }
      }
      if err != Going {
        ForwardedAll(all, accepts, wire, d, written, acc, seen, currentEvent);
        return written, acc, err, writes;
      }
    }
  }

  // --------------------------------------------------------- what the fold records

  /** The line carries usage the handler recognises. */
  predicate Carries(o: Observation, wire: string, d: Decoder) {
    || ((wire == "anthropic" || wire == "anthropic_compat") && o.event == "message_start" && d.start(o.data).Some?)
    || ((wire == "anthropic" || wire == "anthropic_compat") && o.event == "message_delta" && d.delta(o.data).Some?)
    || ((wire == "openai" || wire == "openai_compat") && d.chunk(o.data).Some?)
  }

  /** It also states the input tokens; a delta does not. */
  predicate CarriesInput(o: Observation, wire: string, d: Decoder) {
    Carries(o, wire, d) && !(Anthropic(wire) && o.event == "message_delta")
  }

  function StatedOutput(o: Observation, wire: string, d: Decoder): int
    requires Carries(o, wire, d)
  {
    if !Anthropic(wire) then d.chunk(o.data).value.1
    else if o.event == "message_start" then d.start(o.data).value.output
    else d.delta(o.data).value
  }

  function StatedInput(o: Observation, wire: string, d: Decoder): int
    requires CarriesInput(o, wire, d)
  {
    if Anthropic(wire) then d.start(o.data).value.input else d.chunk(o.data).value.0
  }

  /** Usage was seen iff some data line carried it; otherwise every count is zero. */
  lemma {:induction false} HasUsageIff(os: seq<Observation>, wire: string, d: Decoder)
    ensures Folded(os, wire, d).hasUsage <==> exists k :: 0 <= k < |os| && Carries(os[k], wire, d)
    ensures !Folded(os, wire, d).hasUsage ==> Folded(os, wire, d) == EMPTY
    decreases |os|
  {
    if os != [] {
      var n := |os| - 1;
      HasUsageIff(os[..n], wire, d);
      if k :| 0 <= k < |os[..n]| && Carries(os[..n][k], wire, d) { assert Carries(os[k], wire, d); }
      if k :| 0 <= k < |os| && Carries(os[k], wire, d) && k < n { assert Carries(os[..n][k], wire, d); }
    }
  }

  /** It also states one of the cache counts; only a start can. */
  predicate CarriesCache(o: Observation, wire: string, d: Decoder, created: bool) {
    Anthropic(wire) && o.event == "message_start" && d.start(o.data).Some?
    && (if created then d.start(o.data).value.cacheCreate else d.start(o.data).value.cacheRead).Some?
  }

  function StatedCache(o: Observation, wire: string, d: Decoder, created: bool): int
    requires CarriesCache(o, wire, d, created)
  {
    (if created then d.start(o.data).value.cacheCreate else d.start(o.data).value.cacheRead).value
  }

  function CacheCount(u: Cost.Usage, created: bool): int { if created then u.cacheCreate else u.cacheRead }

  /** Without a start that states a cache count the count is zero ... */
  lemma {:induction false} NoCacheCount(os: seq<Observation>, wire: string, d: Decoder, created: bool)
    requires forall i | 0 <= i < |os| :: !CarriesCache(os[i], wire, d, created)
    ensures CacheCount(Folded(os, wire, d).usage, created) == 0
    decreases |os|
  {
    if os != [] {
      var n := |os| - 1;
      NoCacheCount(os[..n], wire, d, created);
      CacheStep(Folded(os[..n], wire, d), os[n], wire, d, created);
    }
  }

  /** ... and otherwise the last start that states it decides it. */
  lemma {:induction false} LastCacheWins(os: seq<Observation>, wire: string, d: Decoder, created: bool, k: nat)
    requires k < |os| && CarriesCache(os[k], wire, d, created)
    requires forall i | k < i < |os| :: !CarriesCache(os[i], wire, d, created)
    ensures CacheCount(Folded(os, wire, d).usage, created) == StatedCache(os[k], wire, d, created)
    decreases |os|
  {
    var n := |os| - 1;
    CacheStep(Folded(os[..n], wire, d), os[n], wire, d, created);
    if k < n { LastCacheWins(os[..n], wire, d, created, k); }
  }

  lemma {:induction false} CacheStep(acc: Accumulator, o: Observation, wire: string, d: Decoder, created: bool)
    ensures CacheCount(Handle(acc, o, wire, d).usage, created) ==
            if CarriesCache(o, wire, d, created) then StatedCache(o, wire, d, created) else CacheCount(acc.usage, created)
  {
  }

  /** The last line that states a count decides it: output counts are cumulative. */
  lemma {:induction false} LastStatedWins(os: seq<Observation>, wire: string, d: Decoder, k: nat)
    requires k < |os|
    ensures Carries(os[k], wire, d) && (forall i | k < i < |os| :: !Carries(os[i], wire, d)) ==>
              Folded(os, wire, d).usage.output == StatedOutput(os[k], wire, d)
    ensures CarriesInput(os[k], wire, d) && (forall i | k < i < |os| :: !CarriesInput(os[i], wire, d)) ==>
              Folded(os, wire, d).usage.input == StatedInput(os[k], wire, d)
    decreases |os|
  {
    var n := |os| - 1;
    if k < n {
      LastStatedWins(os[..n], wire, d, k);
      assert forall i | 0 <= i < n :: os[..n][i] == os[i];
    }
  }

  // ------------------------------------------------------- signs of what is charged

  /** Text that can stand on one data line. */
  predicate DataText(x: string) {
    (forall i | 0 <= i < |x| :: x[i] != '\n') && (x != [] ==> x[|x| - 1] != '\r')
  }

  predicate NotBelow(x: Option<int>) { x.Some? ==> x.value >= 0 }

  /** No line of this text gives a negative count on this wire. */
  predicate TextNonNegative(wire: string, d: Decoder, x: string) {
    if Anthropic(wire) then
      && (d.start(x).Some? ==>
            var u := d.start(x).value; u.input >= 0 && u.output >= 0 && NotBelow(u.cacheRead) && NotBelow(u.cacheCreate))
      && NotBelow(d.delta(x))
    else OpenAI(wire) && d.chunk(x).Some? ==> d.chunk(x).value.0 >= 0 && d.chunk(x).value.1 >= 0
  }

  /** Every count the handler can decode on this wire is non-negative. */
  ghost predicate DecodesNonNegative(wire: string, d: Decoder) {
    forall x | DataText(x) :: TextNonNegative(wire, d, x)
  }

  lemma {:induction false} FoldedNonNegative(os: seq<Observation>, wire: string, d: Decoder)
    requires forall o | o in os :: TextNonNegative(wire, d, o.data)
    ensures Cost.NonNegativeUsage(Folded(os, wire, d).usage)
    decreases |os|
  {
    if os != [] {
      FoldedNonNegative(os[..|os| - 1], wire, d);
      assert TextNonNegative(wire, d, os[|os| - 1].data);
    }
  }

  /** A line holds a newline at its end or nowhere. */
  predicate LineShape(l: Bytes) { forall i | 0 <= i < |l| - 1 :: l[i] != '\n' }

  lemma {:induction false} RawLinesShape(s: Bytes, k: nat)
    requires k <= |s|
    ensures forall l | l in RawLines(s, k) :: LineShape(l)
    decreases |s| - k
  {
    if k < |s| {
      var i := LineEnd(s, k);
      if i < |s| { RawLinesShape(s, i + 1); }
    }
  }

  lemma {:induction false} TrimEnds(s: Bytes)
    ensures var t := TrimRight(s); t != [] ==> t[|t| - 1] != '\r' && t[|t| - 1] != '\n'
    decreases |s|
  {
    if s != [] && (s[|s| - 1] == '\r' || s[|s| - 1] == '\n') { TrimEnds(s[..|s| - 1]); }
  }

  lemma {:induction false} TrimShape(l: Bytes)
    requires LineShape(l)
    ensures DataText(TrimRight(l))
  {
    TrimEnds(l);
    var t := TrimRight(l);
    forall i | 0 <= i < |t| ensures t[i] != '\n' {
      if i < |t| - 1 { assert t[i] == l[i]; }
    }
  }

  lemma {:induction false} ObservationsShape(lines: seq<Bytes>)
    requires forall l | l in lines :: LineShape(l)
    ensures forall o | o in Observations(lines) :: DataText(o.data)
    decreases |lines|
  {
    if lines != [] {
      var n := |lines| - 1;
      ObservationsShape(lines[..n]);
      TrimShape(lines[n]);
      var t := TrimRight(lines[n]);
      if IsDataLine(t) { assert forall i | 0 <= i < |t[6..]| :: t[6..][i] == t[i + 6]; }
    }
  }

  /** The charge for a stream of these bytes. */
  function ChargeFor(body: Bytes, wire: string, d: Decoder, pricing: PricingConfig, vendor: string, model: string): int {
    Cost.Calculate(Some(pricing), vendor, model, Folded(Observations(RawLines(body)), wire, d).usage).total
  }

  /** Some stream on this wire, priced by an accepted table, is charged c cents. */
  ghost predicate Charges(wire: string, d: Decoder, c: int) {
    exists body: Bytes, pricing: PricingConfig, vendor: string, model: string ::
      PricingValid(pricing) && ChargeFor(body, wire, d, pricing, vendor, model) == c
  }

  lemma {:induction false} ChargeForNonNegative(body: Bytes, wire: string, d: Decoder, pricing: PricingConfig, vendor: string, model: string)
    requires DecodesNonNegative(wire, d) && PricingValid(pricing)
    ensures ChargeFor(body, wire, d, pricing, vendor, model) >= 0
  {
    RawLinesShape(body, 0);
    ObservationsShape(RawLines(body));
    FoldedNonNegative(Observations(RawLines(body)), wire, d);
    Cost.ChargeNonNegative(pricing, vendor, model, Folded(Observations(RawLines(body)), wire, d).usage);
  }

  /** Per stream: no accepted table charges it a negative amount iff none of its counts is negative. */
  lemma {:induction false} ChargeNonNegativeIff(body: Bytes, wire: string, d: Decoder)
    ensures (forall pricing: PricingConfig, vendor: string, model: string | PricingValid(pricing) ::
               ChargeFor(body, wire, d, pricing, vendor, model) >= 0)
            <==> Cost.NonNegativeUsage(Folded(Observations(RawLines(body)), wire, d).usage)
  {
    var u := Folded(Observations(RawLines(body)), wire, d).usage;
    if Cost.NonNegativeUsage(u) {
      forall pricing: PricingConfig, vendor: string, model: string | PricingValid(pricing)
        ensures ChargeFor(body, wire, d, pricing, vendor, model) >= 0
      {
        Cost.ChargeNonNegative(pricing, vendor, model, u);
      }
    } else {
      var row := Cost.NegativeBucket(u);
      assert Lookup([row], "v", "m") == Some(row);
      assert PricingValid(PricingConfig([row]));
      assert ChargeFor(body, wire, d, PricingConfig([row]), "v", "m") < 0;
    }
  }

  lemma {:induction false} TrimNewline(l: Bytes)
    requires l != [] && l[|l| - 1] != '\r' && l[|l| - 1] != '\n'
    ensures TrimRight(l + "\n") == l
  {
    assert (l + "\n")[..|l|] == l;
  }

  /** A one-event stream is observed as that event's data. */
  lemma {:induction false} OneEvent(name: string, x: string)
    requires name == "message_start" || name == "message_delta"
    requires DataText(x)
    ensures Observations(RawLines(("event: " + name + "\n") + ("data: " + x + "\n"))) == [Observation(name, x)]
  {
    var h, g := "event: " + name, "data: " + x;
    TwoLines(h, g);
    EventLine(name);
    DataLine(x);
    ObservedPair(h + "\n", g + "\n", name, x);
  }

  lemma {:induction false} ObservedPair(a: Bytes, b: Bytes, name: string, x: string)
    requires var t := TrimRight(a); t != "" && IsEventLine(t) && !IsDataLine(t) && t[7..] == name
    requires var t := TrimRight(b); IsDataLine(t) && t[6..] == x
    ensures Observations([a, b]) == [Observation(name, x)]
  {
    SeenStep([], a);
    SeenStep([a], b);
    assert [] + [a] == [a] && [a] + [b] == [a, b];
  }

  lemma {:induction false} EventLine(name: string)
    requires name == "message_start" || name == "message_delta"
    ensures var h := "event: " + name; TrimRight(h + "\n") == h && IsEventLine(h) && !IsDataLine(h) && h[7..] == name && h != ""
  {
    var h := "event: " + name;
    TrimNewline(h);
    assert h[0] == 'e';
  }

  lemma {:induction false} DataLine(x: string)
    requires DataText(x)
    ensures var g := "data: " + x; TrimRight(g + "\n") == g && IsDataLine(g) && g[6..] == x
  {
    TrimNewline("data: " + x);
  }

  lemma {:induction false} TwoLines(h: Bytes, g: Bytes)
    requires Unbroken(h, |h|) && Unbroken(g, |g|)
    ensures RawLines((h + "\n") + (g + "\n")) == [h + "\n", g + "\n"]
  {
    var a, b := h + "\n", g + "\n";
    SplitsAt([], a, b, true);
    assert [] + a + b == a + b;
    SplitsAt(a, b, [], true);
    assert a + b + [] == a + b;
  }

  lemma {:induction false} NegativeCharged(wire: string, d: Decoder, x: string, name: string) returns (c: int)
    requires DataText(x) && (name == "message_start" || name == "message_delta")
    requires !Cost.NonNegativeUsage(Handle(EMPTY, Observation(name, x), wire, d).usage)
    ensures c < 0 && Charges(wire, d, c)
  {
    OneEvent(name, x);
    var o := Observation(name, x);
    FoldStep([], o, wire, d);
    assert [] + [o] == [o];
    c := NegativeBody(("event: " + name + "\n") + ("data: " + x + "\n"), wire, d);
  }

  lemma {:induction false} NegativeBody(body: Bytes, wire: string, d: Decoder) returns (c: int)
    requires !Cost.NonNegativeUsage(Folded(Observations(RawLines(body)), wire, d).usage)
    ensures c < 0 && Charges(wire, d, c)
  {
    var u := Folded(Observations(RawLines(body)), wire, d).usage;
    var row := Cost.NegativeBucket(u);
    assert Lookup([row], "v", "m") == Some(row);
    assert PricingValid(PricingConfig([row]));
    c := ChargeFor(body, wire, d, PricingConfig([row]), "v", "m");
  }

  /** No stream is charged a negative amount iff no count the provider can state decodes to a negative one. */
  lemma {:induction false} ChargesNonNegativeIff(wire: string, d: Decoder)
    ensures (forall c | Charges(wire, d, c) :: c >= 0) <==> DecodesNonNegative(wire, d)
  {
    if DecodesNonNegative(wire, d) {
      forall c | Charges(wire, d, c) ensures c >= 0 {
        var body: Bytes, pricing: PricingConfig, vendor: string, model: string :|
          PricingValid(pricing) && ChargeFor(body, wire, d, pricing, vendor, model) == c;
        ChargeForNonNegative(body, wire, d, pricing, vendor, model);
      }
    } else {
      var x :| DataText(x) && !TextNonNegative(wire, d, x);
      var name := if Anthropic(wire) && NotBelow(d.delta(x)) then "message_start" else "message_delta";
      var c := NegativeCharged(wire, d, x, name);
    }
  }

  // ---------------------------------------------------------------------- a stream

  /** What a request needs for accounting; the two printers give the injected JSON payloads. */
  datatype StreamConfig = StreamConfig(
    wire: string, decoder: Decoder, pricing: Option<PricingConfig>, vendorId: string, model: string,
    printUsage: (Cost.Usage, Cost.Charge) -> Bytes, printError: Cost.Usage -> Bytes)

  datatype AccountingResult = AccountingResult(
    usage: Cost.Usage, charge: Cost.Charge, errorClass: string, interrupted: bool)

  /** What the settlement hook does with the request's budget reservation. */
  datatype Settlement = ReleaseIt | CommitIt(cents: int)

  function UsageFrame(payload: Bytes): Bytes { "event: aicg.usage\ndata: " + payload }
  function ErrorFrame(payload: Bytes): Bytes { "event: aicg.error\ndata: " + payload }

  function Settle(r: AccountingResult): Settlement {
    if r.interrupted then ReleaseIt else CommitIt(r.charge.total)
  }

  /**
   A stream is committed iff every line of it was taken and it did not fail, and then for what the
   usage folded over all of its lines costs; otherwise its reservation is released.
   */
  ghost predicate Settles(all: Bytes, last: Status, accepts: Option<nat>, cfg: StreamConfig, settle: Settlement) {
    var usage := Folded(Observations(RawLines(all)), cfg.wire, cfg.decoder).usage;
    && (settle.CommitIt? <==> (accepts.Some? ==> |RawLines(all)| <= accepts.value) && last != Failed)
    && (settle.CommitIt? ==> settle.cents == Cost.Calculate(cfg.pricing, cfg.vendorId, cfg.model, usage).total)
  }

  lemma {:induction false} SettleSettles(all: Bytes, last: Status, accepts: Option<nat>, cfg: StreamConfig, r: AccountingResult)
    requires var lines := RawLines(all); var n := Taken(lines, accepts);
             && r.interrupted == (n < |lines| || last == Failed)
             && (n == |lines| ==>
                   var usage := Folded(Observations(lines), cfg.wire, cfg.decoder).usage;
                   r.charge.total == Cost.Calculate(cfg.pricing, cfg.vendorId, cfg.model, usage).total)
    ensures Settles(all, last, accepts, cfg, Settle(r))
  {
  }

  /**
   Drains a provider stream: forwards it, appends one gateway frame and settles the budget once. A
   client that closes after so many writes makes the next write fail, which counts as an interruption.
   */
  method RunStream(src: LineReader, cfg: StreamConfig, accepts: Option<nat>)
    returns (sent: Bytes, result: AccountingResult, settle: Settlement)
    requires src.Valid()
    modifies src
    ensures var lines := RawLines(old(src.Unread())); var n := Taken(lines, accepts);
            var acc := Folded(Observations(lines[..n]), cfg.wire, cfg.decoder);
            var charge := Cost.Calculate(cfg.pricing, cfg.vendorId, cfg.model, acc.usage);
            && result.usage == acc.usage
            && result.interrupted == (n < |lines| || old(src.Last()) == Failed)
            && result.charge == (if !result.interrupted && acc.hasUsage then charge else charge.(source := "estimated"))
            && result.errorClass == (if result.interrupted then "stream_interrupted" else if acc.hasUsage then "" else "usage_missing")
            && Settles(old(src.Unread()), old(src.Last()), accepts, cfg, settle)
            && (n == |lines| ==> Flatten(lines[..n]) == old(src.Unread()))
            && sent == Flatten(lines[..n]) + Tail(cfg, result, accepts.Some? && accepts.value <= |lines|)
  {
    ghost var all := src.Unread();
    var written, acc, end, writes := ForwardFrames(src, cfg.wire, cfg.decoder, accepts);
    var charge := Cost.Calculate(cfg.pricing, cfg.vendorId, cfg.model, acc.usage);
    var closed := accepts.Some? && accepts.value == writes;
    if end == Failed {
      charge := charge.(source := "estimated");
      result := AccountingResult(acc.usage, charge, "stream_interrupted", true);
      settle := Settle(result);
      sent := written + Tail(cfg, result, closed);
    } else {
      if !acc.hasUsage { charge := charge.(source := "estimated"); }
      result := AccountingResult(acc.usage, charge, if acc.hasUsage then "" else "usage_missing", false);
      sent := written + Tail(cfg, result, closed);
      settle := Settle(result);
    }
    assert RawLines(all)[..|RawLines(all)|] == RawLines(all);
    SettleSettles(all, old(src.Last()), accepts, cfg, result);
  }

  /** The injected frame as far as it gets: nothing once the client is gone. */
  function Tail(cfg: StreamConfig, r: AccountingResult, closed: bool): Bytes {
    if closed then []
    else (if r.interrupted then ErrorFrame(cfg.printError(r.usage)) else UsageFrame(cfg.printUsage(r.usage, r.charge))) + "\n\n"
  }
}
