/** The local proxy's relay: provider frames pass through, gateway frames are consumed or translated. */
module Relay {
  import opened Common
  import opened SseFrames

  const GATEWAY := "event: aicg."

  predicate IsGatewayFrame(f: Bytes) { GATEWAY <= f }
  predicate IsUsageFrame(f: Bytes) { "event: aicg.usage" <= f }
  predicate IsErrorFrame(f: Bytes) { "event: aicg.error" <= f }

  // ---------------------------------------------------------------- frame payloads

  predicate NoNewline(s: Bytes) { forall i | 0 <= i < |s| :: s[i] != '\n' }

  /** The pieces between newlines. */
  function Lines(s: Bytes): (r: seq<Bytes>)
    ensures |r| > 0
  {
    if s == [] then [[]]
    else
      var rest := Lines(s[1..]);
      if s[0] == '\n' then [[]] + rest else [[s[0]] + rest[0]] + rest[1..]
  }

  function Payload(l: Bytes): seq<Bytes> { if IsDataLine(l) then [l[6..]] else [] }

  function Payloads(lines: seq<Bytes>): seq<Bytes> {
    if lines == [] then [] else Payload(lines[0]) + Payloads(lines[1..])
  }

  datatype ErrorInfo = ErrorInfo(message: string, traceId: string)

  /** The proxy's JSON: decoding error and usage payloads, and printing the error it shows the client. */
  datatype Json = Json(
    decodeError: Bytes -> Option<ErrorInfo>, usageDecodes: Bytes -> bool, printError: string -> Bytes)

  ghost predicate PrintsOneLine(j: Json) { forall msg :: NoNewline(j.printError(msg)) && j.printError(msg) != [] }

  function ErrorMessage(e: ErrorInfo): string {
    if e.traceId == "" then (if e.message == "" then "gateway stream error" else e.message)
    else if e.message != "" then e.message + " (trace_id: " + e.traceId + ")"
    else "trace_id: " + e.traceId
  }

  ghost predicate StandsAt(s: string, part: string, i: nat) { i + |part| <= |s| && s[i..i + |part|] == part }

  /** part stands somewhere in s. */
  ghost predicate Holds(s: string, part: string) { exists i :: StandsAt(s, part, i) }

  lemma {:induction false} HoldsMiddle(a: string, part: string, b: string)
    ensures Holds(a + part + b, part)
  {
    assert StandsAt(a + part + b, part, |a|);
  }

  /** The client's text holds the gateway's message and the trace id, and is never empty. */
  lemma {:induction false} MessageHolds(e: ErrorInfo)
    ensures Holds(ErrorMessage(e), e.message) && Holds(ErrorMessage(e), e.traceId) && ErrorMessage(e) != ""
  {
    hide Holds;
    var text, m, id := ErrorMessage(e), e.message, e.traceId;
    if m == "" {
      HoldsMiddle("", m, text);
      assert "" + m + text == text;
    } else {
      var rest := if id == "" then "" else " (trace_id: " + id + ")";
      HoldsMiddle("", m, rest);
      assert "" + m + rest == m + rest == text;
    }
    if id == "" {
      HoldsMiddle("", id, text);
      assert "" + id + text == text;
    } else {
      var head, rest := if m == "" then "trace_id: " else m + " (trace_id: ", if m == "" then "" else ")";
      HoldsMiddle(head, id, rest);
      assert head + id + rest == text;
    }
  }

  function LastDecoded(payloads: seq<Bytes>, j: Json): ErrorInfo {
    if payloads == [] then ErrorInfo("", "")
    else
      var n := |payloads| - 1;
      var d := j.decodeError(payloads[n]);
      if d.Some? then d.value else LastDecoded(payloads[..n], j)
  }

  /** The client's version of a gateway error frame: the last payload that decodes wins. */
  function TranslatedError(f: Bytes, j: Json): Bytes {
    "event: error\ndata: " + j.printError(ErrorMessage(LastDecoded(Payloads(Lines(f)), j)))
  }

  lemma {:induction false} PayloadsAppend(a: seq<Bytes>, b: seq<Bytes>)
    ensures Payloads(a + b) == Payloads(a) + Payloads(b)
    decreases |a|
  {
    if a == [] {
      assert a + b == b;
    } else {
      hide *;
      PayloadsAppend(a[1..], b);
      PayloadsStep(a);
      PayloadsStep(a + b);
      TailAppend(a, b);
      assert Payload(a[0]) + (Payloads(a[1..]) + Payloads(b)) == Payload(a[0]) + Payloads(a[1..]) + Payloads(b);
    }
  }

  lemma {:induction false} PayloadsStep(lines: seq<Bytes>)
    requires lines != []
    ensures Payloads(lines) == Payload(lines[0]) + Payloads(lines[1..])
  {
  }

  lemma {:induction false} DecodedStep(lines: seq<Bytes>, i: nat, j: Json)
    requires i < |lines|
    ensures LastDecoded(Payloads(lines[..i + 1]), j) ==
            if IsDataLine(lines[i]) && j.decodeError(lines[i][6..]).Some? then j.decodeError(lines[i][6..]).value
            else LastDecoded(Payloads(lines[..i]), j)
  {
    hide Payloads;
    var l, before := lines[i], Payloads(lines[..i]);
    assert lines[..i + 1] == lines[..i] + [l];
    PayloadsAppend(lines[..i], [l]);
    OnePayload(l);
    if IsDataLine(l) { assert (before + [l[6..]])[..|before|] == before; } else { assert before + [] == before; }
  }

  lemma {:induction false} OnePayload(l: Bytes)
    ensures Payloads([l]) == Payload(l)
  {
    PayloadsStep([l]);
    var none: seq<Bytes> := [];
    assert [l][1..] == none && Payloads(none) == [] && Payload(l) + [] == Payload(l);
  }

  method BuildErrorFrame(f: Bytes, j: Json) returns (out: Bytes)
    ensures out == TranslatedError(f, j)
  {
    var info := ErrorInfo("", "");
    var lines := Lines(f);
    for i := 0 to |lines|
      invariant info == LastDecoded(Payloads(lines[..i]), j)
    {
      DecodedStep(lines, i, j);
      if IsDataLine(lines[i]) {
        var d := j.decodeError(lines[i][6..]);
        if d.Some? { info := d.value; }
      }
    }
    assert lines[..|lines|] == lines;
    out := "event: error\ndata: " + j.printError(ErrorMessage(info));
  }

  // ------------------------------------------------------------------------ relay

  /** The frames the client sees. */
  ghost function ClientFrames(fs: seq<Bytes>, j: Json): seq<Bytes> {
    if fs == [] then []
    else if !IsGatewayFrame(fs[0]) then [fs[0]] + ClientFrames(fs[1..], j)
    else if IsUsageFrame(fs[0]) then ClientFrames(fs[1..], j)
    else if IsErrorFrame(fs[0]) then [TranslatedError(fs[0], j)]
    else ClientFrames(fs[1..], j)
  }

  /** What a usage frame records: the payload of its first data line, if it decodes. */
  function UsageRecord(f: Bytes, j: Json): seq<Bytes> {
    var ps := Payloads(Lines(f));
    if ps == [] || !j.usageDecodes(ps[0]) then [] else [ps[0]]
  }

  /** The payloads written to the local usage ledger. */
  ghost function LedgerRecords(fs: seq<Bytes>, j: Json): seq<Bytes> {
    if fs == [] then []
    else if IsUsageFrame(fs[0]) then UsageRecord(fs[0], j) + LedgerRecords(fs[1..], j)
    else if IsErrorFrame(fs[0]) then []
    else LedgerRecords(fs[1..], j)
  }

  /** Some frame is a gateway error, after which the relay stops. */
  ghost predicate Stops(fs: seq<Bytes>) { exists f :: f in fs && IsErrorFrame(f) }

  lemma {:induction false} RelayAppend(a: seq<Bytes>, b: seq<Bytes>, j: Json)
    ensures ClientFrames(a + b, j) == ClientFrames(a, j) + (if Stops(a) then [] else ClientFrames(b, j))
    ensures LedgerRecords(a + b, j) == LedgerRecords(a, j) + (if Stops(a) then [] else LedgerRecords(b, j))
  {
    ClientAppend(a, b, j);
    LedgerAppend(a, b, j);
  }

  lemma {:induction false} ClientAppend(a: seq<Bytes>, b: seq<Bytes>, j: Json)
    ensures ClientFrames(a + b, j) == ClientFrames(a, j) + (if Stops(a) then [] else ClientFrames(b, j))
    decreases |a|
  {
    if a == [] {
      assert a + b == b;
    } else {
      ClientAppend(a[1..], b, j);
      PrefixFacts(a[0]);
      StopsSplit(a);
      TailAppend(a, b);
    }
  }

  lemma {:induction false} LedgerAppend(a: seq<Bytes>, b: seq<Bytes>, j: Json)
    ensures LedgerRecords(a + b, j) == LedgerRecords(a, j) + (if Stops(a) then [] else LedgerRecords(b, j))
    decreases |a|
  {
    if a == [] {
      assert a + b == b;
    } else {
      LedgerAppend(a[1..], b, j);
      PrefixFacts(a[0]);
      StopsSplit(a);
      TailAppend(a, b);
    }
  }

  lemma {:induction false} TailAppend(a: seq<Bytes>, b: seq<Bytes>)
    requires a != []
    ensures (a + b)[0] == a[0] && (a + b)[1..] == a[1..] + b
  {
  }

  lemma {:induction false} StopsSplit(a: seq<Bytes>)
    requires a != []
    ensures Stops(a) <==> IsErrorFrame(a[0]) || Stops(a[1..])
  {
    assert a == [a[0]] + a[1..];
  }

  /** The frame has the client see something. */
  predicate Shows(f: Bytes) { !IsGatewayFrame(f) || IsErrorFrame(f) }

  function ShownAs(f: Bytes, j: Json): Bytes { if IsErrorFrame(f) then TranslatedError(f, j) else f }

  /** client, ledger and the number of writes are what the frames already handled, done, produced. */
  ghost predicate Relayed(all: seq<Bytes>, done: seq<Bytes>, rest: seq<Bytes>, client: Bytes, ledger: seq<Bytes>, writes: nat, j: Json) {
    && all == done + rest && !Stops(done)
    && client == Join(ClientFrames(done, j)) && ledger == LedgerRecords(done, j)
    && writes == 2 * |ClientFrames(done, j)|
  }

  /** After k writes, two per frame shown, frame n is the next one to show. */
  ghost predicate CutAt(all: seq<Bytes>, k: nat, n: int, j: Json) {
    0 <= n < |all| && !Stops(all[..n]) && Shows(all[n]) && |ClientFrames(all[..n], j)| == k / 2
  }

  /** What relaying these frames comes to, to a client that closes after so many writes, if it closes. */
  ghost predicate RelayedTo(all: seq<Bytes>, accepts: Option<nat>, client: Bytes, ledger: seq<Bytes>, j: Json) {
    var fs := ClientFrames(all, j);
    if accepts.Some? && accepts.value < 2 * |fs| then
      exists n ::
        && CutAt(all, accepts.value, n, j)
        && client == Join(ClientFrames(all[..n], j)) + (if accepts.value % 2 == 1 then ShownAs(all[n], j) else [])
        && ledger == LedgerRecords(all[..n], j)
    else client == Join(fs) && ledger == LedgerRecords(all, j)
  }

  lemma {:induction false} RelayedAll(all: seq<Bytes>, accepts: Option<nat>, done: seq<Bytes>, client: Bytes, ledger: seq<Bytes>, writes: nat, j: Json)
    requires Relayed(all, done, [], client, ledger, writes, j) && (accepts.Some? ==> writes <= accepts.value)
    ensures RelayedTo(all, accepts, client, ledger, j)
  {
    assert done + [] == done;
  }

  /** The client closed while frame f was due. */
  lemma {:induction false} RelayedPart(all: seq<Bytes>, done: seq<Bytes>, f: Bytes, rest: seq<Bytes>, k: nat,
                     client: Bytes, ledger: seq<Bytes>, writes: nat, j: Json)
    requires Relayed(all, done, [f] + rest, client, ledger, writes, j) && Shows(f) && writes <= k < writes + 2
    ensures RelayedTo(all, Some(k), if k == writes then client else client + ShownAs(f, j), ledger, j)
  {
    RelayAppend(done, [f] + rest, j);
    assert ClientFrames([f] + rest, j) != [] by { PrefixFacts(f); }
    assert all[..|done|] == done && all[|done|] == f;
    assert client + [] == client;
    assert CutAt(all, k, |done|, j);
  }

  lemma {:induction false} JoinLast(fs: seq<Bytes>, f: Bytes)
    ensures Join(fs + [f]) == Join(fs) + f + "\n\n"
  {
    JoinConcat(fs, [f]);
    JoinOne(f, []);
    assert [f] + [] == [f];
    assert f + "\n\n" + [] == f + "\n\n";
    Regroup(Join(fs), f);
  }

  lemma {:induction false} Regroup(a: Bytes, f: Bytes)
    ensures a + (f + "\n\n") == a + f + "\n\n"
  {
  }

  lemma {:induction false} SingleFrame(f: Bytes, j: Json)
    ensures ClientFrames([f], j) == (if Shows(f) then [ShownAs(f, j)] else [])
    ensures LedgerRecords([f], j) == (if IsUsageFrame(f) then UsageRecord(f, j) else [])
    ensures Stops([f]) <==> IsErrorFrame(f)
  {
    PrefixFacts(f);
    var none: seq<Bytes> := [];
    assert [f][1..] == none;
    assert LedgerRecords(none, j) == [] && UsageRecord(f, j) + [] == UsageRecord(f, j);
    assert f in [f];
  }

  /** Any frame that begins like a gateway error is shown translated, and nothing after it is relayed. */
  lemma {:induction false} ErrorEndsRelay(f: Bytes, rest: seq<Bytes>, j: Json)
    requires |f| >= 17 && f[..17] == "event: aicg.error"
    ensures ClientFrames([f] + rest, j) == [TranslatedError(f, j)] && LedgerRecords([f] + rest, j) == []
  {
    assert IsErrorFrame(f);
    PrefixFacts(f);
  }

  lemma {:induction false} RelayShown(all: seq<Bytes>, done: seq<Bytes>, f: Bytes, rest: seq<Bytes>, client: Bytes, ledger: seq<Bytes>, writes: nat, j: Json)
    requires Relayed(all, done, [f] + rest, client, ledger, writes, j) && !IsGatewayFrame(f)
    ensures Relayed(all, done + [f], rest, client + f + "\n\n", ledger, writes + 2, j)
  {
    RelayAppend(done, [f], j);
    SingleFrame(f, j);
    PrefixFacts(f);
    JoinLast(ClientFrames(done, j), f);
    assert done + ([f] + rest) == done + [f] + rest;
    assert LedgerRecords(done, j) + [] == LedgerRecords(done, j);
  }

  lemma {:induction false} RelayHidden(all: seq<Bytes>, done: seq<Bytes>, f: Bytes, rest: seq<Bytes>, client: Bytes, ledger: seq<Bytes>, writes: nat, j: Json)
    requires Relayed(all, done, [f] + rest, client, ledger, writes, j) && !Shows(f)
    ensures Relayed(all, done + [f], rest, client, if IsUsageFrame(f) then ledger + UsageRecord(f, j) else ledger, writes, j)
  {
    RelayAppend(done, [f], j);
    SingleFrame(f, j);
    assert done + ([f] + rest) == done + [f] + rest;
    assert ClientFrames(done, j) + [] == ClientFrames(done, j) && LedgerRecords(done, j) + [] == LedgerRecords(done, j);
  }

  /** A gateway error ends the relay. */
  lemma {:induction false} RelayStopped(all: seq<Bytes>, accepts: Option<nat>, done: seq<Bytes>, f: Bytes, rest: seq<Bytes>,
                      client: Bytes, ledger: seq<Bytes>, writes: nat, j: Json)
    requires Relayed(all, done, [f] + rest, client, ledger, writes, j) && IsErrorFrame(f)
    requires accepts.Some? ==> writes + 2 <= accepts.value
    ensures RelayedTo(all, accepts, client + TranslatedError(f, j) + "\n\n", ledger, j)
  {
    RelayAppend(done, [f] + rest, j);
    PrefixFacts(f);
    assert ClientFrames([f] + rest, j) == [TranslatedError(f, j)] && LedgerRecords([f] + rest, j) == [];
    JoinLast(ClientFrames(done, j), TranslatedError(f, j));
    assert LedgerRecords(done, j) + [] == LedgerRecords(done, j);
  }

  /** Two writes; closed when the client takes only the first or none of them. */
  method WriteFrame(frame: Bytes, client: Bytes, writes: nat, accepts: Option<nat>) returns (client': Bytes, closed: bool)
    requires accepts.Some? ==> writes <= accepts.value
    ensures closed <==> accepts.Some? && accepts.value < writes + 2
    ensures client' == if !closed then client + frame + "\n\n" else if accepts.value == writes then client else client + frame
  {
    if accepts.Some? && accepts.value == writes { return client, true; }
    client' := client + frame;
    if accepts.Some? && accepts.value == writes + 1 { return client', true; }
    return client' + "\n\n", false;
  }

  /** Frame by frame until the stream ends, fails, a write fails, or a gateway error has been translated. */
  method RelayStream(r: FrameReader, j: Json, accepts: Option<nat>) returns (client: Bytes, ledger: seq<Bytes>)
    modifies r
    ensures RelayedTo(old(r.Yield()), accepts, client, ledger, j)
  {
    client, ledger := [], [];
    var writes := 0;
    ghost var all, done: seq<Bytes> := r.Yield(), [];
    assert done + all == all;
    while true
      invariant Relayed(all, done, r.Yield(), client, ledger, writes, j)
      invariant accepts.Some? ==> writes <= accepts.value
      decreases |r.Yield()|
    {
      var next := r.NextFrame();
      if !next.Frame? {
        RelayedAll(all, accepts, done, client, ledger, writes, j);
        return;
      }
      var frame := next.frame;
      PrefixFacts(frame);
      if !IsGatewayFrame(frame) {
        var more, closed := WriteFrame(frame, client, writes, accepts);
        if closed {
          RelayedPart(all, done, frame, r.Yield(), accepts.value, client, ledger, writes, j);
          return more, ledger;
        }
        RelayShown(all, done, frame, r.Yield(), client, ledger, writes, j);
        client, writes, done := more, writes + 2, done + [frame];
        continue;
      }
      if IsUsageFrame(frame) {
        RelayHidden(all, done, frame, r.Yield(), client, ledger, writes, j);
        ledger, done := ledger + UsageRecord(frame, j), done + [frame];
        continue;
      }
      if IsErrorFrame(frame) {
        var err := BuildErrorFrame(frame, j);
        var more, closed := WriteFrame(err, client, writes, accepts);
        if closed {
          RelayedPart(all, done, frame, r.Yield(), accepts.value, client, ledger, writes, j);
        } else {
          RelayStopped(all, accepts, done, frame, r.Yield(), client, ledger, writes, j);
        }
        return more, ledger;
      }
      RelayHidden(all, done, frame, r.Yield(), client, ledger, writes, j);
      done := done + [frame];
    }
  }

  lemma {:induction false} JoinOne(f: Bytes, rest: seq<Bytes>)
    ensures Join([f] + rest) == f + "\n\n" + Join(rest)
  {
    assert ([f] + rest)[1..] == rest;
  }

  lemma {:induction false} PrefixFacts(f: Bytes)
    ensures IsUsageFrame(f) || IsErrorFrame(f) ==> IsGatewayFrame(f)
    ensures !(IsUsageFrame(f) && IsErrorFrame(f))
  {
    if IsUsageFrame(f) { assert "event: aicg.usage"[..12] == GATEWAY; assert f[12] == 'u'; }
    if IsErrorFrame(f) { assert "event: aicg.error"[..12] == GATEWAY; assert f[12] == 'e'; }
  }

  // ----------------------------------------------------- no gateway frame gets out

  lemma {:induction false} ErrorFrameClosed(f: Bytes, j: Json)
    requires PrintsOneLine(j)
    ensures Closed(TranslatedError(f, j)) && !IsGatewayFrame(TranslatedError(f, j))
  {
    var body := j.printError(ErrorMessage(LastDecoded(Payloads(Lines(f)), j)));
    var e := "event: error\ndata: " + body;
    assert NoNewline(body) && body != [];
    assert e[7] == 'e' && GATEWAY[7] == 'a';
    OneNewline(body, Delim(e));
    assert e[|e| - 1] == body[|body| - 1];
  }

  lemma {:induction false} OneNewline(body: Bytes, i: int)
    requires NoNewline(body)
    ensures !DelimAt("event: error\ndata: " + body, i)
  {
    var head := "event: error\ndata: ";
    var e := head + body;
    if 0 <= i < |e| - 1 {
      if i + 1 >= |head| { assert e[i + 1] == body[i + 1 - |head|]; }
      else { assert e[i] == head[i] && e[i + 1] == head[i + 1]; }
    }
  }

  lemma {:induction false} ClientFramesClean(fs: seq<Bytes>, j: Json)
    requires PrintsOneLine(j)
    ensures forall f | f in ClientFrames(fs, j) :: !IsGatewayFrame(f)
    ensures (forall f | f in fs :: Closed(f)) ==> forall f | f in ClientFrames(fs, j) :: Closed(f)
    decreases |fs|
  {
    if fs != [] {
      ClientFramesClean(fs[1..], j);
      ErrorFrameClosed(fs[0], j);
    }
  }
}
