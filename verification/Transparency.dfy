/** Gateway and local proxy together: what reaches the client and the ledger for any provider stream. */
module Transparency {
  import opened Common
  import opened SseFrames
  import opened Relay
  import opened StreamAccounting

  // ------------------------------------------------------------------- sanitisation

  lemma {:induction false} RelayPlain(fs: seq<Bytes>, j: Json)
    requires forall f | f in fs :: !IsGatewayFrame(f)
    ensures ClientFrames(fs, j) == fs && LedgerRecords(fs, j) == [] && !Stops(fs)
    decreases |fs|
  {
    forall f | f in fs ensures !IsErrorFrame(f) && !IsUsageFrame(f) { PrefixFacts(f); }
    if fs != [] { RelayPlain(fs[1..], j); }
  }

  lemma {:induction false} FramesOfJoin(fs: seq<Bytes>, t: Bytes)
    requires forall f | f in fs :: Closed(f)
    ensures Frames(Join(fs) + t) == fs + Frames(t)
  {
    JoinSplit(fs, t);
  }

  lemma {:induction false} OpenFrame(r: Bytes)
    requires Delim(r) < 0 && r != [] && r[|r| - 1] == '\n'
    ensures Frames(r + "\n\n") == [r[..|r| - 1], "\n"]
  {
    var h := r[..|r| - 1];
    OpenBody(r);
    OpenText(r);
    SplitClosed(h, "\n");
    assert Frames("\n") == ["\n"];
  }

  lemma {:induction false} OpenText(r: Bytes)
    requires r != [] && r[|r| - 1] == '\n'
    ensures r + "\n\n" == r[..|r| - 1] + "\n\n" + "\n"
  {
  }

  lemma {:induction false} OpenBody(r: Bytes)
    requires Delim(r) < 0 && r != [] && r[|r| - 1] == '\n'
    ensures Closed(r[..|r| - 1])
  {
    var h := r[..|r| - 1];
    assert !DelimAt(r, |r| - 2);
    assert !DelimAt(r, Delim(h));
  }

  lemma {:induction false} ClosedFrame(f: Bytes)
    requires Closed(f)
    ensures Frames(f + "\n\n") == [f]
  {
    SplitClosed(f, []);
    assert f + "\n\n" + [] == f + "\n\n";
    UnterminatedFrames([]);
  }

  lemma {:induction false} LastFrameClean(r: Bytes, j: Json)
    requires Delim(r) < 0 && PrintsOneLine(j)
    ensures forall f | f in Frames(Join(ClientFrames([r], j))) :: !IsGatewayFrame(f)
  {
    var one: seq<Bytes> := [r];
    assert one[1..] == [];
    JoinOne(r, []);
    JoinOne(TranslatedError(r, j), []);
    assert r + "\n\n" + [] == r + "\n\n";
    assert TranslatedError(r, j) + "\n\n" + [] == TranslatedError(r, j) + "\n\n";
    if !IsGatewayFrame(r) {
      if Closed(r) { ClosedFrame(r); } else { OpenFrame(r); }
    } else if !IsUsageFrame(r) && IsErrorFrame(r) {
      ErrorFrameClosed(r, j);
      ClosedFrame(TranslatedError(r, j));
    } else {
      UnterminatedFrames([]);
    }
  }

  lemma {:induction false} CompleteClean(s: Bytes, tail: Bytes, j: Json)
    requires PrintsOneLine(j)
    requires forall f | f in Frames(tail) :: !IsGatewayFrame(f)
    ensures forall f | f in Frames(Join(ClientFrames(Complete(s), j)) + tail) :: !IsGatewayFrame(f)
  {
    CompleteClosed(s);
    ClientFramesClean(Complete(s), j);
    FramesOfJoin(ClientFrames(Complete(s), j), tail);
  }

  /** For every byte stream, re-parsing what the relay wrote never yields a gateway frame. */
  lemma {:induction false} Sanitised(s: Bytes, j: Json)
    requires PrintsOneLine(j)
    ensures forall f | f in Frames(Join(ClientFrames(Frames(s), j))) :: !IsGatewayFrame(f)
    ensures forall f | f in Frames(Join(ClientFrames(Complete(s), j))) :: !IsGatewayFrame(f)
  {
    var c, r := Complete(s), Residual(s);
    var tail := if r == [] then [] else [r];
    UnterminatedFrames([]);
    CompleteClean(s, [], j);
    assert Join(ClientFrames(c, j)) + [] == Join(ClientFrames(c, j));
    RelayAppend(c, tail, j);
    if r != [] && !Stops(c) {
      LastFrameClean(r, j);
      CompleteClean(s, Join(ClientFrames([r], j)), j);
      JoinConcat(ClientFrames(c, j), ClientFrames([r], j));
    } else {
      assert ClientFrames(c, j) + [] == ClientFrames(c, j);
    }
  }

  // ----------------------------------------------------------------- injected frames

  lemma {:induction false} LinesOne(a: Bytes)
    requires NoNewline(a)
    ensures Lines(a) == [a]
    decreases |a|
  {
    if a != [] {
      LinesOne(a[1..]);
      assert [a[0]] + a[1..] == a;
    }
  }

  lemma {:induction false} LinesTwo(a: Bytes, b: Bytes)
    requires NoNewline(a)
    ensures Lines(a + "\n" + b) == [a] + Lines(b)
    decreases |a|
  {
    var s := a + "\n" + b;
    if a == [] {
      assert s[1..] == b;
    } else {
      assert s[1..] == a[1..] + "\n" + b;
      LinesTwo(a[1..], b);
      assert [a[0]] + a[1..] == a;
    }
  }

  lemma {:induction false} DataPayload(name: Bytes, payload: Bytes)
    requires NoNewline(name) && NoNewline(payload) && !IsDataLine(name)
    ensures Payloads(Lines(name + "\n" + ("data: " + payload))) == [payload]
  {
    var d := "data: " + payload;
    LinesTwo(name, d);
    LinesOne(d);
    OneData(name, d);
    assert d[6..] == payload;
  }

  lemma {:induction false} OneData(name: Bytes, d: Bytes)
    requires !IsDataLine(name) && IsDataLine(d)
    ensures Payloads([name] + [d]) == [d[6..]]
  {
    var one: seq<Bytes> := [d];
    assert ([name] + one)[1..] == one && one[1..] == [];
    assert Payloads(one) == [d[6..]] + Payloads([]);
  }

  lemma {:induction false} UsagePayload(payload: Bytes, j: Json)
    requires NoNewline(payload)
    ensures UsageRecord(UsageFrame(payload), j) == if j.usageDecodes(payload) then [payload] else []
  {
    var name := "event: aicg.usage";
    assert name[0] == 'e';
    DataPayload(name, payload);
    assert name + "\n" + ("data: " + payload) == UsageFrame(payload);
  }

  /** The client's error carries the message and trace id the gateway put in its payload. */
  lemma {:induction false} ErrorPayload(payload: Bytes, j: Json)
    requires NoNewline(payload) && j.decodeError(payload).Some?
    ensures TranslatedError(ErrorFrame(payload), j) ==
            "event: error\ndata: " + j.printError(ErrorMessage(j.decodeError(payload).value))
    ensures Holds(ErrorMessage(j.decodeError(payload).value), j.decodeError(payload).value.message)
    ensures Holds(ErrorMessage(j.decodeError(payload).value), j.decodeError(payload).value.traceId)
  {
    var name := "event: aicg.error";
    assert name[0] == 'e';
    DataPayload(name, payload);
    assert name + "\n" + ("data: " + payload) == ErrorFrame(payload);
    MessageHolds(j.decodeError(payload).value);
  }

  /** head is a frame's first line, with no newline at its end or doubled. */
  lemma {:induction false} TwoLineClosed(head: Bytes, payload: Bytes)
    requires NoNewline(head) && NoNewline(payload)
    ensures Closed(head + "\ndata: " + payload)
  {
    var f := head + "\ndata: " + payload;
    var n := |head|;
    forall k ensures !DelimAt(f, k) {
      if 0 <= k < |f| - 1 {
        if k + 1 < n { assert f[k] == head[k]; }
        else if k == n { assert f[k + 1] == 'd'; }
        else if k + 1 == n { assert f[k] == head[k]; }
        else if k >= n + 7 { assert f[k] == payload[k - n - 7]; }
        else { assert f[k] == "\ndata: "[k - n]; }
      }
    }
    if payload == [] { assert f[|f| - 1] == ' '; } else { assert f[|f| - 1] == payload[|payload| - 1]; }
  }

  lemma {:induction false} InjectedFrames(payload: Bytes)
    requires NoNewline(payload)
    ensures Closed(UsageFrame(payload)) && Closed(ErrorFrame(payload))
    ensures IsUsageFrame(UsageFrame(payload)) && IsErrorFrame(ErrorFrame(payload))
    ensures "event: " <= UsageFrame(payload) && "event: " <= ErrorFrame(payload)
  {
    TwoLineClosed("event: aicg.usage", payload);
    TwoLineClosed("event: aicg.error", payload);
    assert "event: aicg.usage" + "\ndata: " + payload == UsageFrame(payload);
    assert "event: aicg.error" + "\ndata: " + payload == ErrorFrame(payload);
  }

  /** An unterminated rest swallows the frame appended after it. */
  lemma {:induction false} Merged(r: Bytes, f: Bytes)
    requires Delim(r) < 0 && Closed(f) && "event: " <= f
    ensures Closed(r + f)
  {
    forall k ensures !DelimAt(r + f, k) {
      assert !DelimAt(r, k) && !DelimAt(f, k - |r|);
      if k == |r| - 1 { assert (r + f)[k + 1] == f[0] == 'e'; }
    }
    assert (r + f)[|r + f| - 1] == f[|f| - 1];
  }

  lemma {:induction false} FramesWithAppended(p: Bytes, f: Bytes)
    requires Closed(f) && "event: " <= f
    ensures Frames(p + f + "\n\n") == Complete(p) + [Residual(p) + f]
  {
    var r := Residual(p);
    Merged(r, f);
    ClosedFrame(r + f);
    Regroup(p, f);
    Regroup(r, f);
    FramesAppend(p, f + "\n\n");
  }

  lemma {:induction false} FramesAppend(a: Bytes, b: Bytes)
    ensures Frames(a + b) == Complete(a) + Frames(Residual(a) + b)
  {
    SplitAppend(a, b);
  }

  /** Gluing an event line behind plain bytes does not make a gateway frame of them. */
  lemma {:induction false} NoOverlap(r: Bytes, f: Bytes)
    requires r != [] && !IsGatewayFrame(r) && "event: " <= f
    ensures !IsGatewayFrame(r + f)
  {
    var s, n := r + f, |r|;
    assert f[0] == 'e' && f[1] == 'v';
    assert s[n] == f[0] && s[n + 1] == f[1];
    if n >= 12 { assert s[..12] == r[..12]; }
  }

  lemma {:induction false} GatewayExtends(r: Bytes, t: Bytes)
    ensures IsGatewayFrame(r) ==> IsGatewayFrame(r + t)
  {
  }

  // ------------------------------------------------------------------- transparency

  /** The stream ends at a frame boundary and no frame of it claims to be a gateway frame. */
  ghost predicate WellBehaved(p: Bytes) {
    Residual(p) == [] && forall f | f in Complete(p) :: !IsGatewayFrame(f)
  }

  lemma {:induction false} WellBehavedJoin(p: Bytes)
    requires Residual(p) == []
    ensures p == Join(Complete(p))
  {
    Reassemble(p);
  }

  lemma {:induction false} TransparentWhen(p: Bytes, payload: Bytes, j: Json)
    requires NoNewline(payload) && WellBehaved(p)
    ensures var fs := Frames(p + UsageFrame(payload) + "\n\n");
            Join(ClientFrames(fs, j)) == p && LedgerRecords(fs, j) == if j.usageDecodes(payload) then [payload] else []
  {
    var u, c := UsageFrame(payload), Complete(p);
    InjectedFrames(payload);
    FramesWithAppended(p, u);
    assert [] + u == u;
    RelayPlain(c, j);
    RelayAppend(c, [u], j);
    UsagePayload(payload, j);
    PrefixFacts(u);
    var one: seq<Bytes> := [u];
    assert one[1..] == [];
    assert c + [] == c;
    WellBehavedJoin(p);
  }

  lemma {:induction false} PlainFrames(p: Bytes)
    requires forall f | f in Frames(p) :: !IsGatewayFrame(f)
    ensures forall f | f in Complete(p) :: !IsGatewayFrame(f)
    ensures Residual(p) != [] ==> !IsGatewayFrame(Residual(p))
  {
    if Residual(p) != [] { assert Residual(p) in Frames(p); }
  }

  /**
   For every provider stream: the client receives exactly its bytes and the ledger exactly the
   usage record iff the stream ends at a frame boundary and contains no gateway frame, and the
   proxy can decode the record.
   */
  lemma {:induction false} TransparentIff(p: Bytes, payload: Bytes, j: Json)
    requires NoNewline(payload) && PrintsOneLine(j)
    ensures var fs := Frames(p + UsageFrame(payload) + "\n\n");
            Join(ClientFrames(fs, j)) == p && LedgerRecords(fs, j) == [payload] <==> WellBehaved(p) && j.usageDecodes(payload)
  {
    var u, c, r := UsageFrame(payload), Complete(p), Residual(p);
    var sent := p + u + "\n\n";
    if WellBehaved(p) {
      TransparentWhen(p, payload, j);
    } else if Join(ClientFrames(Frames(sent), j)) == p {
      Sanitised(sent, j);
      PlainFrames(p);
      assert r != [];
      InjectedFrames(payload);
      FramesWithAppended(p, u);
      NoOverlap(r, u);
      RelayPlain(c + [r + u], j);
      assert LedgerRecords(Frames(sent), j) == [];
    }
  }

  lemma {:induction false} InterruptedWhen(p: Bytes, payload: Bytes, j: Json)
    requires NoNewline(payload) && WellBehaved(p)
    ensures var fs := Frames(p + ErrorFrame(payload) + "\n\n");
            Join(ClientFrames(fs, j)) == p + TranslatedError(ErrorFrame(payload), j) + "\n\n" && LedgerRecords(fs, j) == []
  {
    var e, c := ErrorFrame(payload), Complete(p);
    var t := TranslatedError(e, j);
    InjectedFrames(payload);
    FramesWithAppended(p, e);
    assert [] + e == e;
    RelayPlain(c, j);
    RelayAppend(c, [e], j);
    PrefixFacts(e);
    assert ClientFrames([e], j) == [t];
    WellBehavedJoin(p);
    JoinLast(c, t);
  }

  lemma {:induction false} Differ(p: Bytes, payload: Bytes, j: Json)
    ensures p + ErrorFrame(payload) + "\n\n" != p + TranslatedError(ErrorFrame(payload), j) + "\n\n"
  {
    var a, b := p + ErrorFrame(payload) + "\n\n", p + TranslatedError(ErrorFrame(payload), j) + "\n\n";
    assert a[|p| + 7] == ErrorFrame(payload)[7] == 'a';
    assert b[|p| + 7] == TranslatedError(ErrorFrame(payload), j)[7] == 'e';
  }

  /**
   When the provider stream is interrupted, the client receives the bytes so far and then exactly
   one translated error frame, and the ledger nothing, iff the interruption fell on a frame boundary
   and the bytes so far contain no gateway frame.
   */
  lemma {:induction false} InterruptedIff(p: Bytes, payload: Bytes, j: Json)
    requires NoNewline(payload) && PrintsOneLine(j)
    ensures var fs := Frames(p + ErrorFrame(payload) + "\n\n");
            Join(ClientFrames(fs, j)) == p + TranslatedError(ErrorFrame(payload), j) + "\n\n" && LedgerRecords(fs, j) == []
            <==> WellBehaved(p)
  {
    hide *;
    if WellBehaved(p) {
      InterruptedWhen(p, payload, j);
    } else if Join(ClientFrames(Frames(p + ErrorFrame(payload) + "\n\n"), j)) == p + TranslatedError(ErrorFrame(payload), j) + "\n\n" {
      Sanitised(p + ErrorFrame(payload) + "\n\n", j);
      ErrorFrameClosed(ErrorFrame(payload), j);
      TranslatedStart(ErrorFrame(payload), j);
      PlainBefore(p, TranslatedError(ErrorFrame(payload), j));
      StopsInside(p);
      OpenShowsRaw(p, payload, j);
      Differ(p, payload, j);
    }
  }

  lemma {:induction false} TranslatedStart(f: Bytes, j: Json)
    ensures "event: " <= TranslatedError(f, j)
  {
  }

  lemma {:induction false} StopsInside(p: Bytes)
    requires !WellBehaved(p) && (forall f | f in Complete(p) :: !IsGatewayFrame(f)) && !IsGatewayFrame(Residual(p))
    ensures Residual(p) != []
  {
  }

  /** If a stream with a frame appended holds no gateway frame, neither did the stream. */
  lemma {:induction false} PlainBefore(p: Bytes, t: Bytes)
    requires Closed(t) && "event: " <= t && forall f | f in Frames(p + t + "\n\n") :: !IsGatewayFrame(f)
    ensures (forall f | f in Complete(p) :: !IsGatewayFrame(f)) && !IsGatewayFrame(Residual(p))
  {
    var c, r := Complete(p), Residual(p);
    FramesWithAppended(p, t);
    assert forall f | f in c :: f in c + [r + t];
    assert r + t in c + [r + t];
    GatewayExtends(r, t);
  }

  /** On a stream that stops inside a frame the client sees the gateway's own error. */
  lemma {:induction false} OpenShowsRaw(p: Bytes, payload: Bytes, j: Json)
    requires NoNewline(payload) && Residual(p) != []
    requires (forall f | f in Complete(p) :: !IsGatewayFrame(f)) && !IsGatewayFrame(Residual(p))
    ensures Join(ClientFrames(Frames(p + ErrorFrame(payload) + "\n\n"), j)) == p + ErrorFrame(payload) + "\n\n"
  {
    var e, c, r := ErrorFrame(payload), Complete(p), Residual(p);
    InjectedFrames(payload);
    FramesWithAppended(p, e);
    NoOverlap(r, e);
    RelayPlain(c + [r + e], j);
    MergedJoin(p, e);
  }

  lemma {:induction false} MergedJoin(p: Bytes, f: Bytes)
    ensures Join(Complete(p) + [Residual(p) + f]) == p + f + "\n\n"
  {
    Reassemble(p);
    JoinLast(Complete(p), Residual(p) + f);
    assert Join(Complete(p)) + (Residual(p) + f) == Join(Complete(p)) + Residual(p) + f;
  }

  // --------------------------------------------------------------------- witnesses

  /** A provider stream cut inside a line: the usage frame reaches the client and not the ledger. */
  lemma {:induction false} UsageLeaks(payload: Bytes, j: Json)
    requires NoNewline(payload)
    ensures var fs := Frames("data: x" + UsageFrame(payload) + "\n\n");
            && Join(ClientFrames(fs, j)) == "data: x" + UsageFrame(payload) + "\n\n"
            && LedgerRecords(fs, j) == []
  {
    InjectedFrames(payload);
    Leaks(UsageFrame(payload), j);
  }

  /** ... and an interruption there shows the client the raw gateway error. */
  lemma {:induction false} ErrorLeaks(payload: Bytes, j: Json)
    requires NoNewline(payload)
    ensures var fs := Frames("data: x" + ErrorFrame(payload) + "\n\n");
            Join(ClientFrames(fs, j)) == "data: x" + ErrorFrame(payload) + "\n\n"
  {
    InjectedFrames(payload);
    Leaks(ErrorFrame(payload), j);
  }

  lemma {:induction false} Leaks(f: Bytes, j: Json)
    requires Closed(f) && "event: " <= f
    ensures var fs := Frames("data: x" + f + "\n\n");
            Join(ClientFrames(fs, j)) == "data: x" + f + "\n\n" && LedgerRecords(fs, j) == []
  {
    var p := "data: x";
    UnterminatedFrames(p);
    assert p[0] == 'd';
    FramesWithAppended(p, f);
    NoOverlap(p, f);
    RelayPlain(Complete(p) + [Residual(p) + f], j);
    MergedJoin(p, f);
  }

  // ------------------------------------------------------------------- whole request

  lemma {:induction false} FramesShape(s: Bytes, n: nat)
    requires n < |Frames(s)|
    ensures Delim(Frames(s)[n]) < 0 && forall f | f in Frames(s)[..n] :: Closed(f)
  {
    CompleteClosed(s);
    assert Frames(s)[..n] == Complete(s)[..n];
    assert forall f | f in Complete(s)[..n] :: f in Complete(s);
    if n < |Complete(s)| { assert Frames(s)[n] == Complete(s)[n] && Complete(s)[n] in Complete(s); }
  }

  lemma {:induction false} YieldsShape(script: Script, n: nat)
    requires n < |Yields(script)|
    ensures Delim(Yields(script)[n]) < 0 && forall f | f in Yields(script)[..n] :: Closed(f)
  {
    var s := Arriving(script);
    FramesShape(s, n);
    if Fails(script) { assert Frames(s)[..n] == Complete(s)[..n] && Frames(s)[n] == Complete(s)[n]; }
  }

  /** A client that closed early holds no gateway frame either, and none half-written. */
  lemma {:induction false} CutClean(all: seq<Bytes>, n: nat, half: bool, j: Json)
    requires PrintsOneLine(j) && n < |all| && Shows(all[n]) && Delim(all[n]) < 0 && forall f | f in all[..n] :: Closed(f)
    ensures forall f | f in Frames(Join(ClientFrames(all[..n], j)) + (if half then ShownAs(all[n], j) else [])) :: !IsGatewayFrame(f)
  {
    var fs := ClientFrames(all[..n], j);
    var x := if half then ShownAs(all[n], j) else [];
    ClientFramesClean(all[..n], j);
    ErrorFrameClosed(all[n], j);
    PrefixFacts(all[n]);
    FramesOfJoin(fs, x);
    UnterminatedFrames(x);
  }

  lemma {:induction false} RelayedClean(script: Script, accepts: Option<nat>, client: Bytes, ledger: seq<Bytes>, j: Json)
    requires PrintsOneLine(j) && RelayedTo(Yields(script), accepts, client, ledger, j)
    ensures forall f | f in Frames(client) :: !IsGatewayFrame(f)
  {
    var all := Yields(script);
    if accepts.Some? && accepts.value < 2 * |ClientFrames(all, j)| {
      var n :| CutAt(all, accepts.value, n, j)
        && client == Join(ClientFrames(all[..n], j)) + (if accepts.value % 2 == 1 then ShownAs(all[n], j) else []);
      YieldsShape(script, n);
      CutClean(all, n, accepts.value % 2 == 1, j);
    } else {
      Sanitised(Arriving(script), j);
    }
  }

  /**
   One streamed request end to end: provider to gateway, any network, proxy to client; the proxy may
   close on the gateway and the client on the proxy after any number of writes.
   */
  method StreamedRequest(provider: Script, network: Bytes -> Script, cfg: StreamConfig, j: Json,
                         proxyAccepts: Option<nat>, clientAccepts: Option<nat>)
    returns (client: Bytes, ledger: seq<Bytes>, sent: Bytes, result: AccountingResult, settle: Settlement)
    requires PrintsOneLine(j)
    requires forall u, c :: NoNewline(cfg.printUsage(u, c))
    requires forall u :: NoNewline(cfg.printError(u))
    ensures var lines := RawLines(Delivered(provider)); var n := Taken(lines, proxyAccepts);
            && result.interrupted == (n < |lines| || Terminal(provider) == Failed)
            && result.usage == Folded(Observations(lines[..n]), cfg.wire, cfg.decoder).usage
            && Settles(Delivered(provider), Terminal(provider), proxyAccepts, cfg, settle)
    ensures RelayedTo(Yields(network(sent)), clientAccepts, client, ledger, j)
    ensures forall f | f in Frames(client) :: !IsGatewayFrame(f)
    ensures proxyAccepts.None? && clientAccepts.None? && Arriving(network(sent)) == sent && !Fails(network(sent)) ==>
              if result.interrupted then
                WellBehaved(Delivered(provider)) <==>
                  client == Delivered(provider) + TranslatedError(ErrorFrame(cfg.printError(result.usage)), j) + "\n\n"
                  && ledger == []
              else
                WellBehaved(Delivered(provider)) && j.usageDecodes(cfg.printUsage(result.usage, result.charge)) <==>
                  client == Delivered(provider) && ledger == [cfg.printUsage(result.usage, result.charge)]
  {
    var src := new LineReader(provider);
    sent, result, settle := RunStream(src, cfg, proxyAccepts);
    var reader := new FrameReader(network(sent));
    client, ledger := RelayStream(reader, j, clientAccepts);
    RelayedClean(network(sent), clientAccepts, client, ledger, j);
    if result.interrupted {
      InterruptedIff(Delivered(provider), cfg.printError(result.usage), j);
      Regroup(Delivered(provider), ErrorFrame(cfg.printError(result.usage)));
    } else {
      TransparentIff(Delivered(provider), cfg.printUsage(result.usage, result.charge), j);
      Regroup(Delivered(provider), UsageFrame(cfg.printUsage(result.usage, result.charge)));
    }
  }
}
