/** Conversion between Anthropic wire blocks and the gateway's internal representation (IR). */
module Transformer {
  import opened Common

  /** JSON text, and a decoded JSON object with its member values as text. */
  type JsonText = string
  type JsonObject = map<string, JsonText>

  /** JSON decoding of an object (None on null or malformed text) and its printing (`show`). */
  datatype Codec = Codec(parse: JsonText -> Option<JsonObject>, show: Option<JsonObject> -> JsonText)

  ghost predicate Lawful(k: Codec) {
    forall m :: k.show(m) != "" && k.parse(k.show(m)) == m
  }

  function ParseObject(raw: JsonText, k: Codec): Option<JsonObject> { if raw == "" then None else k.parse(raw) }

  // ----------------------------------------------------------------------- blocks

  /** JSON members the gateway's structs have no field for, by their path. */
  type Extra = map<string, JsonText>

  datatype WireBlock = WireBlock(
    typ: string, text: string, id: string, name: string, input: JsonText,
    toolUseId: string, content: seq<WireBlock>, isError: bool,
    cacheControl: Option<string>, thinking: Option<string>, extra: Extra)

  datatype ToolUse = ToolUse(id: string, name: string, input: Option<JsonObject>)
  datatype ToolResult = ToolResult(toolUseId: string, content: seq<IrBlock>, isError: bool)
  datatype CacheControl = CacheControl(typ: string, ttl: string)

  datatype IrBlock = IrBlock(
    typ: string, text: string, toolUse: Option<ToolUse>, toolResult: Option<ToolResult>,
    thinking: Option<string>, cacheControl: Option<CacheControl>)

  function ToIr(w: WireBlock, k: Codec): IrBlock {
    IrBlock(
      w.typ,
      if w.typ == "text" then w.text else "",
      if w.typ == "tool_use" then Some(ToolUse(w.id, w.name, ParseObject(w.input, k))) else None,
      if w.typ == "tool_result" then Some(ToolResult(w.toolUseId, ToIrs(w.content, k), w.isError)) else None,
      if w.typ == "thinking" then Some(if w.thinking.Some? then w.thinking.value else "") else None,
      if w.cacheControl.Some? then Some(CacheControl(w.cacheControl.value, "")) else None)
  }

  function ToIrs(ws: seq<WireBlock>, k: Codec): (r: seq<IrBlock>)
    ensures |r| == |ws|
  {
    if ws == [] then [] else [ToIr(ws[0], k)] + ToIrs(ws[1..], k)
  }

  function ToWire(b: IrBlock, k: Codec): WireBlock {
    var isUse := b.typ == "tool_use" && b.toolUse.Some?;
    var isResult := b.typ == "tool_result" && b.toolResult.Some?;
    WireBlock(
      b.typ,
      if b.typ == "text" then b.text else "",
      if isUse then b.toolUse.value.id else "",
      if isUse then b.toolUse.value.name else "",
      if isUse then k.show(b.toolUse.value.input) else "",
      if isResult then b.toolResult.value.toolUseId else "",
      if isResult then ToWires(b.toolResult.value.content, k) else [],
      if isResult then b.toolResult.value.isError else false,
      if b.cacheControl.Some? then Some(b.cacheControl.value.typ) else None,
      if b.typ == "thinking" then b.thinking else None,
      map[])
  }

  function ToWires(bs: seq<IrBlock>, k: Codec): (r: seq<WireBlock>)
    ensures |r| == |bs|
  {
    if bs == [] then [] else [ToWire(bs[0], k)] + ToWires(bs[1..], k)
  }

  lemma {:induction false} ToIrsAt(ws: seq<WireBlock>, k: Codec, i: nat)
    requires i < |ws|
    ensures ToIrs(ws, k)[i] == ToIr(ws[i], k)
    decreases i
  {
    if i > 0 { ToIrsAt(ws[1..], k, i - 1); }
  }

  /** What each kind of wire block means in the IR, member by member. */
  lemma {:induction false} BlockMeaning(w: WireBlock, k: Codec)
    ensures var b := ToIr(w, k);
            && b.typ == w.typ
            && b.text == (if w.typ == "text" then w.text else "")
            && (b.toolUse.Some? <==> w.typ == "tool_use")
            && (b.toolUse.Some? ==>
                  && b.toolUse.value.id == w.id && b.toolUse.value.name == w.name
                  && b.toolUse.value.input == if w.input == "" then None else k.parse(w.input))
            && (b.toolResult.Some? <==> w.typ == "tool_result")
            && (b.toolResult.Some? ==>
                  var r := b.toolResult.value;
                  && r.toolUseId == w.toolUseId && r.isError == w.isError
                  && |r.content| == |w.content| && forall i | 0 <= i < |w.content| :: r.content[i] == ToIr(w.content[i], k))
            && (b.thinking.Some? <==> w.typ == "thinking")
            && (b.thinking.Some? ==> b.thinking.value == if w.thinking.Some? then w.thinking.value else "")
            && b.cacheControl == if w.cacheControl.Some? then Some(CacheControl(w.cacheControl.value, "")) else None
  {
    forall i | 0 <= i < |w.content| ensures ToIrs(w.content, k)[i] == ToIr(w.content[i], k) { ToIrsAt(w.content, k, i); }
  }

  // ------------------------------------------------------------ IR to wire and back

  /** A block carries the payload of its own type and nothing else, at every depth, and no TTL. */
  predicate WellFormed(b: IrBlock) {
    && (b.typ != "text" ==> b.text == "")
    && (b.toolUse.Some? <==> b.typ == "tool_use")
    && (b.toolResult.Some? <==> b.typ == "tool_result")
    && (b.thinking.Some? <==> b.typ == "thinking")
    && (b.cacheControl.Some? ==> b.cacheControl.value.ttl == "")
    && (b.toolResult.Some? ==> AllWellFormed(b.toolResult.value.content))
  }

  predicate AllWellFormed(bs: seq<IrBlock>) {
    bs == [] || (WellFormed(bs[0]) && AllWellFormed(bs[1..]))
  }

  /** IR to wire to IR is the identity on exactly the well-formed blocks, however deeply nested. */
  lemma {:induction false} IrRoundTripIff(b: IrBlock, k: Codec)
    requires Lawful(k)
    ensures ToIr(ToWire(b, k), k) == b <==> WellFormed(b)
    decreases b, 0
  {
    if b.toolResult.Some? { IrsRoundTripIff(b.toolResult.value.content, k); }
    if b.toolUse.Some? {
      assert k.parse(k.show(b.toolUse.value.input)) == b.toolUse.value.input;
    }
  }

  lemma {:induction false} IrsRoundTripIff(bs: seq<IrBlock>, k: Codec)
    requires Lawful(k)
    ensures ToIrs(ToWires(bs, k), k) == bs <==> AllWellFormed(bs)
    decreases bs, 1
  {
    if bs != [] {
      IrRoundTripIff(bs[0], k);
      IrsRoundTripIff(bs[1..], k);
      var ws := ToWires(bs, k);
      assert ws[1..] == ToWires(bs[1..], k);
      assert bs == [bs[0]] + bs[1..];
      assert ToIrs(ws, k)[0] == ToIr(ToWire(bs[0], k), k) && ToIrs(ws, k)[1..] == ToIrs(ws[1..], k);
    }
  }

  // ---------------------------------------------------------- wire to IR and back

  lemma {:induction false} ToIrWellFormed(w: WireBlock, k: Codec)
    ensures WellFormed(ToIr(w, k))
    decreases w, 0
  {
    if w.typ == "tool_result" { ToIrsWellFormed(w.content, k); }
  }

  lemma {:induction false} ToIrsWellFormed(ws: seq<WireBlock>, k: Codec)
    ensures AllWellFormed(ToIrs(ws, k))
    decreases ws, 1
  {
    if ws != [] {
      ToIrWellFormed(ws[0], k);
      ToIrsWellFormed(ws[1..], k);
      assert ToIrs(ws, k)[1..] == ToIrs(ws[1..], k);
    }
  }

  /** What the gateway forwards for a wire block. */
  function Normalise(w: WireBlock, k: Codec): WireBlock { ToWire(ToIr(w, k), k) }

  /** Forwarding a forwarded block changes nothing more, and both mean the same IR. */
  lemma {:induction false} NormaliseIdempotent(w: WireBlock, k: Codec)
    requires Lawful(k)
    ensures Normalise(Normalise(w, k), k) == Normalise(w, k)
    ensures ToIr(Normalise(w, k), k) == ToIr(w, k)
  {
    ToIrWellFormed(w, k);
    IrRoundTripIff(ToIr(w, k), k);
  }

  /** A wire block with the fields of its own type only, its input in printed form, and nothing extra. */
  predicate Canonical(w: WireBlock, k: Codec) {
    && w.extra == map[]
    && (w.typ != "text" ==> w.text == "")
    && (if w.typ == "tool_use" then w.input == k.show(ParseObject(w.input, k))
        else w.id == "" && w.name == "" && w.input == "")
    && (if w.typ == "tool_result" then AllCanonical(w.content, k)
        else w.toolUseId == "" && w.content == [] && !w.isError)
    && (w.thinking.Some? <==> w.typ == "thinking")
  }

  predicate AllCanonical(ws: seq<WireBlock>, k: Codec) {
    ws == [] || (Canonical(ws[0], k) && AllCanonical(ws[1..], k))
  }

  /** The gateway forwards a block unchanged iff it is canonical; anything else loses fields. */
  lemma {:induction false} ForwardedUnchangedIff(w: WireBlock, k: Codec)
    ensures Normalise(w, k) == w <==> Canonical(w, k)
    decreases w, 0
  {
    if w.typ == "tool_result" { AllForwardedUnchangedIff(w.content, k); }
  }

  /** A text block with an id is forwarded without it. */
  lemma {:induction false} StrayFieldIsLost(k: Codec)
    ensures var w := WireBlock("text", "x", "id", "", "", "", [], false, None, None, map[]);
            Normalise(w, k) == w.(id := "") != w
  {
    assert |"id"| != |""|;
  }

  /** An image block is forwarded without its source. */
  lemma {:induction false} ImageSourceIsLost(source: JsonText, k: Codec)
    ensures var w := WireBlock("image", "", "", "", "", "", [], false, None, None, map["source" := source]);
            Normalise(w, k) == w.(extra := map[]) != w
  {
    assert "source" in map["source" := source];
  }

  lemma {:induction false} AllForwardedUnchangedIff(ws: seq<WireBlock>, k: Codec)
    ensures ToWires(ToIrs(ws, k), k) == ws <==> AllCanonical(ws, k)
    decreases ws, 1
  {
    if ws != [] {
      ForwardedUnchangedIff(ws[0], k);
      AllForwardedUnchangedIff(ws[1..], k);
      var bs := ToIrs(ws, k);
      assert bs[1..] == ToIrs(ws[1..], k);
      assert ws == [ws[0]] + ws[1..];
      assert ToWires(bs, k)[0] == Normalise(ws[0], k) && ToWires(bs, k)[1..] == ToWires(bs[1..], k);
    }
  }

  // --------------------------------------------------------------------- requests

  datatype WireMessage = WireMessage(role: string, content: seq<WireBlock>)
  datatype IrMessage = IrMessage(role: string, content: seq<IrBlock>)
  datatype Tool = Tool(name: string, description: string, inputSchema: JsonText)
  datatype ToolChoice = ToolChoice(typ: string, name: string)
  datatype WireThinking = WireThinking(typ: string, budgetTokens: int)
  datatype ThinkingSpec = ThinkingSpec(enabled: bool, budgetTokens: int)

  /** Fields that are only carried along; egress later sets model and stream for the chosen member. */
  datatype Settings = Settings(
    model: string, stream: bool, maxTokens: int, temperature: Option<real>, metadata: map<string, string>)

  datatype WireRequest = WireRequest(
    settings: Settings, messages: seq<WireMessage>, system: seq<WireBlock>, tools: seq<Tool>,
    toolChoice: Option<ToolChoice>, thinking: Option<WireThinking>, extra: Extra)

  datatype IrRequest = IrRequest(
    settings: Settings, messages: seq<IrMessage>, system: seq<IrBlock>, tools: seq<Tool>,
    toolChoice: Option<ToolChoice>, thinking: Option<ThinkingSpec>)

  function MessageToIr(m: WireMessage, k: Codec): IrMessage { IrMessage(m.role, ToIrs(m.content, k)) }
  function MessageToWire(m: IrMessage, k: Codec): WireMessage { WireMessage(m.role, ToWires(m.content, k)) }

  function MessagesToIr(ms: seq<WireMessage>, k: Codec): (r: seq<IrMessage>)
    ensures |r| == |ms|
  {
    if ms == [] then [] else [MessageToIr(ms[0], k)] + MessagesToIr(ms[1..], k)
  }

  function MessagesToWire(ms: seq<IrMessage>, k: Codec): (r: seq<WireMessage>)
    ensures |r| == |ms|
  {
    if ms == [] then [] else [MessageToWire(ms[0], k)] + MessagesToWire(ms[1..], k)
  }

  /** The wire's "tool" is the IR's "specific". */
  function ChoiceToIr(c: ToolChoice): ToolChoice { if c.typ == "tool" then c.(typ := "specific") else c }
  function ChoiceToWire(c: ToolChoice): ToolChoice { if c.typ == "specific" then c.(typ := "tool") else c }

  function RequestToIr(w: WireRequest, k: Codec): IrRequest {
    IrRequest(
      w.settings, MessagesToIr(w.messages, k), ToIrs(w.system, k), w.tools,
      if w.toolChoice.Some? then Some(ChoiceToIr(w.toolChoice.value)) else None,
      if w.thinking.Some? then Some(ThinkingSpec(true, w.thinking.value.budgetTokens)) else None)
  }

  function RequestToWire(r: IrRequest, k: Codec): WireRequest {
    WireRequest(
      r.settings, MessagesToWire(r.messages, k), ToWires(r.system, k), r.tools,
      if r.toolChoice.Some? then Some(ChoiceToWire(r.toolChoice.value)) else None,
      if r.thinking.Some? then Some(WireThinking("enabled", r.thinking.value.budgetTokens)) else None,
      map[])
  }

  lemma {:induction false} ToIrsAppend(a: seq<WireBlock>, w: WireBlock, k: Codec)
    ensures ToIrs(a + [w], k) == ToIrs(a, k) + [ToIr(w, k)]
    decreases |a|
  {
    if a != [] {
      ToIrsAppend(a[1..], w, k);
      assert (a + [w])[1..] == a[1..] + [w];
    }
  }

  lemma {:induction false} MessagesToIrAppend(a: seq<WireMessage>, m: WireMessage, k: Codec)
    ensures MessagesToIr(a + [m], k) == MessagesToIr(a, k) + [MessageToIr(m, k)]
    decreases |a|
  {
    if a != [] {
      MessagesToIrAppend(a[1..], m, k);
      assert (a + [m])[1..] == a[1..] + [m];
    }
  }

  lemma {:induction false} MessagesToIrAt(ms: seq<WireMessage>, k: Codec, i: nat)
    requires i < |ms|
    ensures MessagesToIr(ms, k)[i] == MessageToIr(ms[i], k)
    decreases i
  {
    if i > 0 { MessagesToIrAt(ms[1..], k, i - 1); }
  }

  /** What a whole wire request means in the IR. */
  ghost predicate Means(w: WireRequest, r: IrRequest, k: Codec) {
    && r.settings == w.settings && r.tools == w.tools
    && |r.messages| == |w.messages|
    && (forall i | 0 <= i < |w.messages| ::
          r.messages[i].role == w.messages[i].role && BlocksMean(w.messages[i].content, r.messages[i].content, k))
    && BlocksMean(w.system, r.system, k)
    && (r.toolChoice.Some? <==> w.toolChoice.Some?)
    && (r.toolChoice.Some? ==>
          && r.toolChoice.value.name == w.toolChoice.value.name
          && r.toolChoice.value.typ == if w.toolChoice.value.typ == "tool" then "specific" else w.toolChoice.value.typ)
    && r.thinking == if w.thinking.Some? then Some(ThinkingSpec(true, w.thinking.value.budgetTokens)) else None
  }

  ghost predicate BlocksMean(ws: seq<WireBlock>, bs: seq<IrBlock>, k: Codec) {
    |bs| == |ws| && forall i | 0 <= i < |ws| :: bs[i] == ToIr(ws[i], k)
  }

  lemma {:induction false} RequestMeaning(w: WireRequest, k: Codec)
    ensures Means(w, RequestToIr(w, k), k)
  {
    forall i | 0 <= i < |w.system| ensures ToIrs(w.system, k)[i] == ToIr(w.system[i], k) { ToIrsAt(w.system, k, i); }
    forall i | 0 <= i < |w.messages|
      ensures MessagesToIr(w.messages, k)[i].role == w.messages[i].role
      ensures BlocksMean(w.messages[i].content, MessagesToIr(w.messages, k)[i].content, k)
    {
      var ws := w.messages[i].content;
      MessagesToIrAt(w.messages, k, i);
      forall m | 0 <= m < |ws| ensures ToIrs(ws, k)[m] == ToIr(ws[m], k) { ToIrsAt(ws, k, m); }
    }
  }

  method ConvertBlocks(ws: seq<WireBlock>, k: Codec) returns (bs: seq<IrBlock>)
    ensures bs == ToIrs(ws, k)
  {
    bs := [];
    for i := 0 to |ws|
      invariant bs == ToIrs(ws[..i], k)
    {
      assert ws[..i + 1] == ws[..i] + [ws[i]];
      ToIrsAppend(ws[..i], ws[i], k);
      bs := bs + [ToIr(ws[i], k)];
    }
    assert ws[..|ws|] == ws;
  }

  /** The conversion as the gateway runs it, appending message by message and block by block. */
  method ConvertRequest(raw: WireRequest, k: Codec) returns (req: IrRequest)
    ensures req == RequestToIr(raw, k) && Means(raw, req, k)
  {
    RequestMeaning(raw, k);
    var thinking := None;
    if raw.thinking.Some? { thinking := Some(ThinkingSpec(true, raw.thinking.value.budgetTokens)); }
    var messages := [];
    for i := 0 to |raw.messages|
      invariant messages == MessagesToIr(raw.messages[..i], k)
    {
      var msg := raw.messages[i];
      assert raw.messages[..i + 1] == raw.messages[..i] + [msg];
      MessagesToIrAppend(raw.messages[..i], msg, k);
      var content := ConvertBlocks(msg.content, k);
      messages := messages + [IrMessage(msg.role, content)];
    }
    assert raw.messages[..|raw.messages|] == raw.messages;
    var system := ConvertBlocks(raw.system, k);
    var choice := None;
    if raw.toolChoice.Some? { choice := Some(ChoiceToIr(raw.toolChoice.value)); }
    req := IrRequest(raw.settings, messages, system, raw.tools, choice, thinking);
  }

  predicate MessagesWellFormed(ms: seq<IrMessage>) {
    ms == [] || (AllWellFormed(ms[0].content) && MessagesWellFormed(ms[1..]))
  }

  predicate RequestWellFormed(r: IrRequest) {
    && MessagesWellFormed(r.messages) && AllWellFormed(r.system)
    && (r.toolChoice.Some? ==> r.toolChoice.value.typ != "tool")
    && (r.thinking.Some? ==> r.thinking.value.enabled)
  }

  lemma {:induction false} MessagesRoundTripIff(ms: seq<IrMessage>, k: Codec)
    requires Lawful(k)
    ensures MessagesToIr(MessagesToWire(ms, k), k) == ms <==> MessagesWellFormed(ms)
    decreases |ms|
  {
    if ms != [] {
      IrsRoundTripIff(ms[0].content, k);
      MessagesRoundTripIff(ms[1..], k);
      var ws := MessagesToWire(ms, k);
      assert ws[1..] == MessagesToWire(ms[1..], k);
      assert ms == [ms[0]] + ms[1..];
      var back := MessagesToIr(ws, k);
      assert back[0] == MessageToIr(MessageToWire(ms[0], k), k) && back[1..] == MessagesToIr(ws[1..], k);
    }
  }

  /** A whole IR request survives the trip to the wire and back iff it is well formed. */
  lemma {:induction false} RequestRoundTripIff(r: IrRequest, k: Codec)
    requires Lawful(k)
    ensures RequestToIr(RequestToWire(r, k), k) == r <==> RequestWellFormed(r)
  {
    MessagesRoundTripIff(r.messages, k);
    IrsRoundTripIff(r.system, k);
  }

  lemma {:induction false} MessagesToIrWellFormed(ms: seq<WireMessage>, k: Codec)
    ensures MessagesWellFormed(MessagesToIr(ms, k))
    decreases |ms|
  {
    if ms != [] {
      ToIrsWellFormed(ms[0].content, k);
      MessagesToIrWellFormed(ms[1..], k);
      assert MessagesToIr(ms, k)[1..] == MessagesToIr(ms[1..], k);
    }
  }

  /** Converting and re-emitting a wire request is idempotent and keeps its IR meaning. */
  lemma {:induction false} RequestNormaliseIdempotent(w: WireRequest, k: Codec)
    requires Lawful(k)
    ensures var n := RequestToWire(RequestToIr(w, k), k);
            && RequestToIr(n, k) == RequestToIr(w, k)
            && RequestToWire(RequestToIr(n, k), k) == n
  {
    MessagesToIrWellFormed(w.messages, k);
    ToIrsWellFormed(w.system, k);
    RequestRoundTripIff(RequestToIr(w, k), k);
  }

  /** A request that says thinking is disabled is forwarded with thinking enabled. */
  lemma {:induction false} DisabledThinkingIsEnabled(w: WireRequest, k: Codec)
    requires w.thinking.Some?
    ensures var n := RequestToWire(RequestToIr(w, k), k);
            n.thinking == w.thinking <==> w.thinking.value.typ == "enabled"
  {
  }

  predicate MessagesCanonical(ms: seq<WireMessage>, k: Codec) {
    ms == [] || (AllCanonical(ms[0].content, k) && MessagesCanonical(ms[1..], k))
  }

  /** Canonical blocks throughout, no internal tool choice, thinking enabled if set, and nothing extra. */
  predicate RequestCanonical(w: WireRequest, k: Codec) {
    && MessagesCanonical(w.messages, k) && AllCanonical(w.system, k)
    && (w.toolChoice.Some? ==> w.toolChoice.value.typ != "specific")
    && (w.thinking.Some? ==> w.thinking.value.typ == "enabled")
    && w.extra == map[]
  }

  lemma {:induction false} MessagesForwardedUnchangedIff(ms: seq<WireMessage>, k: Codec)
    ensures MessagesToWire(MessagesToIr(ms, k), k) == ms <==> MessagesCanonical(ms, k)
    decreases |ms|
  {
    if ms != [] {
      AllForwardedUnchangedIff(ms[0].content, k);
      MessagesForwardedUnchangedIff(ms[1..], k);
      var rs := MessagesToIr(ms, k);
      assert rs[1..] == MessagesToIr(ms[1..], k);
      assert ms == [ms[0]] + ms[1..];
      var back := MessagesToWire(rs, k);
      assert back[0] == MessageToWire(MessageToIr(ms[0], k), k) && back[1..] == MessagesToWire(rs[1..], k);
    }
  }

  /** The gateway re-emits a whole request unchanged iff it is canonical. */
  lemma {:induction false} RequestForwardedUnchangedIff(w: WireRequest, k: Codec)
    ensures RequestToWire(RequestToIr(w, k), k) == w <==> RequestCanonical(w, k)
  {
    MessagesForwardedUnchangedIff(w.messages, k);
    AllForwardedUnchangedIff(w.system, k);
  }
}
