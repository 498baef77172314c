/**
 Feature degradation: what ingress detects in the JSON body, what routing then demands of a member,
 and what egress strips before a non-Anthropic provider sees the request.
 */
module Degradation {
  import opened Common
  import opened Decisions
  import opened Transformer
  import Config
  import Routing
  import Selector

  // ------------------------------------------------------------------- request body

  /** A JSON member that may be missing, explicitly null, or given. */
  datatype Presence<+T> = Absent | Null | Present(value: T)

  datatype RawBlock = RawBlock(
    typ: string, text: string, id: string, name: string, input: JsonText,
    toolUseId: string, content: RawContent, isError: bool,
    cacheControl: Presence<string>, thinking: Option<string>, extra: Extra)

  /** Content is a string, an array of blocks, or (wrongly) a single block object. */
  datatype RawContent = NoContent | NullContent | Text(s: string) | Blocks(bs: seq<RawBlock>) | Single(b: RawBlock)

  datatype RawMessage = RawMessage(role: string, content: RawContent)

  datatype RawRequest = RawRequest(
    settings: Settings, messages: seq<RawMessage>, system: RawContent, tools: seq<Tool>,
    toolChoice: Option<ToolChoice>, thinking: Presence<WireThinking>, extra: Extra)

  function OrNone<T>(p: Presence<T>): Option<T> { if p.Present? then Some(p.value) else None }

  /** Unmarshalling of content; None where it is rejected. */
  function ParseContent(c: RawContent): Option<seq<WireBlock>>
    decreases c, 1
  {
    match c
    case NoContent => Some([])
    case NullContent => Some([])
    case Text(s) => Some([WireBlock("text", s, "", "", "", "", [], false, None, None, map[])])
    case Blocks(bs) => ParseBlocks(bs)
    case Single(_) => None
  }

  function ParseBlock(b: RawBlock): Option<WireBlock>
    decreases b, 0
  {
    var content := ParseContent(b.content);
    if content.None? then None
    else Some(WireBlock(b.typ, b.text, b.id, b.name, b.input, b.toolUseId, content.value, b.isError,
                        OrNone(b.cacheControl), b.thinking, b.extra))
  }

  function ParseBlocks(bs: seq<RawBlock>): (r: Option<seq<WireBlock>>)
    ensures r.Some? ==> |r.value| == |bs| && forall i | 0 <= i < |bs| :: r.value[i].cacheControl == OrNone(bs[i].cacheControl)
    decreases bs, 0
  {
    if bs == [] then Some([])
    else
      var first, rest := ParseBlock(bs[0]), ParseBlocks(bs[1..]);
      if first.None? || rest.None? then None else Some([first.value] + rest.value)
  }

  function ParseMessages(ms: seq<RawMessage>): (r: Option<seq<WireMessage>>)
    ensures r.Some? ==> |r.value| == |ms| &&
                        forall i | 0 <= i < |ms| :: ParseContent(ms[i].content) == Some(r.value[i].content)
  {
    if ms == [] then Some([])
    else
      var first, rest := ParseContent(ms[0].content), ParseMessages(ms[1..]);
      if first.None? || rest.None? then None
      else Some([WireMessage(ms[0].role, first.value)] + rest.value)
  }

  function Parse(raw: RawRequest): Option<WireRequest> {
    var messages, system := ParseMessages(raw.messages), ParseContent(raw.system);
    if messages.None? || system.None? then None
    else Some(WireRequest(raw.settings, messages.value, system.value, raw.tools, raw.toolChoice, OrNone(raw.thinking), raw.extra))
  }

  /** Content given as a string means one plain text block. */
  lemma {:induction false} StringIsTextBlock(s: string)
    ensures ParseContent(Text(s)) ==
            ParseContent(Blocks([RawBlock("text", s, "", "", "", "", NoContent, false, Absent, None, map[])]))
  {
    var b := RawBlock("text", s, "", "", "", "", NoContent, false, Absent, None, map[]);
    var none: seq<RawBlock> := [];
    var w := WireBlock("text", s, "", "", "", "", [], false, None, None, map[]);
    assert ParseBlock(b) == Some(w) by { assert ParseContent(b.content) == Some([]); }
    assert [b][0] == b && [b][1..] == none && ParseBlocks(none) == Some([]);
    assert ParseBlocks([b]) == Some([w] + []) && [w] + [] == [w];
  }

  // ---------------------------------------------------------------------- detection

  function TopBlocks(c: RawContent): seq<RawBlock> {
    match c
    case Blocks(bs) => bs
    case Single(b) => [b]
    case _ => []
  }

  /** A cache_control member counts even when it is null. */
  predicate MentionsCache(c: RawContent) {
    exists b :: b in TopBlocks(c) && b.cacheControl != Absent
  }

  predicate HasImage(c: RawContent) {
    exists b :: b in TopBlocks(c) && b.typ == "image"
  }

  predicate DetectsCache(raw: RawRequest) {
    MentionsCache(raw.system) || exists i :: 0 <= i < |raw.messages| && MentionsCache(raw.messages[i].content)
  }

  predicate DetectsImage(raw: RawRequest) {
    exists i :: 0 <= i < |raw.messages| && HasImage(raw.messages[i].content)
  }

  function If(cond: bool, name: string): seq<string> { if cond then [name] else [] }

  /** The capabilities a body asks for, in the order they are reported. */
  ghost function Detected(raw: RawRequest): seq<string> {
    If(DetectsCache(raw), "cache_control") + If(raw.thinking.Present?, "extended_thinking")
    + If(DetectsImage(raw), "vision")
  }

  lemma {:induction false} DetectedIff(raw: RawRequest)
    ensures "cache_control" in Detected(raw) <==> DetectsCache(raw)
    ensures "extended_thinking" in Detected(raw) <==> raw.thinking.Present?
    ensures "vision" in Detected(raw) <==> DetectsImage(raw)
  {
    assert "cache_control"[0] == 'c' && "extended_thinking"[0] == 'e' && "vision"[0] == 'v';
  }

  /** b is the content's one block object or stands in its array. */
  predicate TopLevel(c: RawContent, b: RawBlock) {
    (c.Blocks? && b in c.bs) || (c.Single? && b == c.b)
  }

  /** Which bodies have which capability reported. */
  ghost predicate Reports(raw: RawRequest, caps: seq<string>) {
    && ("vision" in caps <==>
          exists m, b :: m in raw.messages && TopLevel(m.content, b) && b.typ == "image")
    && ("cache_control" in caps <==>
          || (exists b :: TopLevel(raw.system, b) && b.cacheControl != Absent)
          || (exists m, b :: m in raw.messages && TopLevel(m.content, b) && b.cacheControl != Absent))
    && ("extended_thinking" in caps <==> raw.thinking.Present?)
    && forall i, j | 0 <= i < j < |caps| :: caps[i] != "vision" && caps[j] != "cache_control" && caps[i] != caps[j]
  }

  lemma {:induction false} ImageIff(raw: RawRequest)
    ensures DetectsImage(raw) <==> exists m, b :: m in raw.messages && TopLevel(m.content, b) && b.typ == "image"
  {
    if m, b :| m in raw.messages && TopLevel(m.content, b) && b.typ == "image" {
      var i :| 0 <= i < |raw.messages| && raw.messages[i] == m;
      assert b in TopBlocks(raw.messages[i].content) && HasImage(raw.messages[i].content);
    }
    if i :| 0 <= i < |raw.messages| && HasImage(raw.messages[i].content) {
      var b :| b in TopBlocks(raw.messages[i].content) && b.typ == "image";
      assert raw.messages[i] in raw.messages && TopLevel(raw.messages[i].content, b);
    }
  }

  lemma {:induction false} MentionsIff(c: RawContent)
    ensures MentionsCache(c) <==> exists b :: TopLevel(c, b) && b.cacheControl != Absent
  {
    if b :| TopLevel(c, b) && b.cacheControl != Absent { assert b in TopBlocks(c); }
    if b :| b in TopBlocks(c) && b.cacheControl != Absent { assert TopLevel(c, b); }
  }

  lemma {:induction false} CacheIff(raw: RawRequest)
    ensures DetectsCache(raw) <==>
            || (exists b :: TopLevel(raw.system, b) && b.cacheControl != Absent)
            || (exists m, b :: m in raw.messages && TopLevel(m.content, b) && b.cacheControl != Absent)
  {
    hide MentionsCache, TopLevel;
    MentionsIff(raw.system);
    forall i | 0 <= i < |raw.messages|
      ensures MentionsCache(raw.messages[i].content) <==>
              exists b :: TopLevel(raw.messages[i].content, b) && b.cacheControl != Absent
    {
      MentionsIff(raw.messages[i].content);
    }
    if m, b :| m in raw.messages && TopLevel(m.content, b) && b.cacheControl != Absent {
      var i :| 0 <= i < |raw.messages| && raw.messages[i] == m;
      assert MentionsCache(raw.messages[i].content);
    }
  }

  lemma {:induction false} DetectedOrder(raw: RawRequest)
    ensures forall i, j | 0 <= i < j < |Detected(raw)| ::
              Detected(raw)[i] != "vision" && Detected(raw)[j] != "cache_control" && Detected(raw)[i] != Detected(raw)[j]
  {
    hide DetectsImage, DetectsCache;
    var s, a := Detected(raw), If(DetectsCache(raw), "cache_control");
    var p := |a|;
    var q := p + |If(raw.thinking.Present?, "extended_thinking")|;
    assert forall i | 0 <= i < |s| :: s[i] == if i < p then "cache_control" else if i < q then "extended_thinking" else "vision";
    assert "cache_control"[0] == 'c' && "extended_thinking"[0] == 'e' && "vision"[0] == 'v';
  }

  lemma {:induction false} DetectedReports(raw: RawRequest)
    ensures Reports(raw, Detected(raw))
  {
    hide DetectsImage, DetectsCache, Detected, TopLevel;
    DetectedOrder(raw);
    DetectedIff(raw);
    ImageIff(raw);
    CacheIff(raw);
  }

  method ScanContent(c: RawContent) returns (cache: bool, image: bool)
    ensures cache == MentionsCache(c) && image == HasImage(c)
  {
    cache, image := false, false;
    var bs := TopBlocks(c);
    for i := 0 to |bs|
      invariant cache <==> exists k :: 0 <= k < i && bs[k].cacheControl != Absent
      invariant image <==> exists k :: 0 <= k < i && bs[k].typ == "image"
    {
      if bs[i].cacheControl != Absent { cache := true; }
      if bs[i].typ == "image" { image := true; }
    }
  }

  method ScanMessages(ms: seq<RawMessage>) returns (cache: bool, image: bool)
    ensures cache <==> exists k :: 0 <= k < |ms| && MentionsCache(ms[k].content)
    ensures image <==> exists k :: 0 <= k < |ms| && HasImage(ms[k].content)
  {
    cache, image := false, false;
    for i := 0 to |ms|
      invariant cache <==> exists k :: 0 <= k < i && MentionsCache(ms[k].content)
      invariant image <==> exists k :: 0 <= k < i && HasImage(ms[k].content)
    {
      var c, v := ScanContent(ms[i].content);
      cache := cache || c;
      image := image || v;
    }
  }

  method DetectCapabilities(raw: RawRequest) returns (caps: seq<string>)
    ensures caps == Detected(raw) && Reports(raw, caps)
  {
    hide Reports, MentionsCache, HasImage;
    DetectedReports(raw);
    var systemCache, _ := ScanContent(raw.system);
    var messageCache, hasImage := ScanMessages(raw.messages);
    var hasCache := systemCache || messageCache;
    assert hasCache == DetectsCache(raw) && hasImage == DetectsImage(raw);
    caps := [];
    if hasCache { caps := caps + ["cache_control"]; }
    if raw.thinking.Present? { caps := caps + ["extended_thinking"]; }
    if hasImage { caps := caps + ["vision"]; }
  }

  /** Detected capabilities that are not configured as degradable stay hard requirements. */
  method FilterDegradable(detected: seq<string>, allowed: seq<string>) returns (hard: seq<string>)
    ensures hard == Without(detected, allowed)
    ensures forall c :: c in hard <==> c in detected && c !in allowed
  {
    forall c ensures c in Without(detected, allowed) <==> c in detected && c !in allowed { WithoutMember(detected, allowed, c); }
    if |allowed| == 0 {
      WithoutNothing(detected);
      return detected;
    }
    hard := [];
    for i := 0 to |detected|
      invariant hard == Without(detected[..i], allowed)
    {
      assert detected[..i + 1][..i] == detected[..i];
      if detected[i] !in allowed { hard := hard + [detected[i]]; }
    }
    assert detected[..|detected|] == detected;
  }

  /** The items not in dropped, in order. */
  function Without(items: seq<string>, dropped: seq<string>): seq<string> {
    if items == [] then []
    else
      var n := |items| - 1;
      Without(items[..n], dropped) + (if items[n] in dropped then [] else [items[n]])
  }

  lemma {:induction false} WithoutMember(items: seq<string>, dropped: seq<string>, c: string)
    ensures c in Without(items, dropped) <==> c in items && c !in dropped
    decreases |items|
  {
    if items != [] {
      WithoutMember(items[..|items| - 1], dropped, c);
      assert items == items[..|items| - 1] + [items[|items| - 1]];
    }
  }

  lemma {:induction false} WithoutNothing(items: seq<string>)
    ensures Without(items, []) == items
    decreases |items|
  {
    if items != [] { WithoutNothing(items[..|items| - 1]); }
  }

  // ---------------------------------------------------------------------- stripping

  function Cleared(b: IrBlock): IrBlock { b.(cacheControl := None) }

  function ClearAll(bs: seq<IrBlock>): seq<IrBlock> { seq(|bs|, i requires 0 <= i < |bs| => Cleared(bs[i])) }

  function ClearMessages(ms: seq<IrMessage>): seq<IrMessage> {
    seq(|ms|, i requires 0 <= i < |ms| => ms[i].(content := ClearAll(ms[i].content)))
  }

  predicate Marked(bs: seq<IrBlock>) { exists i :: 0 <= i < |bs| && bs[i].cacheControl.Some? }

  predicate AnyMarked(r: IrRequest) {
    Marked(r.system) || exists i :: 0 <= i < |r.messages| && Marked(r.messages[i].content)
  }

  predicate Thinks(r: IrRequest) { r.thinking.Some? && r.thinking.value.enabled }

  function Stripped(r: IrRequest): IrRequest {
    r.(messages := ClearMessages(r.messages), system := ClearAll(r.system),
       thinking := if Thinks(r) then None else r.thinking)
  }

  ghost function StrippedFeatures(r: IrRequest): seq<string> {
    If(Thinks(r), "extended_thinking") + If(AnyMarked(r), "cache_control")
  }

  /** The blocks are the same in every field, except that none is marked any more. */
  ghost predicate BlocksKept(before: seq<IrBlock>, after: seq<IrBlock>) {
    |after| == |before| && forall i | 0 <= i < |before| ::
      && after[i].cacheControl.None?
      && after[i].typ == before[i].typ && after[i].text == before[i].text && after[i].thinking == before[i].thinking
      && after[i].toolUse == before[i].toolUse && after[i].toolResult == before[i].toolResult
  }

  /** Stripping changes the marks of top-level blocks and an enabled thinking setting, and nothing else. */
  ghost predicate OnlyMarksCleared(before: IrRequest, after: IrRequest) {
    && after.settings == before.settings && after.tools == before.tools && after.toolChoice == before.toolChoice
    && after.thinking == (if before.thinking.Some? && before.thinking.value.enabled then None else before.thinking)
    && BlocksKept(before.system, after.system)
    && |after.messages| == |before.messages|
    && forall i | 0 <= i < |before.messages| ::
         after.messages[i].role == before.messages[i].role && BlocksKept(before.messages[i].content, after.messages[i].content)
  }

  lemma {:induction false} StrippedKeeps(r: IrRequest)
    ensures OnlyMarksCleared(r, Stripped(r))
  {
  }

  class RequestBuffer {
    const settings: Settings
    var messages: seq<IrMessage>
    var system: seq<IrBlock>
    var tools: seq<Tool>
    var toolChoice: Option<ToolChoice>
    var thinking: Option<ThinkingSpec>

    constructor (r: IrRequest)
      ensures Now() == r
    {
      settings, messages, system, tools := r.settings, r.messages, r.system, r.tools;
      toolChoice, thinking := r.toolChoice, r.thinking;
    }

    ghost function Now(): IrRequest
      reads this
    {
      IrRequest(settings, messages, system, tools, toolChoice, thinking)
    }

    /** Clears the cache marks of message i, block by block. */
    method StripMessage(i: nat) returns (found: bool)
      requires i < |messages|
      modifies this`messages
      ensures messages == old(messages)[i := old(messages)[i].(content := ClearAll(old(messages)[i].content))]
      ensures found == Marked(old(messages)[i].content)
    {
      found := false;
      ghost var before, was := messages, messages[i].content;
      var j := 0;
      while j < |messages[i].content|
        invariant |messages| == |before| && forall m | 0 <= m < |before| && m != i :: messages[m] == before[m]
        invariant messages[i] == before[i].(content := messages[i].content)
        invariant 0 <= j <= |was| == |messages[i].content|
        invariant forall k | 0 <= k < |was| :: messages[i].content[k] == if k < j then Cleared(was[k]) else was[k]
        invariant found <==> exists k :: 0 <= k < j && was[k].cacheControl.Some?
      {
        var content := messages[i].content;
        if content[j].cacheControl.Some? {
          found := true;
          content := content[j := Cleared(content[j])];
          messages := messages[i := messages[i].(content := content)];
        }
        j := j + 1;
      }
      assert messages[i].content == ClearAll(was);
    }

    method StripAnthropicFeatures() returns (degraded: seq<string>)
      modifies this
      ensures Now() == Stripped(old(Now()))
      ensures degraded == StrippedFeatures(old(Now()))
      ensures OnlyMarksCleared(old(Now()), Now())
    {
      StrippedKeeps(Now());
      degraded := [];
      if thinking.Some? && thinking.value.enabled {
        degraded := degraded + ["extended_thinking"];
        thinking := None;
      }
      ghost var r := old(Now());
      var cache := false;
      var i := 0;
      while i < |messages|
        invariant 0 <= i <= |r.messages| == |messages|
        invariant forall k | 0 <= k < |messages| ::
                    messages[k] == if k < i then r.messages[k].(content := ClearAll(r.messages[k].content)) else r.messages[k]
        invariant cache <==> exists k :: 0 <= k < i && Marked(r.messages[k].content)
        invariant system == r.system && tools == r.tools && toolChoice == r.toolChoice
        invariant thinking == if Thinks(r) then None else r.thinking
      {
        var found := StripMessage(i);
        cache := cache || found;
        i := i + 1;
      }
      assert messages == ClearMessages(r.messages);
      var systemCache := StripSystem();
      if cache || systemCache { degraded := degraded + ["cache_control"]; }
    }

    method StripSystem() returns (found: bool)
      modifies this`system
      ensures system == ClearAll(old(system)) && found == Marked(old(system))
    {
      found := false;
      ghost var was := system;
      var i := 0;
      while i < |system|
        invariant 0 <= i <= |was| == |system|
        invariant forall k | 0 <= k < |was| :: system[k] == if k < i then Cleared(was[k]) else was[k]
        invariant found <==> exists k :: 0 <= k < i && was[k].cacheControl.Some?
      {
        if system[i].cacheControl.Some? {
          found := true;
          system := system[i := Cleared(system[i])];
        }
        i := i + 1;
      }
    }
  }

  // -------------------------------------------------------- detection meets stripping

  /** Some top-level block gives a cache_control that is not null. */
  predicate GivesCache(c: RawContent) {
    exists b :: b in TopBlocks(c) && b.cacheControl.Present?
  }

  predicate AnyGivesCache(raw: RawRequest) {
    GivesCache(raw.system) || exists i :: 0 <= i < |raw.messages| && GivesCache(raw.messages[i].content)
  }

  lemma {:induction false} MarkedIff(c: RawContent, k: Codec)
    requires ParseContent(c).Some?
    ensures Marked(ToIrs(ParseContent(c).value, k)) <==> GivesCache(c)
  {
    var ws := ParseContent(c).value;
    forall i | 0 <= i < |ws| ensures ToIrs(ws, k)[i].cacheControl.Some? <==> ws[i].cacheControl.Some? { ToIrsAt(ws, k, i); }
    if c.Blocks? {
      assert forall i | 0 <= i < |ws| :: ws[i].cacheControl.Some? <==> c.bs[i].cacheControl.Present?;
      if GivesCache(c) {
        var b :| b in c.bs && b.cacheControl.Present?;
        var i :| 0 <= i < |c.bs| && c.bs[i] == b;
        assert ToIrs(ws, k)[i].cacheControl.Some?;
      }
    }
  }

  /** The IR request egress works on. */
  function IrOf(raw: RawRequest, k: Codec): IrRequest
    requires Parse(raw).Some?
  {
    RequestToIr(Parse(raw).value, k)
  }

  lemma {:induction false} AnyMarkedIff(raw: RawRequest, k: Codec)
    requires Parse(raw).Some?
    ensures AnyMarked(IrOf(raw, k)) <==> AnyGivesCache(raw)
  {
    var w := Parse(raw).value;
    MarkedIff(raw.system, k);
    forall i | 0 <= i < |raw.messages|
      ensures Marked(IrOf(raw, k).messages[i].content) <==> GivesCache(raw.messages[i].content)
    {
      MessagesToIrAt(w.messages, k, i);
      MarkedIff(raw.messages[i].content, k);
    }
    assert |IrOf(raw, k).messages| == |raw.messages|;
  }

  lemma {:induction false} GivenIsMentioned(raw: RawRequest)
    ensures AnyGivesCache(raw) ==> DetectsCache(raw)
  {
    if i :| 0 <= i < |raw.messages| && GivesCache(raw.messages[i].content) {
      assert MentionsCache(raw.messages[i].content);
    }
  }

  /**
   Everything egress strips was detected at ingress. Thinking agrees both ways; a cache_control
   that was detected is stripped iff some top-level block gives one that is not null.
   */
  lemma {:induction false} StrippedWasDetected(raw: RawRequest, k: Codec)
    requires Parse(raw).Some?
    ensures var d, s := Detected(raw), StrippedFeatures(IrOf(raw, k));
            && (forall f | f in s :: f in d)
            && ("extended_thinking" in s <==> "extended_thinking" in d)
            && ("cache_control" in s <==> AnyGivesCache(raw))
            && ("cache_control" in d <==> DetectsCache(raw))
  {
    AnyMarkedIff(raw, k);
    GivenIsMentioned(raw);
    assert Thinks(IrOf(raw, k)) <==> raw.thinking.Present?;
    assert "cache_control" != "extended_thinking" && "vision" != "cache_control" && "vision" != "extended_thinking";
  }

  lemma {:induction false} StripsTwo(r: IrRequest, f: string)
    requires f in StrippedFeatures(r)
    ensures f == "cache_control" || f == "extended_thinking"
    ensures f != "tools" && f != "vision" && f != "streaming" && "cache_control" != "extended_thinking"
  {
    assert f[0] == 'c' || f[0] == 'e';
    assert "cache_control"[0] == 'c';
  }

  /** The decision routing sees: the hard requirements are added to it. */
  ghost function Constrained(d: Decision, hard: seq<string>): Decision {
    d.(requiredCapabilities := Union(d.requiredCapabilities, hard))
  }

  /**
   For a request of the Anthropic protocol routed to any chain: each feature egress would strip is
   either configured as degradable or supported by every member of the chain, by its pricing row.
   */
  lemma {:induction false} StrippedIsAllowedOrSupported(raw: RawRequest, k: Codec, d: Decision, allowed: seq<string>, hard: seq<string>,
                                     s: Selector.Setup, pool: string, traceId: string, attemptNo: int,
                                     m: Routing.Member, f: string)
    requires Parse(raw).Some?
    requires forall c :: c in hard <==> c in Detected(raw) && c !in allowed
    requires s.Built(pool, Some(Constrained(d, hard)), traceId, attemptNo).Chain?
    requires m in s.Built(pool, Some(Constrained(d, hard)), traceId, attemptNo).members
    requires f in StrippedFeatures(IrOf(raw, k))
    ensures f in allowed ||
            (s.pricing.Some? && exists row ::
               Config.Lookup(s.pricing.value.models, m.vendorId, m.model) == Some(row) &&
               (if f == "cache_control" then row.capabilities.cacheControl else row.capabilities.extendedThinking))
  {
    StrippedWasDetected(raw, k);
    UnionElements(d.requiredCapabilities, hard);
    if f !in allowed {
      assert f in hard && f in Elements(hard);
      assert f in Constrained(d, hard).requiredCapabilities;
      Selector.ChainOffers(s, pool, Constrained(d, hard), traceId, attemptNo, m, f);
      StripsTwo(IrOf(raw, k), f);
    }
  }

  // ----------------------------------------------------------------- emitted request

  function RawBlockOf(w: WireBlock): RawBlock {
    RawBlock(w.typ, w.text, w.id, w.name, w.input, w.toolUseId,
             if w.content == [] then NoContent else Blocks(RawBlocksOf(w.content)), w.isError,
             if w.cacheControl.Some? then Present(w.cacheControl.value) else Absent, w.thinking, w.extra)
  }

  function RawBlocksOf(ws: seq<WireBlock>): (r: seq<RawBlock>)
    ensures |r| == |ws|
  {
    if ws == [] then [] else [RawBlockOf(ws[0])] + RawBlocksOf(ws[1..])
  }

  function RawMessagesOf(ms: seq<WireMessage>): (r: seq<RawMessage>)
    ensures |r| == |ms|
  {
    if ms == [] then []
    else [RawMessage(ms[0].role, if ms[0].content == [] then NullContent else Blocks(RawBlocksOf(ms[0].content)))]
         + RawMessagesOf(ms[1..])
  }

  /** The JSON an Anthropic-compatible provider receives: empty fields omitted, nil content null. */
  function Emitted(r: IrRequest, k: Codec): RawRequest {
    var w := RequestToWire(r, k);
    RawRequest(w.settings, RawMessagesOf(w.messages), if w.system == [] then NoContent else Blocks(RawBlocksOf(w.system)),
               w.tools, w.toolChoice, if w.thinking.Some? then Present(w.thinking.value) else Absent, w.extra)
  }

  lemma {:induction false} BlockParses(w: WireBlock)
    ensures ParseBlock(RawBlockOf(w)) == Some(w)
    decreases w, 0
  {
    if w.content != [] { BlocksParse(w.content); }
  }

  lemma {:induction false} BlocksParse(ws: seq<WireBlock>)
    ensures ParseBlocks(RawBlocksOf(ws)) == Some(ws)
    decreases ws, 1
  {
    if ws != [] {
      hide *;
      BlockParses(ws[0]);
      BlocksParse(ws[1..]);
      RawBlocksStep(ws);
      ParseBlocksStep(RawBlocksOf(ws), ws[0], ws[1..]);
      assert ws == [ws[0]] + ws[1..];
    }
  }

  lemma {:induction false} RawBlocksStep(ws: seq<WireBlock>)
    requires ws != []
    ensures var bs := RawBlocksOf(ws); bs != [] && bs[0] == RawBlockOf(ws[0]) && bs[1..] == RawBlocksOf(ws[1..])
  {
  }

  lemma {:induction false} ParseBlocksStep(bs: seq<RawBlock>, w: WireBlock, ws: seq<WireBlock>)
    requires bs != [] && ParseBlock(bs[0]) == Some(w) && ParseBlocks(bs[1..]) == Some(ws)
    ensures ParseBlocks(bs) == Some([w] + ws)
  {
  }

  lemma {:induction false} MessagesParse(ms: seq<WireMessage>)
    ensures ParseMessages(RawMessagesOf(ms)) == Some(ms)
    decreases |ms|
  {
    if ms != [] {
      BlocksParse(ms[0].content);
      MessagesParse(ms[1..]);
      assert RawMessagesOf(ms)[1..] == RawMessagesOf(ms[1..]);
      assert ParseContent(RawMessagesOf(ms)[0].content) == Some(ms[0].content);
      assert ms == [ms[0]] + ms[1..];
    }
  }

  /** What egress emits parses back to the wire request it was emitted for, at every depth. */
  lemma {:induction false} EmittedParses(r: IrRequest, k: Codec)
    ensures Parse(Emitted(r, k)) == Some(RequestToWire(r, k))
  {
    var w := RequestToWire(r, k);
    MessagesParse(w.messages);
    BlocksParse(w.system);
  }

  lemma {:induction false} ClearedEmits(bs: seq<IrBlock>, k: Codec, b: RawBlock)
    requires forall i | 0 <= i < |bs| :: bs[i].cacheControl.None?
    requires b in RawBlocksOf(ToWires(bs, k))
    ensures b.cacheControl == Absent
    decreases |bs|
  {
    var ws := ToWires(bs, k);
    assert RawBlocksOf(ws) == [RawBlockOf(ws[0])] + RawBlocksOf(ws[1..]);
    if b != RawBlockOf(ws[0]) {
      assert ws[1..] == ToWires(bs[1..], k);
      ClearedEmits(bs[1..], k, b);
    }
  }

  lemma {:induction false} MessageEmits(ms: seq<IrMessage>, k: Codec, i: nat)
    requires i < |ms|
    ensures RawMessagesOf(MessagesToWire(ms, k))[i].content ==
            (if ms[i].content == [] then NullContent else Blocks(RawBlocksOf(ToWires(ms[i].content, k))))
    decreases i
  {
    if i > 0 {
      MessageEmits(ms[1..], k, i - 1);
      assert MessagesToWire(ms, k)[1..] == MessagesToWire(ms[1..], k);
    }
  }

  /** Detecting on what egress emits after stripping finds neither feature again. */
  lemma {:induction false} RedetectsNothing(raw: RawRequest, k: Codec)
    requires Parse(raw).Some?
    ensures var d := Detected(Emitted(Stripped(IrOf(raw, k)), k));
            "cache_control" !in d && "extended_thinking" !in d
  {
    var s := Stripped(IrOf(raw, k));
    NoCacheEmitted(s, k);
    DetectedIff(Emitted(s, k));
  }

  lemma {:induction false} NoCacheEmitted(s: IrRequest, k: Codec)
    requires !AnyMarked(s)
    ensures !DetectsCache(Emitted(s, k))
  {
    var e := Emitted(s, k);
    forall b | b in TopBlocks(e.system) ensures b.cacheControl == Absent { ClearedEmits(s.system, k, b); }
    forall i | 0 <= i < |e.messages| ensures !MentionsCache(e.messages[i].content) {
      MessageEmits(s.messages, k, i);
      forall b | b in TopBlocks(e.messages[i].content) ensures b.cacheControl == Absent {
        ClearedEmits(s.messages[i].content, k, b);
      }
    }
  }

  // ------------------------------------------------------------------ nested blocks

  /** A cache mark at some depth below the block: inside a tool result. */
  predicate MarkedBelow(b: IrBlock) {
    b.toolResult.Some? && MarkedDeep(b.toolResult.value.content)
  }

  /** A cache mark on one of the blocks or below. */
  predicate MarkedDeep(bs: seq<IrBlock>) {
    bs != [] && (bs[0].cacheControl.Some? || MarkedBelow(bs[0]) || MarkedDeep(bs[1..]))
  }

  lemma {:induction false} DeepAfterClear(bs: seq<IrBlock>)
    ensures MarkedDeep(ClearAll(bs)) <==> exists i :: 0 <= i < |bs| && MarkedBelow(bs[i])
    decreases |bs|
  {
    if bs != [] {
      DeepAfterClear(bs[1..]);
      assert ClearAll(bs)[1..] == ClearAll(bs[1..]);
      assert forall i | 1 <= i < |bs| :: bs[i] == bs[1..][i - 1];
      assert forall i | 0 <= i < |bs[1..]| :: bs[1..][i] == bs[i + 1];
    }
  }

  /**
   Stripping reaches only the top level: a cache mark survives it iff one was nested inside a
   tool result of the system or of a message.
   */
  lemma {:induction false} SurvivingMarksIff(r: IrRequest)
    ensures HoldsMark(Stripped(r)) <==> HoldsNestedMark(r)
  {
    DeepAfterClear(r.system);
    forall i | 0 <= i < |r.messages|
      ensures MarkedDeep(Stripped(r).messages[i].content) <==>
              exists j :: 0 <= j < |r.messages[i].content| && MarkedBelow(r.messages[i].content[j])
    {
      DeepAfterClear(r.messages[i].content);
    }
  }

  /** A thinking block at some depth below the block. */
  predicate ThinkingBelow(b: IrBlock) {
    b.toolResult.Some? && ThinkingDeep(b.toolResult.value.content)
  }

  /** A thinking block among the blocks or below. */
  predicate ThinkingDeep(bs: seq<IrBlock>) {
    bs != [] && (bs[0].typ == "thinking" || ThinkingBelow(bs[0]) || ThinkingDeep(bs[1..]))
  }

  lemma {:induction false} ThinkingAfterClear(bs: seq<IrBlock>)
    ensures ThinkingDeep(ClearAll(bs)) <==> ThinkingDeep(bs)
    decreases |bs|
  {
    if bs != [] {
      ThinkingAfterClear(bs[1..]);
      assert ClearAll(bs)[1..] == ClearAll(bs[1..]);
      assert ClearAll(bs)[0].toolResult == bs[0].toolResult;
    }
  }

  ghost predicate HoldsMark(r: IrRequest) {
    MarkedDeep(r.system) || exists i :: 0 <= i < |r.messages| && MarkedDeep(r.messages[i].content)
  }

  ghost predicate HoldsNestedMark(r: IrRequest) {
    (exists j :: 0 <= j < |r.system| && MarkedBelow(r.system[j])) ||
    exists i, j :: 0 <= i < |r.messages| && 0 <= j < |r.messages[i].content| && MarkedBelow(r.messages[i].content[j])
  }

  ghost predicate HoldsThinking(r: IrRequest) {
    ThinkingDeep(r.system) || exists i :: 0 <= i < |r.messages| && ThinkingDeep(r.messages[i].content)
  }

  lemma {:induction false} SurvivingThinkingIff(r: IrRequest)
    ensures HoldsThinking(Stripped(r)) <==> HoldsThinking(r)
  {
    ThinkingAfterClear(r.system);
    forall i | 0 <= i < |r.messages|
      ensures ThinkingDeep(Stripped(r).messages[i].content) <==> ThinkingDeep(r.messages[i].content)
    {
      ThinkingAfterClear(r.messages[i].content);
    }
  }

  /**
   The documented promise, no cache mark and no thinking in any content block or in the request,
   holds of the stripped request iff no mark was nested inside a tool result and no content block,
   at any depth, was a thinking block.
   */
  lemma {:induction false} StrippedCleanIff(r: IrRequest)
    ensures var s := Stripped(r);
            !HoldsMark(s) && !HoldsThinking(s) && !Thinks(s) <==> !HoldsNestedMark(r) && !HoldsThinking(r)
  {
    SurvivingMarksIff(r);
    SurvivingThinkingIff(r);
  }

  /** A thinking block survives stripping, and nothing is reported. */
  lemma {:induction false} ThinkingBlockSurvives(settings: Settings)
    ensures var block := IrBlock("thinking", "", None, None, Some("hm"), None);
            var r := IrRequest(settings, [IrMessage("assistant", [block])], [], [], None, None);
            StrippedFeatures(r) == [] && Stripped(r).messages[0].content == [block]
  {
    var block := IrBlock("thinking", "", None, None, Some("hm"), None);
    assert [block][0] == block;
    assert ClearAll([block]) == [block];
  }

  /** A mark inside a tool result survives stripping, and nothing is reported. */
  lemma {:induction false} NestedMarkSurvives(settings: Settings)
    ensures var marked := IrBlock("text", "x", None, None, None, Some(CacheControl("ephemeral", "")));
            var result := IrBlock("tool_result", "", None, Some(ToolResult("t", [marked], false)), None, None);
            var r := IrRequest(settings, [IrMessage("user", [result])], [], [], None, None);
            StrippedFeatures(r) == [] && MarkedDeep(Stripped(r).messages[0].content)
  {
    var marked := IrBlock("text", "x", None, None, None, Some(CacheControl("ephemeral", "")));
    var result := IrBlock("tool_result", "", None, Some(ToolResult("t", [marked], false)), None, None);
    assert MarkedBelow(result);
    DeepAfterClear([result]);
    assert [result][0] == result;
  }

  /** A null cache_control is a hard requirement and is not stripped. */
  lemma {:induction false} NullMarkDetected(settings: Settings, k: Codec)
    ensures var b := RawBlock("text", "x", "", "", "", "", NoContent, false, Null, None, map[]);
            var raw := RawRequest(settings, [RawMessage("user", Blocks([b]))], NoContent, [], None, Absent, map[]);
            Parse(raw).Some? && "cache_control" in Detected(raw) && "cache_control" !in StrippedFeatures(IrOf(raw, k))
  {
    var b := RawBlock("text", "x", "", "", "", "", NoContent, false, Null, None, map[]);
    var raw := RawRequest(settings, [RawMessage("user", Blocks([b]))], NoContent, [], None, Absent, map[]);
    assert b in TopBlocks(raw.messages[0].content);
    assert ParseBlock(b).Some? by { assert ParseContent(b.content).Some?; }
    assert ParseBlocks([b]).Some? by { assert [b][1..] == [] && [b][0] == b; }
    assert ParseContent(raw.messages[0].content).Some?;
    var none: seq<RawMessage> := [];
    assert raw.messages[1..] == none && ParseMessages(none).Some?;
    assert ParseMessages(raw.messages).Some? && ParseContent(raw.system).Some?;
    assert !AnyGivesCache(raw);
    StrippedWasDetected(raw, k);
  }
}
