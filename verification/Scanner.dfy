/** The buffered path: a line scanner with the frame split function and its fixed buffer. */
module Scanner {
  import opened Common
  import opened SseFrames

  /** The scanner split function of the non-streaming path: bytes consumed and token, if any. */
  function SplitFunc(data: Bytes, atEof: bool): (r: (nat, Option<Bytes>))
    ensures r.0 <= |data|
  {
    if atEof && |data| == 0 then (0, None)
    else
      var i := Delim(data);
      if i >= 0 then (i + 2, Some(data[..i]))
      else if atEof then (|data|, Some(data))
      else (0, None)
  }

  /** The scanner's buffer: a token and its delimiter have to fit, and reading on needs room. */
  const MAX_TOKEN := 65536

  datatype ScanResult = ScanResult(tokens: seq<Bytes>, clean: bool)

  /** What a scanner hands out when its input arrives in these chunks, and whether it reaches the end. */
  function Scan(window: Bytes, chunks: seq<Bytes>): ScanResult
    requires |window| <= MAX_TOKEN
    decreases |Flatten(chunks)|, |chunks|, |window|
  {
    var (advance, token) := SplitFunc(window, false);
    if token.Some? then
      var more := Scan(window[advance..], chunks);
      ScanResult([token.value] + more.tokens, more.clean)
    else if |window| == MAX_TOKEN then ScanResult([], false)
    else if chunks == [] then
      var last := SplitFunc(window, true).1;
      ScanResult(if last.Some? then [last.value] else [], true)
    else
      var room := MAX_TOKEN - |window|;
      if |chunks[0]| <= room then Scan(window + chunks[0], chunks[1..])
      else
        assert Flatten(Later(chunks, room)) == chunks[0][room..] + Flatten(chunks[1..]);
        Scan(window + chunks[0][..room], Later(chunks, room))
  }

  /** What is left of the chunks when a read had room for part of the first only. */
  function Later(chunks: seq<Bytes>, room: nat): (r: seq<Bytes>)
    requires chunks != [] && room <= |chunks[0]|
    ensures Flatten(r) == chunks[0][room..] + Flatten(chunks[1..])
  {
    var r := [chunks[0][room..]] + chunks[1..];
    assert r[1..] == chunks[1..];
    r
  }

  /** Every complete frame fits with its delimiter, and the rest leaves room. */
  predicate FitsScanner(s: Bytes) {
    (forall f | f in Complete(s) :: |f| + 2 <= MAX_TOKEN) && |Residual(s)| < MAX_TOKEN
  }

  lemma {:induction false} FullWindow(window: Bytes, rest: Bytes)
    requires |window| == MAX_TOKEN && Delim(window) < 0
    ensures !FitsScanner(window + rest)
  {
    var s := window + rest;
    var k := Delim(s);
    if k >= 0 {
      assert k + 1 < MAX_TOKEN ==> DelimAt(window, k);
      assert s[..k] in Complete(s);
    }
  }

  lemma {:induction false} TakeFits(window: Bytes, rest: Bytes)
    requires |window| <= MAX_TOKEN && Delim(window) >= 0
    ensures FitsScanner(window + rest) <==> FitsScanner(window[Delim(window) + 2..] + rest)
  {
    var i := Delim(window);
    DelimAppend(window, rest);
    FrameStep(window + rest);
    TakeFrame(window, rest);
    assert (window + rest)[i + 2..] == window[i + 2..] + rest;
  }

  /** A frame as long as the buffer stops the scanner, which hands out nothing. */
  lemma {:induction false} LongFrameStopsScanner(s: Bytes)
    requires |s| == MAX_TOKEN && forall i | 0 <= i < |s| :: s[i] == 'x'
    ensures Scan([], [s]) == ScanResult([], false) && Frames(s) == [s]
  {
    assert forall k :: !DelimAt(s, k);
    UnterminatedFrames(s);
    assert [] + s == s && [s][1..] == [];
    assert Scan(s, []) == ScanResult([], false);
  }

  lemma {:induction false} ScanStep(window: Bytes, chunks: seq<Bytes>)
    requires |window| < MAX_TOKEN && Delim(window) < 0 && chunks != []
    ensures var room := MAX_TOKEN - |window|;
            window + Flatten(chunks) ==
            if |chunks[0]| <= room then window + chunks[0] + Flatten(chunks[1..])
            else window + chunks[0][..room] + Flatten(Later(chunks, room))
  {
    var room := MAX_TOKEN - |window|;
    if |chunks[0]| > room { assert chunks[0] == chunks[0][..room] + chunks[0][room..]; }
  }

  /**
   For every stream and every chunking: the scanner reaches the end iff every frame fits its
   buffer; then it hands out the frame reader's frames, and otherwise a prefix of them.
   */
  lemma {:induction false} ScanIff(window: Bytes, chunks: seq<Bytes>)
    requires |window| <= MAX_TOKEN
    ensures var all, r := window + Flatten(chunks), Scan(window, chunks);
            && (r.clean <==> FitsScanner(all))
            && (r.clean ==> r.tokens == Frames(all))
            && r.tokens <= Frames(all)
    decreases |Flatten(chunks)|, |chunks|, |window|
  {
    var i := Delim(window);
    if i >= 0 {
      TakeFrame(window, Flatten(chunks));
      TakeFits(window, Flatten(chunks));
      ScanIff(window[i + 2..], chunks);
    } else if |window| == MAX_TOKEN {
      FullWindow(window, Flatten(chunks));
    } else if chunks == [] {
      UnterminatedFrames(window);
      assert window + [] == window;
    } else {
      ScanStep(window, chunks);
      var room := MAX_TOKEN - |window|;
      if |chunks[0]| <= room {
        ScanIff(window + chunks[0], chunks[1..]);
      } else {
        ScanIff(window + chunks[0][..room], Later(chunks, room));
      }
    }
  }
}
