/**
 Server-sent-event framing as the local proxy does it: frames end at the leftmost "\n\n",
 whatever the read boundaries. A byte is a char; the code only compares bytes for equality
 with ASCII constants.
 */
module SseFrames {
  import opened Common

  type Bytes = string

  // ------------------------------------------------------------------- delimiter

  predicate DelimAt(s: Bytes, k: int) {
    0 <= k < |s| - 1 && s[k] == '\n' && s[k + 1] == '\n'
  }

  /** Index of the leftmost "\n\n", or -1. */
  function Delim(s: Bytes): (i: int)
    ensures -1 <= i
    ensures i >= 0 ==> DelimAt(s, i)
    ensures forall k :: 0 <= k && (i < 0 || k < i) ==> !DelimAt(s, k)
  {
    DelimFrom(s, 0)
  }

  function DelimFrom(s: Bytes, from: nat): (i: int)
    ensures i == -1 || from <= i
    ensures i >= 0 ==> DelimAt(s, i)
    ensures forall k :: from <= k && (i < 0 || k < i) ==> !DelimAt(s, k)
    decreases |s| - from
  {
    if |s| < from + 2 then -1 else if DelimAt(s, from) then from else DelimFrom(s, from + 1)
  }

  lemma {:induction false} DelimIs(s: Bytes, i: int)
    requires DelimAt(s, i) && forall k | 0 <= k < i :: !DelimAt(s, k)
    ensures Delim(s) == i
  {
    assert !DelimAt(s, Delim(s)) || Delim(s) >= i;
  }

  lemma {:induction false} DelimAppend(a: Bytes, b: Bytes)
    requires Delim(a) >= 0
    ensures Delim(a + b) == Delim(a)
  {
    forall k | 0 <= k < Delim(a) ensures !DelimAt(a + b, k) { assert !DelimAt(a, k); }
    DelimIs(a + b, Delim(a));
  }

  // ---------------------------------------------------------------------- frames

  /** The frames that "\n\n" terminates, leftmost delimiter first. */
  function Complete(s: Bytes): seq<Bytes>
    decreases |s|
  {
    var i := Delim(s);
    if i < 0 then [] else [s[..i]] + Complete(s[i + 2..])
  }

  /** What follows the last terminated frame. */
  function Residual(s: Bytes): (r: Bytes)
    ensures Delim(r) < 0
    decreases |s|
  {
    if Delim(s) < 0 then s else Residual(s[Delim(s) + 2..])
  }

  /** All frames of a finished stream: an unterminated rest counts unless it is empty. */
  function Frames(s: Bytes): seq<Bytes> {
    Complete(s) + (if Residual(s) == [] then [] else [Residual(s)])
  }

  lemma {:induction false} FrameStep(s: Bytes)
    requires Delim(s) >= 0
    ensures var i := Delim(s);
            && Complete(s) == [s[..i]] + Complete(s[i + 2..])
            && Residual(s) == Residual(s[i + 2..])
            && Frames(s) == [s[..i]] + Frames(s[i + 2..])
  {
    var i := Delim(s);
    assert Residual(s) == Residual(s[i + 2..]);
    Prepend(s[..i], Complete(s[i + 2..]), if Residual(s) == [] then [] else [Residual(s)]);
  }

  lemma {:induction false} Prepend(f: Bytes, fs: seq<Bytes>, tail: seq<Bytes>)
    ensures [f] + fs + tail == [f] + (fs + tail)
  {
  }

  lemma {:induction false} SplitAppend(a: Bytes, b: Bytes)
    ensures Complete(a + b) == Complete(a) + Complete(Residual(a) + b)
    ensures Residual(a + b) == Residual(Residual(a) + b)
    decreases |a|
  {
    var i := Delim(a);
    if i >= 0 {
      DelimAppend(a, b);
      assert (a + b)[..i] == a[..i];
      assert (a + b)[i + 2..] == a[i + 2..] + b;
      SplitAppend(a[i + 2..], b);
    }
  }

  /** A frame body that can be followed by "\n\n" and read back: no delimiter, no final newline. */
  predicate Closed(f: Bytes) {
    Delim(f) < 0 && (f != [] ==> f[|f| - 1] != '\n')
  }

  /** Frames as they are written: each followed by "\n\n". */
  function Join(fs: seq<Bytes>): Bytes {
    if fs == [] then [] else fs[0] + "\n\n" + Join(fs[1..])
  }

  lemma {:induction false} JoinConcat(a: seq<Bytes>, b: seq<Bytes>)
    ensures Join(a + b) == Join(a) + Join(b)
    decreases |a|
  {
    if a == [] {
      assert a + b == b;
    } else {
      assert (a + b)[1..] == a[1..] + b;
      JoinConcat(a[1..], b);
    }
  }

  lemma {:induction false} CompleteClosed(s: Bytes)
    ensures forall f | f in Complete(s) :: Closed(f)
    decreases |s|
  {
    var i := Delim(s);
    if i >= 0 {
      var f := s[..i];
      assert forall k :: DelimAt(f, k) ==> DelimAt(s, k);
      assert !DelimAt(s, i - 1);
      CompleteClosed(s[i + 2..]);
    }
  }

  lemma {:induction false} Reassemble(s: Bytes)
    ensures s == Join(Complete(s)) + Residual(s)
    decreases |s|
  {
    var i := Delim(s);
    if i >= 0 {
      Reassemble(s[i + 2..]);
      FrameStep(s);
      assert Complete(s)[1..] == Complete(s[i + 2..]);
      JoinUnfold(Complete(s), Residual(s));
      AroundDelim(s, i);
    }
  }

  lemma {:induction false} AroundDelim(s: Bytes, i: int)
    requires DelimAt(s, i)
    ensures s == s[..i] + "\n\n" + s[i + 2..]
  {
  }

  lemma {:induction false} ClosedDelim(f: Bytes, t: Bytes)
    requires Closed(f)
    ensures Delim(f + "\n\n" + t) == |f|
  {
    var s := f + "\n\n" + t;
    forall k | 0 <= k < |f| ensures !DelimAt(s, k) { assert !DelimAt(f, k); }
    DelimIs(s, |f|);
  }

  lemma {:induction false} SplitClosed(f: Bytes, t: Bytes)
    requires Closed(f)
    ensures Complete(f + "\n\n" + t) == [f] + Complete(t)
    ensures Residual(f + "\n\n" + t) == Residual(t)
    ensures Frames(f + "\n\n" + t) == [f] + Frames(t)
  {
    var s := f + "\n\n" + t;
    ClosedDelim(f, t);
    FrameStep(s);
    assert s[..|f|] == f && s[|f| + 2..] == t;
  }

  lemma {:induction false} JoinUnfold(fs: seq<Bytes>, t: Bytes)
    requires fs != []
    ensures Join(fs) + t == fs[0] + "\n\n" + (Join(fs[1..]) + t)
  {
  }

  lemma {:induction false} Cons<T>(s: seq<T>, t: seq<T>)
    requires s != []
    ensures s + t == [s[0]] + (s[1..] + t)
  {
  }

  /** Writing closed frames and splitting again gives the same frames. */
  lemma {:induction false} JoinSplit(fs: seq<Bytes>, t: Bytes)
    requires forall f | f in fs :: Closed(f)
    ensures Complete(Join(fs) + t) == fs + Complete(t)
    ensures Residual(Join(fs) + t) == Residual(t)
    decreases |fs|
  {
    if fs == [] {
      assert Join(fs) + t == t;
    } else {
      var rest := Join(fs[1..]) + t;
      JoinSplit(fs[1..], t);
      SplitClosed(fs[0], rest);
      JoinUnfold(fs, t);
      Cons(fs, Complete(t));
    }
  }

  lemma {:induction false} UnterminatedFrames(r: Bytes)
    requires Delim(r) < 0
    ensures Complete(r) == [] && Residual(r) == r
  {
  }

  predicate IsDataLine(l: Bytes) { "data: " <= l }

  // ---------------------------------------------------------------------- reader

  datatype Status = Going | Eof | Failed

  /** One read: its bytes and the error that came with them. */
  datatype Read = Read(data: Bytes, status: Status)

  /** The reads a stream still has to give; an exhausted script keeps answering end of file. */
  type Script = seq<Read>

  /** The bytes that reach the buffer before the stream ends or fails. */
  function Arriving(script: Script): Bytes {
    if script == [] then []
    else match script[0].status
      case Going => script[0].data + Arriving(script[1..])
      case Eof => script[0].data
      case Failed => []
  }

  predicate Fails(script: Script) {
    script != [] && (script[0].status == Failed || (script[0].status == Going && Fails(script[1..])))
  }

  /** Every byte the stream delivers from read k on, including those that come with its last read. */
  function Delivered(script: Script, k: nat := 0): Bytes
    requires k <= |script|
    decreases |script| - k
  {
    if k == |script| then []
    else script[k].data + (if script[k].status == Going then Delivered(script, k + 1) else [])
  }

  /** How the stream ends. */
  function Terminal(script: Script, k: nat := 0): (t: Status)
    requires k <= |script|
    ensures t != Going
    decreases |script| - k
  {
    if k == |script| then Eof
    else if script[k].status == Going then Terminal(script, k + 1)
    else script[k].status
  }

  /** The frames a reader of this stream hands out. */
  ghost function Yields(script: Script): seq<Bytes> {
    if Fails(script) then Complete(Arriving(script)) else Frames(Arriving(script))
  }

  /** The frames still to come, as a function of the bytes still to come alone. */
  ghost function Upcoming(buf: Bytes, script: Script, done: bool): seq<Bytes> {
    if done then Frames(buf)
    else if Fails(script) then Complete(buf + Arriving(script))
    else Frames(buf + Arriving(script))
  }

  lemma {:induction false} TakeFrame(buf: Bytes, rest: Bytes)
    requires Delim(buf) >= 0
    ensures var i := Delim(buf);
            && Complete(buf + rest) == [buf[..i]] + Complete(buf[i + 2..] + rest)
            && Frames(buf + rest) == [buf[..i]] + Frames(buf[i + 2..] + rest)
  {
    var i := Delim(buf);
    DelimAppend(buf, rest);
    FrameStep(buf + rest);
    assert (buf + rest)[..i] == buf[..i];
    assert (buf + rest)[i + 2..] == buf[i + 2..] + rest;
  }

  lemma {:induction false} TakeUpcoming(buf: Bytes, script: Script, done: bool)
    requires Delim(buf) >= 0
    ensures Upcoming(buf, script, done) == [buf[..Delim(buf)]] + Upcoming(buf[Delim(buf) + 2..], script, done)
  {
    if done { FrameStep(buf); } else { TakeFrame(buf, Arriving(script)); }
  }

  /** Reading more changes neither what is to come nor whether the stream fails. */
  lemma {:induction false} ReadUpcoming(buf: Bytes, script: Script)
    requires script != []
    ensures var read := script[0];
            && (read.status == Going ==>
                  Upcoming(buf, script, false) == Upcoming(buf + read.data, script[1..], false))
            && (read.status == Eof ==> Upcoming(buf, script, false) == Upcoming(buf + read.data, script[1..], true))
            && (read.status == Failed ==> Upcoming(buf, script, false) == Complete(buf))
  {
    var read := script[0];
    if read.status == Going {
      assert buf + Arriving(script) == buf + read.data + Arriving(script[1..]);
    } else if read.status == Failed {
      assert buf + [] == buf;
    }
  }

  datatype Next = Frame(frame: Bytes) | End | Error

  class FrameReader {
    var script: Script
    var buf: Bytes
    var done: bool

    constructor (script: Script)
      ensures this.script == script && buf == [] && !done
      ensures Yield() == Yields(script)
    {
      this.script, buf, done := script, [], false;
      new;
      assert [] + Arriving(script) == Arriving(script);
    }

    ghost predicate Failing()
      reads this
    {
      !done && Fails(script)
    }

    ghost function Yield(): seq<Bytes>
      reads this
    {
      Upcoming(buf, script, done)
    }

    /** The next frame is the leftmost one of all bytes still to come, however they are chunked. */
    method NextFrame() returns (r: Next)
      modifies this
      ensures r.Frame? ==> old(Yield()) == [r.frame] + Yield() && Failing() == old(Failing())
      ensures r.End? ==> old(Yield()) == [] && !old(Failing())
      ensures r.Error? ==> old(Yield()) == [] && old(Failing())
    {
      while true
        invariant Failing() == old(Failing()) && Yield() == old(Yield())
        decreases !done, |script|
      {
        var i := Delim(buf);
        if i >= 0 {
          var frame := buf[..i];
          TakeUpcoming(buf, script, done);
          buf := buf[i + 2..];
          return Frame(frame);
        }
        UnterminatedFrames(buf);
        if done {
          if |buf| > 0 {
            var frame := buf;
            buf := [];
            return Frame(frame);
          }
          return End;
        }
        if script == [] {
          assert buf + [] == buf;
          done := true;
        } else {
          var read := script[0];
          ReadUpcoming(buf, script);
          buf := buf + read.data;
          script := script[1..];
          if read.status == Eof {
            done := true;
          } else if read.status == Failed {
            return Error;
          }
        }
      }
    }
  }

  // --------------------------------------------------------------- failing streams

  /** The bytes that come with the failing read. */
  function FailingData(script: Script): Bytes
    requires Fails(script)
  {
    if script[0].status == Failed then script[0].data else FailingData(script[1..])
  }

  lemma {:induction false} DeliveredParts(script: Script, k: nat)
    requires k <= |script|
    ensures Delivered(script, k) ==
            Arriving(script[k..]) + (if Fails(script[k..]) then FailingData(script[k..]) else [])
    decreases |script| - k
  {
    var rest := script[k..];
    if k < |script| {
      assert rest[0] == script[k] && rest[1..] == script[k + 1..];
      if script[k].status == Going {
        DeliveredParts(script, k + 1);
        Assoc(rest[0].data, Arriving(rest[1..]), if Fails(rest[1..]) then FailingData(rest[1..]) else []);
      }
    }
  }

  lemma {:induction false} Assoc(a: Bytes, b: Bytes, c: Bytes)
    ensures a + (b + c) == a + b + c
  {
  }

  /** Complete frames arriving with the failing read itself are not delivered ... */
  lemma {:induction false} FailingReadDropsFrames()
    ensures var apart := [Read("a\n\n", Going), Read("", Failed)];
            var together := [Read("a\n\n", Failed)];
            && Complete(Delivered(apart)) == Complete(Delivered(together)) == ["a"]
            && Yields(apart) == ["a"] && Yields(together) == []
  {
    var apart := [Read("a\n\n", Going), Read("", Failed)];
    var together := [Read("a\n\n", Failed)];
    assert apart[1..] == [Read("", Failed)];
    assert Arriving(apart) == "a\n\n" + [] == "a\n\n";
    assert Delivered(together) == "a\n\n" + [] == "a\n\n";
    assert Delivered(apart, 1) == [] + [] && Delivered(apart) == "a\n\n" + [];
    OneFrame();
  }

  lemma {:induction false} OneFrame()
    ensures Complete("a\n\n") == ["a"] && Complete([]) == []
  {
    SplitClosed("a", []);
    assert "a" + "\n\n" + [] == "a\n\n";
    assert ["a"] + [] == ["a"];
  }

  lemma {:induction false} CompleteKeptIff(before: Bytes, data: Bytes)
    ensures Complete(before) == Complete(before + data) <==> Delim(Residual(before) + data) < 0
  {
    SplitAppend(before, data);
  }

  /** ... so for every stream the reader hands out all delivered frames iff no failing read completes one. */
  lemma {:induction false} FramesKeptIff(script: Script)
    ensures Yields(script) == (if Fails(script) then Complete(Delivered(script)) else Frames(Delivered(script)))
            <==> (Fails(script) ==> Delim(Residual(Arriving(script)) + FailingData(script)) < 0)
  {
    assert script[0..] == script;
    DeliveredParts(script, 0);
    if Fails(script) {
      CompleteKeptIff(Arriving(script), FailingData(script));
    } else {
      assert Arriving(script) + [] == Arriving(script);
    }
  }

  function Flatten(chunks: seq<Bytes>): Bytes {
    if chunks == [] then [] else chunks[0] + Flatten(chunks[1..])
  }
}
