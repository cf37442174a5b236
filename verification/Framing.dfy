/** Reassembly of frames from an arbitrarily cut byte stream (Connection::onRead, src/connection.cpp). */
module Framing {
  import opened Basics
  import opened Protocol

  /** The frames taken off a buffer, what stays in it, and whether the connection is still open. */
  datatype Drained = Drained(frames: seq<Frame>, rest: Bytes, open: bool)

  /** The whole frame at the head of a buffer, if it is there. */
  datatype Head = Waiting | Bad | Whole(frame: Frame, size: nat)

  function HeadOf(buf: Bytes): (r: Head)
    ensures r.Whole? ==> HEADER_SIZE <= r.size <= |buf| && Legal(r.frame)
  {
    if |buf| < HEADER_SIZE then Waiting
    else
      match ParseHeader(buf)
      case None => Bad
      case Some(h) =>
        if |buf| < HEADER_SIZE + h.length then Waiting
        else
          var size := HEADER_SIZE + h.length;
          Whole(Frame(h.kind, h.flags, buf[HEADER_SIZE..size]), size)
  }

  function Drain(buf: Bytes): Drained
    decreases |buf|
  {
    match HeadOf(buf)
    case Waiting => Drained([], buf, true)
    case Bad => Drained([], buf, false)
    case Whole(frame, size) =>
      var d := Drain(buf[size..]);
      Drained([frame] + d.frames, d.rest, d.open)
  }

  /** The reading half of a connection. */
  class FrameReader {
    var input: Bytes
    var open: bool
    var handled: seq<Frame>

    constructor ()
      ensures input == [] && open && handled == []
    {
      input, open, handled := [], true, [];
    }

    /** libevent appends what the socket delivered and calls onRead. */
    method Arrive(data: Bytes)
      modifies this
      ensures !old(open) ==> unchanged(this)
      ensures old(open) ==>
        Drained(handled, input, open) == After(old(handled), Drain(old(input) + data))
    {
      if open {
        input := input + data;
        OnRead();
      }
    }

    method OnRead()
      requires open
      modifies this
      ensures Drained(handled, input, open) == After(old(handled), Drain(old(input)))
    {
      while true
        invariant open
        invariant After(handled, Drain(input)) == After(old(handled), Drain(old(input)))
        decreases |input|
      {
        if |input| < HEADER_SIZE {
          assert Drain(input) == Drained([], input, true);
          return;
        }
        var parsed := ParseHeader(input);
        if parsed.None? {
          assert Drain(input) == Drained([], input, false);
          open := false;
          return;
        }
        var length := parsed.value.length;
        if |input| < HEADER_SIZE + length {
          assert Drain(input) == Drained([], input, true);
          return;
        }
        var frame := Frame(parsed.value.kind, parsed.value.flags,
                           input[HEADER_SIZE..HEADER_SIZE + length]);
        TakeOne(handled, input, frame, HEADER_SIZE + length);
        input := input[HEADER_SIZE + length..];
        handled := handled + [frame];
      }
    }
  }

  /** A result that continues from frames already handled. */
  function After(handled: seq<Frame>, d: Drained): Drained {
    Drained(handled + d.frames, d.rest, d.open)
  }

  lemma TakeOne(handled: seq<Frame>, buf: Bytes, frame: Frame, size: nat)
    requires HeadOf(buf) == Whole(frame, size)
    ensures After(handled, Drain(buf)) == After(handled + [frame], Drain(buf[size..]))
  {
    AfterAfter(handled, [frame], Drain(buf[size..]));
  }

  /** A connection's reader after a sequence of arrivals. */
  method Receive(arrivals: seq<Bytes>) returns (reader: FrameReader)
    ensures fresh(reader) && Drained(reader.handled, reader.input, reader.open) == Feed(arrivals)
  {
    reader := new FrameReader();
    for i := 0 to |arrivals|
      invariant fresh(reader) && Drained(reader.handled, reader.input, reader.open) == Feed(arrivals[..i])
    {
      assert arrivals[..i + 1][..i] == arrivals[..i];
      reader.Arrive(arrivals[i]);
    }
    assert arrivals[..|arrivals|] == arrivals;
  }

  // ---------------------------------------------------------------- independence of the cuts

  function Concat(arrivals: seq<Bytes>): Bytes {
    if arrivals == [] then [] else Concat(arrivals[..|arrivals| - 1]) + arrivals[|arrivals| - 1]
  }

  /** The reader's fields after a sequence of arrivals. */
  function Feed(arrivals: seq<Bytes>): Drained {
    if arrivals == [] then Drained([], [], true)
    else
      var before := Feed(arrivals[..|arrivals| - 1]);
      if !before.open then before
      else After(before.frames, Drain(before.rest + arrivals[|arrivals| - 1]))
  }

  lemma HeadAppend(a: Bytes, b: Bytes)
    requires !HeadOf(a).Waiting?
    ensures HeadOf(a + b) == HeadOf(a)
    ensures HeadOf(a).Whole? ==> (a + b)[HeadOf(a).size..] == a[HeadOf(a).size..] + b
  {
    if HeadOf(a).Whole? {
      var size := HeadOf(a).size;
      assert (a + b)[HEADER_SIZE..size] == a[HEADER_SIZE..size];
    }
  }

  /** More bytes never change what was already taken off. */
  ghost predicate Continues(a: Bytes, b: Bytes) {
    var d, all := Drain(a), Drain(a + b);
    if d.open then all == After(d.frames, Drain(d.rest + b))
    else all.frames == d.frames && !all.open
  }

  lemma {:induction false} DrainAppend(a: Bytes, b: Bytes)
    ensures Continues(a, b)
    decreases |a|
  {
    var head := HeadOf(a);
    if head.Whole? {
      HeadAppend(a, b);
      var w, later := a[..head.size], a[head.size..];
      assert a == w + later;
      DrainAppend(later, b);
      ContinuesStep(w, later, b, head.frame);
    } else if head.Bad? {
      HeadAppend(a, b);
    } else {
      assert Drain(a) == Drained([], a, true);
    }
  }

  lemma ContinuesStep(w: Bytes, later: Bytes, b: Bytes, f: Frame)
    requires HeadOf(w + later) == Whole(f, |w|) == HeadOf(w + later + b)
    requires Continues(later, b)
    ensures Continues(w + later, b)
  {
    DrainStep(w, later, f);
    Associate(w, later, b);
    DrainStep(w, later + b, f);
    var d := Drain(later);
    if d.open {
      AfterAfter([f], d.frames, Drain(d.rest + b));
    }
  }

  lemma AfterAfter(first: seq<Frame>, second: seq<Frame>, d: Drained)
    ensures After(first, After(second, d)) == After(first + second, d)
  {
    assert first + (second + d.frames) == (first + second) + d.frames;
  }

  lemma Associate(a: Bytes, b: Bytes, c: Bytes)
    ensures a + (b + c) == (a + b) + c
  {
  }

  lemma DrainStep(w: Bytes, more: Bytes, f: Frame)
    requires HeadOf(w + more) == Whole(f, |w|)
    ensures Drain(w + more) == After([f], Drain(more))
  {
    assert (w + more)[|w|..] == more;
  }

  /** However the stream is cut, the reader ends where one arrival of all of it would. */
  lemma {:induction false} CutsDoNotMatter(arrivals: seq<Bytes>)
    ensures var fed, whole := Feed(arrivals), Drain(Concat(arrivals));
            fed.frames == whole.frames && fed.open == whole.open && (fed.open ==> fed.rest == whole.rest)
  {
    if arrivals != [] {
      var init := arrivals[..|arrivals| - 1];
      CutsDoNotMatter(init);
      DrainAppend(Concat(init), arrivals[|arrivals| - 1]);
    }
  }

  // ---------------------------------------------------------------- legal streams

  function WireAll(frames: seq<Frame>): Bytes {
    if frames == [] then [] else Wire(frames[0]) + WireAll(frames[1..])
  }

  ghost predicate AllLegal(frames: seq<Frame>) { forall f | f in frames :: Legal(f) }

  lemma HeadOfWire(f: Frame, more: Bytes)
    requires Legal(f)
    ensures HeadOf(Wire(f) + more) == Whole(f, |Wire(f)|)
  {
    var buf := Wire(f) + more;
    assert buf[..HEADER_SIZE] == Wire(f)[..HEADER_SIZE];
    ParseHeaderOfWire(f, buf);
    assert buf[HEADER_SIZE..|Wire(f)|] == f.payload;
  }

  lemma HeadOfPartialWire(f: Frame, n: nat)
    requires Legal(f) && n < |Wire(f)|
    ensures HeadOf(Wire(f)[..n]) == Waiting
  {
    if n >= HEADER_SIZE {
      assert Wire(f)[..n][..HEADER_SIZE] == Wire(f)[..HEADER_SIZE];
      ParseHeaderOfWire(f, Wire(f)[..n]);
    }
  }

  /** The first `n` frames are delivered and a strict prefix of the next one is left. */
  ghost predicate DeliveredUpTo(frames: seq<Frame>, seen: Bytes, n: nat) {
    var d := Drain(seen);
    && n <= |frames|
    && d.open && d.frames == frames[..n]
    && seen == WireAll(frames[..n]) + d.rest
    && (if n == |frames| then d.rest == [] else d.rest < Wire(frames[n]))
  }

  /** At every moment of a legal stream exactly its complete frames are delivered, in order. */
  lemma {:induction false} DrainLegalPrefix(frames: seq<Frame>, seen: Bytes) returns (n: nat)
    requires AllLegal(frames) && seen <= WireAll(frames)
    ensures DeliveredUpTo(frames, seen, n)
    decreases |frames|
  {
    if frames == [] {
      n := 0;
    } else if |seen| < |Wire(frames[0])| {
      n := 0;
      HeadOfPartialWire(frames[0], |seen|);
      assert seen == Wire(frames[0])[..|seen|];
    } else {
      var f, more, later := frames[0], frames[1..], seen[|Wire(frames[0])|..];
      assert later <= WireAll(more);
      var k := DrainLegalPrefix(more, later);
      n := k + 1;
      assert seen == Wire(f) + later && frames == [f] + more;
      OneFrameFirst(f, more, later, k);
    }
  }

  lemma OneFrameFirst(f: Frame, more: seq<Frame>, later: Bytes, k: nat)
    requires Legal(f) && DeliveredUpTo(more, later, k)
    ensures DeliveredUpTo([f] + more, Wire(f) + later, k + 1)
  {
    HeadOfWire(f, later);
    DrainStep(Wire(f), later, f);
    WireAllCons(f, more[..k]);
    Associate(Wire(f), WireAll(more[..k]), Drain(later).rest);
    assert ([f] + more)[..k + 1] == [f] + more[..k];
  }

  lemma WireAllCons(f: Frame, frames: seq<Frame>)
    ensures WireAll([f] + frames) == Wire(f) + WireAll(frames)
  {
    assert ([f] + frames)[1..] == frames;
  }

  /** At every moment of a legal stream, cut in any way, the frames that have arrived completely have been
      handled, in order, and a strict prefix of the next one waits; at its end every frame has been handled. */
  lemma LegalStreamDelivered(frames: seq<Frame>, arrivals: seq<Bytes>) returns (n: nat)
    requires AllLegal(frames) && Concat(arrivals) <= WireAll(frames)
    ensures var fed := Feed(arrivals);
            && n <= |frames| && fed.open && fed.frames == frames[..n]
            && Concat(arrivals) == WireAll(frames[..n]) + fed.rest
            && (if n == |frames| then fed.rest == [] else fed.rest < Wire(frames[n]))
    ensures Concat(arrivals) == WireAll(frames) ==> Feed(arrivals) == Drained(frames, [], true)
    ensures |Feed(arrivals).rest| < HEADER_SIZE + MAX_FRAME_SIZE
  {
    CutsDoNotMatter(arrivals);
    n := DrainLegalPrefix(frames, Concat(arrivals));
    WaitingBelowWatermark(Concat(arrivals));
    WireAllSplit(frames, n);
    assert frames[..|frames|] == frames;
  }

  /** A chunk the client encodes is the chunk the server decodes, wherever the stream is cut. */
  lemma ChunkArrives(c: Chunk, arrivals: seq<Bytes>)
    requires |c.fileId| == 32 && 40 + |c.data| <= MAX_FRAME_SIZE
    requires Concat(arrivals) == Wire(Frame(CHUNK, 0, ChunkPayload(c)))
    ensures var fed := Feed(arrivals);
            |fed.frames| == 1 && fed.frames[0].kind == CHUNK && DecodeChunk(fed.frames[0].payload) == Some(c)
  {
    var f := Frame(CHUNK, 0, ChunkPayload(c));
    WireAllCons(f, []);
    assert [f] + [] == [f] && Wire(f) + WireAll([]) == Wire(f);
    var n := LegalStreamDelivered([f], arrivals);
    DecodeChunkOfPayload(c);
  }

  lemma {:induction false} WireAllSplit(frames: seq<Frame>, n: nat)
    requires n <= |frames|
    ensures WireAll(frames) == WireAll(frames[..n]) + WireAll(frames[n..])
    ensures n < |frames| ==> |Wire(frames[n])| <= |WireAll(frames[n..])|
  {
    if n > 0 {
      WireAllSplit(frames[1..], n - 1);
      assert frames[..n][1..] == frames[1..][..n - 1];
      assert frames[n..] == frames[1..][n - 1..];
    }
  }

  /** At the first refused header the reader closes: the frames before it have been handled, and nothing that comes
      after it ever is. */
  lemma BadHeaderCloses(frames: seq<Frame>, bad: Bytes, arrivals: seq<Bytes>)
    requires AllLegal(frames) && |bad| >= HEADER_SIZE && ParseHeader(bad).None?
    requires WireAll(frames) + bad <= Concat(arrivals)
    ensures !Feed(arrivals).open && Feed(arrivals).frames == frames
  {
    CutsDoNotMatter(arrivals);
    var more := Concat(arrivals)[|WireAll(frames) + bad|..];
    assert Concat(arrivals) == WireAll(frames) + bad + more;
    BadHead(bad, more);
    DrainUpTo(frames, bad + more);
    Associate(WireAll(frames), bad, more);
  }

  lemma BadHead(bad: Bytes, more: Bytes)
    requires |bad| >= HEADER_SIZE && ParseHeader(bad).None?
    ensures Drain(bad + more) == Drained([], bad + more, false)
  {
    HeadAppend(bad, more);
  }

  /** Legal frames are taken off whatever follows them. */
  lemma {:induction false} DrainUpTo(frames: seq<Frame>, more: Bytes)
    requires AllLegal(frames)
    ensures Drain(WireAll(frames) + more) == After(frames, Drain(more))
  {
    if frames == [] {
      assert WireAll(frames) + more == more;
    } else {
      DrainUpTo(frames[1..], more);
      HeadOfWire(frames[0], WireAll(frames[1..]) + more);
      DrainStep(Wire(frames[0]), WireAll(frames[1..]) + more, frames[0]);
      Associate(Wire(frames[0]), WireAll(frames[1..]), more);
      AfterAfter([frames[0]], frames[1..], Drain(more));
      assert [frames[0]] + frames[1..] == frames;
    }
  }

  /** While the reader waits its buffer is below the read watermark, so reading never stops. */
  lemma {:induction false} WaitingBelowWatermark(buf: Bytes)
    requires Drain(buf).open
    ensures |Drain(buf).rest| < HEADER_SIZE + MAX_FRAME_SIZE
    decreases |buf|
  {
    if HeadOf(buf).Whole? {
      WaitingBelowWatermark(buf[HeadOf(buf).size..]);
    }
  }
}
