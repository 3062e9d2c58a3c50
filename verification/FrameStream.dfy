/** Frames out of a byte stream: the draining loop of `AqaraTunnel.onData` in src/protocol/tunnel.js
    and the pulling loop of `EncryptedTunnel._recv_frame` in hub/tunnel.py. How the stream is cut
    into chunks makes no difference to what comes out. */
module FrameStream {
  import opened Bytes
  import opened FrameCodec

  /** What has been handed on, what is held back, and the error that stopped the reading. */
  datatype Reader = Reader(frames: seq<Frame>, buffer: seq<byte>, failure: Option<FrameError>)

  /** Frames taken off the head of a buffer until it runs out or cannot be right. */
  function Drain(buffer: seq<byte>): Reader
    decreases |buffer|
  {
    match Parse(buffer)
    case NeedMore => Reader([], buffer, None)
    case Malformed(e) => Reader([], buffer, Some(e))
    case Got(frame, rest) =>
      ParseIsSound(buffer);
      var r := Drain(rest);
      Reader([frame] + r.frames, r.buffer, r.failure)
  }

  /** The same, up to and including the first frame whose handling throws. */
  function DrainUntil(buffer: seq<byte>, throws: Frame -> bool): Reader
    decreases |buffer|
  {
    match Parse(buffer)
    case NeedMore => Reader([], buffer, None)
    case Malformed(e) => Reader([], buffer, Some(e))
    case Got(frame, rest) =>
      ParseIsSound(buffer);
      if throws(frame) then Reader([frame], rest, None)
      else
        var r := DrainUntil(rest, throws);
        Reader([frame] + r.frames, r.buffer, r.failure)
  }

  /** One `data` event. After a failure the socket is destroyed and there are no more. */
  function Receive(r: Reader, chunk: seq<byte>): Reader {
    if r.failure.Some? then r
    else
      var d := Drain(r.buffer + chunk);
      Reader(r.frames + d.frames, d.buffer, d.failure)
  }

  const START: Reader := Reader([], [], None)

  function ReceiveAll(chunks: seq<seq<byte>>): Reader {
    if chunks == [] then START
    else Receive(ReceiveAll(chunks[..|chunks| - 1]), chunks[|chunks| - 1])
  }

  function WireAll(frames: seq<Frame>): seq<byte>
    requires forall f | f in frames :: Acceptable(f)
  {
    if frames == [] then [] else Wire(frames[0]) + WireAll(frames[1..])
  }

  // ---------------------------------------------------------------- the receivers

  /** The receiving half of `AqaraTunnel`. */
  class Receiver {
    var buffer: seq<byte>
    var delivered: seq<Frame>
    var failure: Option<FrameError>

    constructor ()
      ensures State() == START
    {
      buffer, delivered, failure := [], [], None;
    }

    function State(): Reader
      reads this
    {
      Reader(delivered, buffer, failure)
    }

    /** `onData`, where handling a frame may throw an exception, which leaves the loop. */
    method OnData(chunk: seq<byte>, throws: Frame -> bool)
      requires failure.None?
      modifies this
      ensures var d := DrainUntil(old(buffer) + chunk, throws);
              State() == Reader(old(delivered) + d.frames, d.buffer, d.failure)
    {
      buffer := buffer + chunk;
      ghost var whole := DrainUntil(buffer, throws);
      ghost var before := delivered;
      while true
        invariant failure.None?
        invariant var d := DrainUntil(buffer, throws);
          before + whole.frames == delivered + d.frames
          && whole.buffer == d.buffer && whole.failure == d.failure
        decreases |buffer|
      {
        match Parse(buffer) {
          case Malformed(e) =>
            failure := Some(e);
            return;
          case NeedMore =>
            return;
          case Got(frame, rest) =>
            ParseIsSound(buffer);
            assert throws(frame) || delivered + DrainUntil(buffer, throws).frames
                                 == delivered + [frame] + DrainUntil(rest, throws).frames;
            buffer := rest;
            delivered := delivered + [frame];
            if throws(frame) { return; }
        }
      }
    }
  }

  datatype Pulled = Taken(frame: Frame) | Bad(error: FrameError) | ClosedByPeer

  /** What is read before the end of file, which is the first empty chunk or the end of the list. */
  function UntilEof(chunks: seq<seq<byte>>): seq<byte> {
    if chunks == [] || chunks[0] == [] then [] else chunks[0] + UntilEof(chunks[1..])
  }

  /** `_recv_frame` before decryption: reads chunks until the buffer starts with a frame. */
  method RecvFrame(buffer: seq<byte>, chunks: seq<seq<byte>>)
    returns (r: Pulled, rest: seq<byte>, unread: seq<seq<byte>>)
    ensures exists n: nat :: n <= |chunks| && unread == chunks[n..]
    ensures var d := Drain(buffer + UntilEof(chunks));
            match r
            case Taken(f) =>
              && d.frames != [] && f == d.frames[0]
              && Drain(rest + UntilEof(unread)) == Reader(d.frames[1..], d.buffer, d.failure)
            case Bad(e) => d.frames == [] && d.failure == Some(e)
            case ClosedByPeer => d == Reader([], rest, None) && UntilEof(unread) == []
  {
    rest, unread := buffer, chunks;
    ghost var n := 0;
    assert chunks[0..] == chunks;
    while true
      invariant n <= |chunks| && unread == chunks[n..]
      invariant rest + UntilEof(unread) == buffer + UntilEof(chunks)
      decreases |unread|
    {
      match Parse(rest) {
        case Malformed(e) =>
          ParseExtends(rest, UntilEof(unread));
          return Bad(e), rest, unread;
        case Got(frame, tail) =>
          ParseExtends(rest, UntilEof(unread));
          return Taken(frame), tail, unread;
        case NeedMore =>
      }
      if unread == [] || unread[0] == [] {
        assert rest + UntilEof(unread) == rest;
        return ClosedByPeer, rest, unread;
      }
      rest := rest + unread[0];
      unread := unread[1..];
      n := n + 1;
    }
  }

  // ---------------------------------------------------------------- chunking

  lemma DrainStops(a: seq<byte>)
    requires !Parse(a).Got?
    ensures Drain(a) == Reader([], a, if Parse(a).Malformed? then Some(Parse(a).error) else None)
  {
  }

  lemma DrainStep(a: seq<byte>)
    requires Parse(a).Got?
    ensures |Parse(a).rest| < |a|
    ensures var d := Drain(Parse(a).rest);
            Drain(a) == Reader([Parse(a).frame] + d.frames, d.buffer, d.failure)
  {
  }

  lemma UntilStops(a: seq<byte>, throws: Frame -> bool)
    requires !Parse(a).Got?
    ensures DrainUntil(a, throws) == Drain(a)
  {
  }

  lemma UntilStep(a: seq<byte>, throws: Frame -> bool)
    requires Parse(a).Got?
    ensures |Parse(a).rest| < |a|
    ensures var frame, u := Parse(a).frame, DrainUntil(Parse(a).rest, throws);
            DrainUntil(a, throws)
              == if throws(frame) then Reader([frame], Parse(a).rest, None)
                 else Reader([frame] + u.frames, u.buffer, u.failure)
  {
  }

  /** An exception while a frame is handled loses nothing and only puts off: what was handed on and
      what the next event finds in the buffer are together what the buffer held. */
  lemma {:induction false} ThrowPutsOff(buffer: seq<byte>, throws: Frame -> bool)
    ensures var u, d := DrainUntil(buffer, throws), Drain(buffer);
            && (u.failure.None? ==>
                  var e := Drain(u.buffer); d == Reader(u.frames + e.frames, e.buffer, e.failure))
            && (u.failure.Some? ==> d == u)
    decreases |buffer|
  {
    hide Parse, Drain, DrainUntil;
    if Parse(buffer).Got? {
      var frame, rest := Parse(buffer).frame, Parse(buffer).rest;
      DrainStep(buffer);
      UntilStep(buffer, throws);
      if !throws(frame) {
        ThrowPutsOff(rest, throws);
        var u := DrainUntil(rest, throws);
        assert [frame] + (u.frames + Drain(u.buffer).frames) == ([frame] + u.frames) + Drain(u.buffer).frames;
      }
    } else {
      UntilStops(buffer, throws);
      DrainStops(buffer);
    }
  }

  /** Where no frame throws, the event is the plain one. */
  lemma {:induction false} NothingThrows(buffer: seq<byte>, throws: Frame -> bool)
    requires forall f | f in Drain(buffer).frames :: !throws(f)
    ensures DrainUntil(buffer, throws) == Drain(buffer)
    decreases |buffer|
  {
    hide Parse, Drain, DrainUntil;
    if Parse(buffer).Got? {
      DrainStep(buffer);
      UntilStep(buffer, throws);
      assert Drain(buffer).frames[0] == Parse(buffer).frame;
      NothingThrows(Parse(buffer).rest, throws);
    } else {
      UntilStops(buffer, throws);
    }
  }

  /** The event goes on to the end of the buffer or up to the first frame that throws, which has been
      handed on by then. */
  lemma {:induction false} StopsAtFirstThrow(buffer: seq<byte>, throws: Frame -> bool)
    ensures var u := DrainUntil(buffer, throws);
            && (forall k | 0 <= k < |u.frames| - 1 :: !throws(u.frames[k]))
            && (if u.frames != [] && throws(u.frames[|u.frames| - 1]) then u.failure == None
                else u == Drain(buffer))
    decreases |buffer|
  {
    hide Parse, Drain, DrainUntil;
    if Parse(buffer).Got? {
      DrainStep(buffer);
      UntilStep(buffer, throws);
      StopsAtFirstThrow(Parse(buffer).rest, throws);
    } else {
      DrainStops(buffer);
      UntilStops(buffer, throws);
    }
  }

  /** Reading stops only where the parser needs more bytes or rejects the buffer, with its error. */
  lemma {:induction false} DrainEnds(stream: seq<byte>)
    ensures var d := Drain(stream);
            Parse(d.buffer) == if d.failure == None then NeedMore else Malformed(d.failure.value)
    decreases |stream|
  {
    hide Parse, Drain;
    if Parse(stream).Got? {
      DrainStep(stream);
      DrainEnds(Parse(stream).rest);
    } else {
      DrainStops(stream);
    }
  }

  /** Draining a longer buffer starts with draining the shorter one. */
  lemma {:induction false} DrainExtends(a: seq<byte>, b: seq<byte>)
    ensures Drain(a).failure.None? ==> Drain(a + b) == Receive(Drain(a), b)
    ensures Drain(a).failure.Some? ==>
              Drain(a + b) == Reader(Drain(a).frames, Drain(a).buffer + b, Drain(a).failure)
    decreases |a|
  {
    hide Parse, Drain;
    ParseExtends(a, b);
    if !Parse(a).Got? {
      DrainStops(a);
      if Parse(a).Malformed? { DrainStops(a + b); }
    } else {
      var frame, rest := Parse(a).frame, Parse(a).rest;
      DrainStep(a);
      DrainStep(a + b);
      DrainExtends(rest, b);
      var d := Drain(rest);
      if d.failure.None? {
        var e := Drain(d.buffer + b);
        assert [frame] + (d.frames + e.frames) == ([frame] + d.frames) + e.frames;
      }
    }
  }

  /** For every way of cutting a stream into chunks: the same frames are handed on in the same order,
      reading stops with the same error or not at all, and what is held back is the unread end of the
      stream, of which a failure cuts off what arrives later. */
  lemma {:induction false} ChunkingIsIrrelevant(chunks: seq<seq<byte>>)
    ensures var r, d := ReceiveAll(chunks), Drain(Concat(chunks));
            && r.frames == d.frames && r.failure == d.failure
            && (r.failure.None? ==> r.buffer == d.buffer)
            && (r.failure.Some? ==> r.buffer <= d.buffer)
  {
    if chunks != [] {
      var front, last := chunks[..|chunks| - 1], chunks[|chunks| - 1];
      ChunkingIsIrrelevant(front);
      ConcatLast(chunks);
      DrainExtends(Concat(front), last);
    }
  }

  /** Nothing is lost, invented or reordered: the frames handed on, written back to the wire, are the
      stream up to what is held back. */
  lemma {:induction false} DrainConserves(stream: seq<byte>)
    ensures var d := Drain(stream);
            && (forall f | f in d.frames :: Acceptable(f))
            && stream == WireAll(d.frames) + d.buffer
    decreases |stream|
  {
    match Parse(stream)
    case Got(frame, rest) =>
      ParseIsSound(stream);
      DrainConserves(rest);
      var d := Drain(stream);
      assert d.frames[1..] == Drain(rest).frames;
      assert stream == Wire(frame) + (WireAll(d.frames[1..]) + d.buffer);
    case _ =>
  }

  /** Every sequence of acceptable frames comes back, whatever the chunks. */
  lemma FramesComeBack(frames: seq<Frame>, chunks: seq<seq<byte>>)
    requires forall f | f in frames :: Acceptable(f)
    requires Concat(chunks) == WireAll(frames)
    ensures ReceiveAll(chunks) == Reader(frames, [], None)
  {
    DrainOfWire(frames);
    ChunkingIsIrrelevant(chunks);
  }

  lemma {:induction false} DrainOfWire(frames: seq<Frame>)
    requires forall f | f in frames :: Acceptable(f)
    ensures Drain(WireAll(frames)) == Reader(frames, [], None)
  {
    if frames != [] {
      DrainOfWire(frames[1..]);
      ParseOfWire(frames[0], WireAll(frames[1..]));
    }
  }

  /** Between data events fewer than 262154 bytes are held back. */
  lemma BufferBound(chunks: seq<seq<byte>>)
    requires ReceiveAll(chunks).failure.None?
    ensures |ReceiveAll(chunks).buffer| < 262154
  {
    ChunkingIsIrrelevant(chunks);
    DrainBound(Concat(chunks));
  }

  lemma {:induction false} DrainBound(stream: seq<byte>)
    requires Drain(stream).failure.None?
    ensures |Drain(stream).buffer| < 262154
    decreases |stream|
  {
    match Parse(stream)
    case Got(frame, rest) =>
      ParseIsSound(stream);
      DrainBound(rest);
    case NeedMore =>
      HeldBackBound(stream);
  }
}
