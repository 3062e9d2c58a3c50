/** AAC-ADTS frames out of the encoder's output: `extract_adts_frames` of device/camera/protocol.py
    and the buffer of `AACEncoder` in device/camera/encoder.py. */
module Adts {
  import opened Bytes

  /** The 13-bit length field of the header that starts at `o`. */
  function LengthAt(data: seq<byte>, o: nat): (n: nat)
    requires o + 6 <= |data|
  {
    (((data[o + 3] & 0x03) as bv16 << 11) | (data[o + 4] as bv16 << 3) | (data[o + 5] >> 5) as bv16) as nat
  }

  predicate SyncAt(data: seq<byte>, o: nat)
    requires o + 2 <= |data|
  {
    data[o] == 0xFF && data[o + 1] & 0xF0 == 0xF0
  }

  /** A frame is taken at `o`: sync word, a length of at least the header, and all of it present. */
  predicate FrameAt(data: seq<byte>, o: nat)
    requires o + 7 < |data|
  {
    SyncAt(data, o) && LengthAt(data, o) >= 7 && o + LengthAt(data, o) <= |data|
  }

  /** The frames found from `o` on. */
  function Extract(data: seq<byte>, o: nat): seq<seq<byte>>
    decreases |data| - o
  {
    if o + 7 >= |data| then []
    else if !SyncAt(data, o) then Extract(data, o + 1)
    else if !FrameAt(data, o) then []
    else [data[o..o + LengthAt(data, o)]] + Extract(data, o + LengthAt(data, o))
  }

  function TotalLength(parts: seq<seq<byte>>): nat {
    if parts == [] then 0 else |parts[0]| + TotalLength(parts[1..])
  }

  /** `extract_adts_frames`. */
  method ExtractAdtsFrames(data: seq<byte>) returns (frames: seq<seq<byte>>)
    ensures frames == Extract(data, 0)
  {
    hide LengthAt, Extract;
    frames := [];
    var offset := 0;
    while offset < |data| - 7
      invariant 0 <= offset && frames + Extract(data, offset) == Extract(data, 0)
      decreases |data| - offset
    {
      if data[offset] != 0xFF || data[offset + 1] & 0xF0 != 0xF0 {
        ExtractStep(data, offset);
        offset := offset + 1;
        continue;
      }
      var frameLen := LengthAt(data, offset);
      ExtractStep(data, offset);
      if frameLen < 7 || offset + frameLen > |data| {
        break;
      }
      frames := frames + [data[offset..offset + frameLen]];
      offset := offset + frameLen;
    }
    ExtractStep(data, offset);
    assert frames + [] == frames;
  }

  lemma ExtractStep(data: seq<byte>, o: nat)
    ensures o + 7 >= |data| ==> Extract(data, o) == []
    ensures o + 7 < |data| && !SyncAt(data, o) ==> Extract(data, o) == Extract(data, o + 1)
    ensures o + 7 < |data| && SyncAt(data, o) ==>
              Extract(data, o)
                == if FrameAt(data, o)
                   then [data[o..o + LengthAt(data, o)]] + Extract(data, o + LengthAt(data, o)) else []
  {
  }

  // ---------------------------------------------------------------- what the scan finds

  /** The length field holds two bits, eight bits and three bits of the fourth to sixth byte. */
  lemma LengthBits(data: seq<byte>, o: nat) returns (n: bv16)
    requires o + 6 <= |data|
    ensures n as nat == LengthAt(data, o)
    ensures n >> 11 == (data[o + 3] & 0x03) as bv16 && (n >> 3) & 0xFF == data[o + 4] as bv16
    ensures n & 0x07 == (data[o + 5] >> 5) as bv16
  {
    n := ((data[o + 3] & 0x03) as bv16 << 11) | (data[o + 4] as bv16 << 3) | (data[o + 5] >> 5) as bv16;
    FieldsApart(data[o + 3], data[o + 4], data[o + 5]);
  }

  lemma FieldsApart(x: byte, y: byte, z: byte)
    ensures var n := ((x & 0x03) as bv16 << 11) | (y as bv16 << 3) | (z >> 5) as bv16;
            n >> 11 == (x & 0x03) as bv16 && (n >> 3) & 0xFF == y as bv16 && n & 0x07 == (z >> 5) as bv16
  {
  }

  /** No sync word starts between two positions where the scan looks. */
  predicate NoSync(data: seq<byte>, a: nat, b: nat) {
    forall p: nat | a <= p < b && p + 7 < |data| :: !SyncAt(data, p)
  }

  /** The frame is at the first sync word from a position on. */
  predicate Taken(data: seq<byte>, start: nat, p: nat, f: seq<byte>) {
    && start <= p && p + 7 < |data| && NoSync(data, start, p)
    && data[p] == 0xFF && data[p + 1] & 0xF0 == 0xF0
    && |f| >= 7 && |f| == LengthAt(data, p) && p + |f| <= |data| && f == data[p..p + |f|]
  }

  /** From a position on there is no sync word to look at, or the first one has a length below seven
      or more than the bytes there are. */
  ghost predicate Stuck(data: seq<byte>, start: nat) {
    NoSync(data, start, |data|) || exists p: nat :: Blocked(data, start, p)
  }

  predicate Blocked(data: seq<byte>, start: nat, p: nat) {
    && start <= p && p + 7 < |data| && NoSync(data, start, p)
    && data[p] == 0xFF && data[p + 1] & 0xF0 == 0xF0
    && (LengthAt(data, p) < 7 || p + LengthAt(data, p) > |data|)
  }

  function EndOf(frames: seq<seq<byte>>, at: seq<nat>, o: nat, k: nat): nat
    requires k <= |at| == |frames|
  {
    if k == 0 then o else at[k - 1] + |frames[k - 1]|
  }

  lemma SkipOne(data: seq<byte>, o: nat)
    requires o + 7 < |data| && !SyncAt(data, o)
    ensures forall p: nat, f: seq<byte> | Taken(data, o + 1, p, f) :: Taken(data, o, p, f)
    ensures Stuck(data, o + 1) ==> Stuck(data, o)
  {
    hide LengthAt, SyncAt;
    if Stuck(data, o + 1) && !NoSync(data, o + 1, |data|) {
      var p: nat :| Blocked(data, o + 1, p);
      assert Blocked(data, o, p);
    }
  }

  /** Frames, and where each was taken: at the first sync word after the frame before; after the last
      the scan is stuck. */
  ghost predicate Found(data: seq<byte>, o: nat, frames: seq<seq<byte>>, at: seq<nat>) {
    && |at| == |frames|
    && (forall k: nat | k < |at| :: Taken(data, EndOf(frames, at, o, k), at[k], frames[k]))
    && Stuck(data, EndOf(frames, at, o, |at|))
  }

  lemma FoundSkip(data: seq<byte>, o: nat, frames: seq<seq<byte>>, at: seq<nat>)
    requires o + 7 < |data| && !SyncAt(data, o) && Found(data, o + 1, frames, at)
    ensures Found(data, o, frames, at)
  {
    hide Taken, Stuck;
    SkipOne(data, o);
    forall k: nat | k < |at| ensures Taken(data, EndOf(frames, at, o, k), at[k], frames[k]) {
      assert Taken(data, EndOf(frames, at, o + 1, k), at[k], frames[k]);
    }
  }

  lemma FoundMore(data: seq<byte>, o: nat, f: seq<byte>, frames: seq<seq<byte>>, at: seq<nat>)
    requires Taken(data, o, o, f) && Found(data, o + |f|, frames, at)
    ensures Found(data, o, [f] + frames, [o] + at)
  {
    hide Taken, Stuck;
    var e, places := [f] + frames, [o] + at;
    forall k: nat | k < |places| ensures Taken(data, EndOf(e, places, o, k), places[k], e[k]) {
      if k > 0 {
        assert Taken(data, EndOf(frames, at, o + |f|, k - 1), at[k - 1], frames[k - 1]);
        assert EndOf(e, places, o, k) == EndOf(frames, at, o + |f|, k - 1);
      }
    }
    assert EndOf(e, places, o, |places|) == EndOf(frames, at, o + |f|, |at|);
  }

  lemma FoundNone(data: seq<byte>, o: nat)
    requires Stuck(data, o)
    ensures Found(data, o, [], [])
  {
  }

  /** The scan takes exactly the frames it comes to, and stops only where it is stuck. */
  lemma {:induction false} ScanFinds(data: seq<byte>, o: nat) returns (at: seq<nat>)
    ensures Found(data, o, Extract(data, o), at)
    decreases |data| - o
  {
    hide LengthAt, Taken, Stuck, Found, SyncAt, FrameAt, Extract;
    ExtractStep(data, o);
    at := [];
    if o + 7 >= |data| || (SyncAt(data, o) && !FrameAt(data, o)) {
      StuckAt(data, o);
      FoundNone(data, o);
    } else if !SyncAt(data, o) {
      at := ScanFinds(data, o + 1);
      FoundSkip(data, o, Extract(data, o + 1), at);
    } else {
      var f := TakenAt(data, o);
      at := ScanFinds(data, o + |f|);
      FoundMore(data, o, f, Extract(data, o + |f|), at);
      at := [o] + at;
    }
  }

  lemma StuckAt(data: seq<byte>, o: nat)
    requires o + 7 >= |data| || (SyncAt(data, o) && !FrameAt(data, o))
    ensures Stuck(data, o)
  {
    hide LengthAt;
    if o + 7 < |data| { assert Blocked(data, o, o); }
  }

  lemma TakenAt(data: seq<byte>, o: nat) returns (f: seq<byte>)
    requires o + 7 < |data| && FrameAt(data, o)
    ensures |f| >= 7 && o + |f| <= |data| && f == data[o..o + LengthAt(data, o)] && |f| == LengthAt(data, o)
    ensures Taken(data, o, o, f)
  {
    hide LengthAt;
    f := data[o..o + LengthAt(data, o)];
  }

  // ---------------------------------------------------------------- the encoder's buffer

  /** What a read leaves: the frames found, and the buffer less as many bytes as they hold. */
  datatype Step = Step(frames: seq<seq<byte>>, buffer: seq<byte>)

  lemma {:induction false} ExtractFits(data: seq<byte>, o: nat)
    requires o <= |data|
    ensures TotalLength(Extract(data, o)) <= |data| - o
    decreases |data| - o
  {
    hide LengthAt, SyncAt;
    if o + 7 < |data| {
      if !SyncAt(data, o) {
        ExtractFits(data, o + 1);
      } else if FrameAt(data, o) {
        ExtractFits(data, o + LengthAt(data, o));
        var e := Extract(data, o);
        assert e[1..] == Extract(data, o + LengthAt(data, o));
      }
    }
  }

  function Consume(buffer: seq<byte>): Step {
    ExtractFits(buffer, 0);
    var frames := Extract(buffer, 0);
    Step(frames, buffer[TotalLength(frames)..])
  }

  /** What waiting for the end of the process gives: the rest of its output, a timeout, or an
      exception of the library. */
  datatype Waited = Output(remaining: seq<byte>) | TimedOut | Failed

  datatype EncoderError = NotStarted | InputClosed | WaitFailed

  /** `AACEncoder`, whose ffmpeg process is a source of arbitrary chunks. */
  class AacEncoder {
    var started: bool
    var inputOpen: bool
    var buffer: seq<byte>

    constructor ()
      ensures !started && buffer == []
    {
      started, inputOpen, buffer := false, false, [];
    }

    /** `start` replaces the process. */
    method Start()
      modifies this
      ensures started && inputOpen && buffer == old(buffer)
    {
      started, inputOpen := true, true;
    }

    /** `write_pcm`: `chunks` is what the process had ready, up to the first empty read; a broken
        pipe reads nothing. Writing to the input that `flush` closed raises an error. */
    method WritePcm(chunks: seq<seq<byte>>, brokenPipe: bool)
      returns (r: Result<seq<seq<byte>>, EncoderError>)
      modifies this`buffer
      ensures r.Err? <==> !started || !inputOpen
      ensures r.Err? ==> r.error == if started then InputClosed else NotStarted
      ensures r.Err? || brokenPipe ==> buffer == old(buffer)
      ensures r.Ok? && brokenPipe ==> r.value == []
      ensures r.Ok? && !brokenPipe ==>
                var s := Consume(old(buffer) + Concat(chunks));
                r.value == s.frames && buffer == s.buffer
    {
      if !started { return Err(NotStarted); }
      if !inputOpen { return Err(InputClosed); }
      if brokenPipe { return Ok([]); }
      var i := 0;
      assert chunks[0..] == chunks;
      while i < |chunks|
        invariant 0 <= i <= |chunks|
        invariant buffer + Concat(chunks[i..]) == old(buffer) + Concat(chunks)
      {
        assert chunks[i..][1..] == chunks[i + 1..];
        buffer := buffer + chunks[i];
        i := i + 1;
      }
      assert buffer + Concat([]) == buffer;
      if buffer == [] { return Ok([]); }
      var frames := TakeFrames();
      r := Ok(frames);
    }

    method TakeFrames() returns (frames: seq<seq<byte>>)
      modifies this`buffer
      ensures var s := Consume(old(buffer)); frames == s.frames && buffer == s.buffer
    {
      frames := ExtractAdtsFrames(buffer);
      ExtractFits(buffer, 0);
      var consumed := 0;
      var i := 0;
      assert frames[0..] == frames;
      while i < |frames|
        invariant 0 <= i <= |frames| && consumed + TotalLength(frames[i..]) == TotalLength(frames)
      {
        assert frames[i..][1..] == frames[i + 1..];
        consumed := consumed + |frames[i]|;
        i := i + 1;
      }
      buffer := buffer[consumed..];
    }

    /** `flush`: closes the input and takes the frames out of the rest of the process's output, or out
        of the buffer alone when the wait times out. */
    method Flush(waited: Waited) returns (r: Result<seq<seq<byte>>, EncoderError>)
      modifies this`buffer, this`inputOpen
      ensures inputOpen == (old(inputOpen) && !started)
      ensures r == Err(WaitFailed) <==> started && waited == Failed
      ensures !started || waited == Failed ==> (r.Ok? ==> r.value == []) && buffer == old(buffer)
      ensures started && waited != Failed ==>
                var s := Consume(old(buffer) + if waited.TimedOut? then [] else waited.remaining);
                r == Ok(s.frames) && buffer == s.buffer
    {
      if !started { return Ok([]); }
      inputOpen := false;
      match waited {
        case Failed => return Err(WaitFailed);
        case TimedOut => assert buffer + [] == buffer;
        case Output(remaining) => buffer := buffer + remaining;
      }
      var frames := TakeFrames();
      r := Ok(frames);
    }

    /** `stop`, which does nothing before `start`. */
    method Stop()
      modifies this
      ensures !started && buffer == if old(started) then [] else old(buffer)
    {
      if started {
        started, inputOpen, buffer := false, false, [];
      }
    }
  }

  // ---------------------------------------------------------------- streams of frames

  /** A whole ADTS frame: sync word and a length field that is its length. */
  predicate IsFrame(f: seq<byte>) {
    |f| >= 7 && SyncAt(f, 0) && LengthAt(f, 0) == |f|
  }

  predicate AllFrames(frames: seq<seq<byte>>) {
    forall f | f in frames :: IsFrame(f)
  }

  /** What may wait in the buffer: nothing, part of the next frame, or all of one of seven bytes,
      since the scan looks only where more than seven bytes remain. */
  predicate Held(t: seq<byte>, f: seq<byte>) {
    t <= f && (|t| < |f| || |t| == 7)
  }

  lemma PrefixHeader(data: seq<byte>, o: nat, f: seq<byte>)
    requires o + 7 <= |data| && IsFrame(f) && (data[o..] <= f || f <= data[o..])
    ensures SyncAt(data, o) && LengthAt(data, o) == |f|
  {
  }

  /** Frames followed by a held-back piece of the next one: exactly the frames are found. */
  lemma {:induction false} ExtractFrames(before: seq<byte>, frames: seq<seq<byte>>, t: seq<byte>, next: seq<byte>)
    requires AllFrames(frames) && IsFrame(next) && Held(t, next)
    requires t == [] && frames != [] ==> |frames[|frames| - 1]| >= 8
    ensures Extract(before + Concat(frames) + t, |before|) == frames
    decreases |frames|
  {
    hide LengthAt, SyncAt;
    var data := before + Concat(frames) + t;
    var o := |before|;
    if frames == [] {
      assert data[o..] == t;
      if o + 7 < |data| {
        PrefixHeader(data, o, next);
      }
    } else {
      var f, rest := frames[0], frames[1..];
      assert data[o..] == f + (Concat(rest) + t);
      RestNonEmpty(frames, t);
      PrefixHeader(data, o, f);
      assert data == (before + f) + Concat(rest) + t;
      assert data[o..o + |f|] == f;
      if rest != [] { assert rest[|rest| - 1] == frames[|frames| - 1]; }
      ExtractFrames(before + f, rest, t, next);
    }
  }

  lemma RestNonEmpty(frames: seq<seq<byte>>, t: seq<byte>)
    requires AllFrames(frames) && frames != []
    requires t == [] ==> |frames[|frames| - 1]| >= 8
    ensures |Concat(frames)| + |t| >= 8
  {
    hide LengthAt, SyncAt;
    var rest := frames[1..];
    assert IsFrame(frames[0]);
    if rest != [] {
      assert rest[0] in frames;
      assert IsFrame(rest[0]);
      assert Concat(rest) == rest[0] + Concat(rest[1..]);
    }
  }

  lemma {:induction false} TotalIsLength(parts: seq<seq<byte>>)
    ensures TotalLength(parts) == |Concat(parts)|
  {
    if parts != [] { TotalIsLength(parts[1..]); }
  }

  /** How far a prefix of the stream reaches: all of the first m frames, and a held-back piece. */
  ghost predicate Reaches(prefix: seq<byte>, frames: seq<seq<byte>>, m: nat, t: seq<byte>) {
    && m <= |frames| && prefix == Concat(frames[..m]) + t
    && (m == |frames| ==> t == [])
    && (m < |frames| ==> Held(t, frames[m]))
    && (t == [] && m > 0 ==> |frames[m - 1]| >= 8)
  }

  /** What does not hold back inside the first frame covers it. */
  lemma FirstFrameCovered(prefix: seq<byte>, f: seq<byte>, rest: seq<byte>)
    requires prefix <= f + rest && !Held(prefix, f)
    ensures f <= prefix && prefix[|f|..] <= rest && prefix == f + prefix[|f|..]
  {
  }

  lemma {:induction false} PrefixReaches(prefix: seq<byte>, frames: seq<seq<byte>>)
    returns (m: nat, t: seq<byte>)
    requires AllFrames(frames) && prefix <= Concat(frames)
    ensures Reaches(prefix, frames, m, t)
    decreases |frames|
  {
    hide LengthAt, SyncAt;
    if frames == [] {
      m, t := 0, [];
    } else {
      var f, rest := frames[0], frames[1..];
      assert IsFrame(f);
      if Held(prefix, f) {
        m, t := 0, prefix;
      } else {
        FirstFrameCovered(prefix, f, Concat(rest));
        var m', t' := PrefixReaches(prefix[|f|..], rest);
        m, t := m' + 1, t';
        OneMore(frames, m');
        assert m' > 0 ==> frames[m - 1] == rest[m' - 1];
      }
    }
  }

  lemma OneMore(frames: seq<seq<byte>>, m: nat)
    requires m < |frames|
    ensures Concat(frames[..m + 1]) == frames[0] + Concat(frames[1..][..m])
  {
    assert frames[..m + 1][1..] == frames[1..][..m];
  }

  /** Reading on: from a buffer that ends the stream so far, a longer prefix yields the frames
      completed in between and holds back the new end. */
  lemma ConsumeReaches(frames: seq<seq<byte>>, m: nat, t: seq<byte>, chunk: seq<byte>, m': nat, t': seq<byte>)
    requires AllFrames(frames)
    requires m <= m' <= |frames|
    requires Reaches(Concat(frames[..m]) + t, frames, m, t)
    requires Reaches(Concat(frames[..m]) + t + chunk, frames, m', t')
    ensures Consume(t + chunk) == Step(frames[m..m'], t')
  {
    hide LengthAt, SyncAt, IsFrame, Held, Concat, Extract;
    var mid := frames[m..m'];
    assert frames[..m'] == frames[..m] + mid;
    ConcatSplit(frames[..m], mid);
    TotalIsLength(mid);
    var c := Concat(frames[..m]);
    assert c + (t + chunk) == c + t + chunk == c + Concat(mid) + t' == c + (Concat(mid) + t');
    SplitAfter(c, t + chunk, Concat(mid) + t');
    assert mid != [] ==> mid[|mid| - 1] == frames[m' - 1];
    if m' < |frames| {
      ExtractFrames([], mid, t', frames[m']);
    } else {
      ExtractAll(mid);
      assert Concat(mid) + [] == Concat(mid);
    }
    assert [] + Concat(mid) + t' == t + chunk;
    assert (t + chunk)[TotalLength(mid)..] == t';
  }

  lemma SplitAfter(a: seq<byte>, b: seq<byte>, c: seq<byte>)
    requires a + b == a + c
    ensures b == c
  {
    assert b == (a + b)[|a|..];
  }

  lemma ExtractAll(frames: seq<seq<byte>>)
    requires AllFrames(frames) && (frames != [] ==> |frames[|frames| - 1]| >= 8)
    ensures Extract(Concat(frames), 0) == frames
  {
    if frames != [] {
      ExtractFrames([], frames, [], frames[0]);
      assert [] + Concat(frames) + [] == Concat(frames);
    }
  }

  /** Past frame `i`, a longer run of frames has that frame more, and at least seven bytes more for
      any further one. */
  lemma Longer(frames: seq<seq<byte>>, i: nat, m: nat)
    requires AllFrames(frames) && i < m <= |frames|
    ensures |frames[i]| >= 7
    ensures |Concat(frames[..m])| >= |Concat(frames[..i])| + |frames[i]| + if i + 1 < m then 7 else 0
  {
    hide LengthAt, SyncAt;
    var after := frames[i..m];
    assert frames[..m] == frames[..i] + after;
    ConcatSplit(frames[..i], after);
    assert IsFrame(frames[i]);
    assert Concat(after) == frames[i] + Concat(after[1..]);
    if i + 1 < m {
      var rest := after[1..];
      assert rest[0] == frames[i + 1] && IsFrame(frames[i + 1]);
      assert Concat(rest) == rest[0] + Concat(rest[1..]);
    }
  }

  /** Reads never fall back: a longer prefix reaches at least as far. */
  lemma ReachesMonotone(frames: seq<seq<byte>>, a: seq<byte>, m: nat, t: seq<byte>,
                        b: seq<byte>, m': nat, t': seq<byte>)
    requires AllFrames(frames) && Reaches(a, frames, m, t) && Reaches(a + b, frames, m', t')
    ensures m <= m'
  {
    hide LengthAt, SyncAt, IsFrame, Concat;
    if m' < m {
      Longer(frames, m', m);
    }
  }

  // ---------------------------------------------------------------- whole runs

  /** Everything emitted and what is held back after a sequence of reads. */
  function Run(chunks: seq<seq<byte>>): Step {
    if chunks == [] then Step([], [])
    else
      var before := Run(chunks[..|chunks| - 1]);
      var s := Consume(before.buffer + chunks[|chunks| - 1]);
      Step(before.frames + s.frames, s.buffer)
  }

  /** While the encoder writes frames, whatever the reads cut it into: what was emitted is the first
      frames in order, emitted frames and buffer are together the bytes read, and the buffer is a
      proper prefix of the next frame (or a whole one of seven bytes). */
  lemma {:induction false} StreamingSplit(frames: seq<seq<byte>>, chunks: seq<seq<byte>>) returns (m: nat)
    requires AllFrames(frames) && Concat(chunks) <= Concat(frames)
    ensures m <= |frames| && Run(chunks).frames == frames[..m]
    ensures Concat(Run(chunks).frames) + Run(chunks).buffer == Concat(chunks)
    ensures Reaches(Concat(chunks), frames, m, Run(chunks).buffer)
    decreases |chunks|
  {
    hide LengthAt, SyncAt, IsFrame, Consume, Held;
    if chunks == [] {
      m := 0;
      NothingRead(frames);
    } else {
      var front, last := chunks[..|chunks| - 1], chunks[|chunks| - 1];
      ConcatLast(chunks);
      var k := StreamingSplit(frames, front);
      var t := Run(front).buffer;
      var t';
      m, t' := PrefixReaches(Concat(chunks), frames);
      ReachesMonotone(frames, Concat(front), k, t, last, m, t');
      assert Concat(front) + last == Concat(frames[..k]) + t + last;
      ConsumeReaches(frames, k, t, last, m, t');
      assert frames[..k] + frames[k..m] == frames[..m];
    }
  }

  lemma NothingRead(frames: seq<seq<byte>>)
    requires AllFrames(frames)
    ensures Reaches([], frames, 0, [])
  {
    assert Concat(frames[..0]) == [];
    if frames != [] {
      assert IsFrame(frames[0]);
    }
  }

  /** Once everything has been read, all frames have been emitted and nothing is held back, if and
      only if the last frame has at least eight bytes; a last frame of seven stays in the buffer. */
  lemma AllFramesEmitted(frames: seq<seq<byte>>, chunks: seq<seq<byte>>)
    requires AllFrames(frames) && frames != [] && Concat(chunks) == Concat(frames)
    ensures Run(chunks) == Step(frames, []) <==> |frames[|frames| - 1]| >= 8
    ensures |frames[|frames| - 1]| == 7 ==>
              Run(chunks) == Step(frames[..|frames| - 1], frames[|frames| - 1])
  {
    hide LengthAt, SyncAt, IsFrame, Concat, Run;
    var n := |frames|;
    var m := StreamingSplit(frames, chunks);
    var t := Run(chunks).buffer;
    assert frames[..n] == frames;
    if m < n {
      Longer(frames, m, n);
      ConcatLast(frames);
      SplitAfter(Concat(frames[..m]), t, frames[m]);
    }
  }

  // ---------------------------------------------------------------- when the trimming is right

  /** Scanning from `o` on comes upon no frame: the first sync word, if there is one where it is looked
      for, has a length below the header's or beyond the data. */
  predicate NoFrameFrom(data: seq<byte>, o: nat)
    decreases |data| - o
  {
    o + 7 < |data| ==>
      if SyncAt(data, o) then LengthAt(data, o) < 7 || o + LengthAt(data, o) > |data|
      else NoFrameFrom(data, o + 1)
  }

  lemma {:induction false} NoFrameMeans(data: seq<byte>, o: nat)
    ensures NoFrameFrom(data, o) <==> Extract(data, o) == []
    decreases |data| - o
  {
    hide SyncAt, LengthAt;
    if o + 7 < |data| && !SyncAt(data, o) {
      NoFrameMeans(data, o + 1);
    }
  }

  /** No byte is skipped in front of a frame: each frame starts where the one before ends. */
  predicate NoSkipBeforeFrame(data: seq<byte>, o: nat)
    decreases |data| - o
  {
    if o + 7 >= |data| then true
    else if !SyncAt(data, o) then NoFrameFrom(data, o + 1)
    else if !FrameAt(data, o) then true
    else NoSkipBeforeFrame(data, o + LengthAt(data, o))
  }

  /** On any bytes at all, dropping as many bytes as the frames hold leaves the bytes after them
      exactly when nothing was skipped on the way to the last frame. */
  lemma TrimIsRight(data: seq<byte>)
    ensures Concat(Consume(data).frames) + Consume(data).buffer == data <==> NoSkipBeforeFrame(data, 0)
  {
    hide LengthAt, SyncAt, Extract, NoSkipBeforeFrame, Concat;
    TotalIsLength(Extract(data, 0));
    TrimFrom(data, 0);
    ExtractFits(data, 0);
    var s := Consume(data);
    assert data[0..] == data;
    assert data == data[..TotalLength(s.frames)] + s.buffer;
  }

  lemma {:induction false} TrimFrom(data: seq<byte>, o: nat)
    requires o <= |data|
    ensures Concat(Extract(data, o)) <= data[o..] <==> NoSkipBeforeFrame(data, o)
    decreases |data| - o
  {
    hide LengthAt, SyncAt;
    if o + 7 < |data| {
      if !SyncAt(data, o) {
        NoFrameMeans(data, o + 1);
        if Extract(data, o + 1) != [] {
          NotAPrefix(data, o);
        }
      } else if FrameAt(data, o) {
        hide Concat;
        var n := LengthAt(data, o);
        TrimFrom(data, o + n);
        FirstFrame(data, o);
        SamePrefix(data[o..o + n], Concat(Extract(data, o + n)), data[o + n..]);
      }
    }
  }

  lemma FirstFrame(data: seq<byte>, o: nat)
    requires o + 7 < |data| && FrameAt(data, o)
    ensures var n := LengthAt(data, o);
            && data[o..] == data[o..o + n] + data[o + n..]
            && Concat(Extract(data, o)) == data[o..o + n] + Concat(Extract(data, o + n))
  {
  }

  lemma SamePrefix(a: seq<byte>, b: seq<byte>, c: seq<byte>)
    ensures a + b <= a + c <==> b <= c
  {
    if b <= c {
      assert (a + c)[..|a + b|] == a + c[..|b|];
    }
    if a + b <= a + c {
      assert b == (a + b)[|a|..] == (a + c)[..|a + b|][|a|..] == c[..|b|];
    }
  }

  lemma NotAPrefix(data: seq<byte>, o: nat)
    requires o + 7 < |data| && !SyncAt(data, o) && Extract(data, o + 1) != []
    ensures !(Concat(Extract(data, o + 1)) <= data[o..])
  {
    hide LengthAt;
    var e := Extract(data, o + 1);
    FirstIsSync(data, o + 1);
    var c, d := Concat(e), data[o..];
    assert c[0] == e[0][0] && c[1] == e[0][1];
    assert d[0] == data[o] && d[1] == data[o + 1];
  }

  lemma {:induction false} FirstIsSync(data: seq<byte>, o: nat)
    requires Extract(data, o) != []
    ensures |Extract(data, o)[0]| >= 7 && SyncAt(Extract(data, o)[0], 0)
    decreases |data| - o
  {
    if !SyncAt(data, o) {
      FirstIsSync(data, o + 1);
    }
  }

  /** Every read of a run skips nothing before a frame. */
  predicate NoSkipInRun(chunks: seq<seq<byte>>) {
    chunks == [] ||
    var n := |chunks| - 1;
    NoSkipInRun(chunks[..n]) && NoSkipBeforeFrame(Run(chunks[..n]).buffer + chunks[n], 0)
  }

  /** What is held back is the end of what was read, as many bytes as were not emitted. */
  lemma {:induction false} HeldBack(chunks: seq<seq<byte>>)
    ensures var r, all := Run(chunks), Concat(chunks);
            |Concat(r.frames)| + |r.buffer| == |all| && r.buffer == all[|Concat(r.frames)|..]
    decreases |chunks|
  {
    hide Consume, Extract, Concat;
    if chunks == [] {
      NothingIsNothing();
    } else {
      var n := |chunks| - 1;
      var front, last := chunks[..n], chunks[n];
      var data := Run(front).buffer + last;
      HeldBack(front);
      ConcatLast(chunks);
      ConsumeCuts(data);
      ConcatSplit(Run(front).frames, Consume(data).frames);
      var a, m := Concat(front), |Concat(Run(front).frames)|;
      assert (a + last)[m..] == a[m..] + last;
    }
  }

  lemma NothingIsNothing()
    ensures Concat([]) == []
  {
  }

  lemma ConsumeCuts(data: seq<byte>)
    ensures var s := Consume(data);
            |Concat(s.frames)| <= |data| && s.buffer == data[|Concat(s.frames)|..]
  {
    ExtractFits(data, 0);
    TotalIsLength(Extract(data, 0));
  }

  /** On any bytes in any chunks, the frames emitted so far and the buffer are together the bytes read
      exactly when no read has skipped bytes before a frame: a later read never makes up for one. */
  lemma {:induction false} RunIsRight(chunks: seq<seq<byte>>)
    ensures Concat(Run(chunks).frames) + Run(chunks).buffer == Concat(chunks) <==> NoSkipInRun(chunks)
    decreases |chunks|
  {
    hide Consume, Extract, Concat, NoSkipBeforeFrame;
    if chunks == [] {
      NothingIsNothing();
    } else {
      var n := |chunks| - 1;
      var front, last := chunks[..n], chunks[n];
      var r := Run(front);
      var s := Consume(r.buffer + last);
      RunIsRight(front);
      HeldBack(front);
      ConcatLast(chunks);
      ConcatSplit(r.frames, s.frames);
      TrimIsRight(r.buffer + last);
      SameStart(Concat(front), Concat(r.frames), r.buffer, last, Concat(s.frames) + s.buffer);
      assert Concat(r.frames) + Concat(s.frames) + s.buffer == Concat(r.frames) + (Concat(s.frames) + s.buffer);
    }
  }

  lemma SameStart(all: seq<byte>, f: seq<byte>, b: seq<byte>, c: seq<byte>, rest: seq<byte>)
    requires |f| + |b| == |all| && b == all[|f|..]
    ensures f + rest == all + c <==> f + b == all && rest == b + c
  {
    if f + rest == all + c {
      assert f == (f + rest)[..|f|] == (all + c)[..|f|] == all[..|f|];
      assert rest == (f + rest)[|f|..] == (all + c)[|f|..] == b + c;
    }
    if f + b == all && rest == b + c {
      assert f + (b + c) == (f + b) + c;
    }
  }

  /** One stray byte in front of a frame: the frame is emitted, and its last byte stays behind. */
  lemma StrayByteExample()
    ensures var frame: seq<byte> := [0xFF, 0xF1, 0x60, 0x40, 0x01, 0x1F, 0xFC, 0x2A];
            IsFrame(frame) && Consume([0x00] + frame) == Step([frame], [0x2A])
  {
    var frame: seq<byte> := [0xFF, 0xF1, 0x60, 0x40, 0x01, 0x1F, 0xFC, 0x2A];
    var data := [0x00] + frame;
    assert LengthAt(frame, 0) == 8;
    assert LengthAt(data, 1) == 8;
    assert Extract(data, 9) == [];
    assert data[1..9] == frame;
    assert Extract(data, 1) == [frame];
    assert Extract(data, 0) == Extract(data, 1);
  }
}
