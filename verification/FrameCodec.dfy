/** The `FF FE` wire frame of hub/crypto.py and src/protocol/crypto.js. */
module FrameCodec {
  import opened Bytes
  import opened Crc

  const FRAME_HEADER_LEN: nat := 8
  const FRAME_TRAILER_LEN: nat := 2
  const MAX_FRAME_CT_LEN: nat := 256 * 1024

  datatype Frame = Frame(msgType: nat, ciphertext: seq<byte>)

  datatype FrameError = BadMagic | TooLarge | BadCrc

  datatype Parsed = NeedMore | Got(frame: Frame, rest: seq<byte>) | Malformed(error: FrameError)

  function Magic(): seq<byte> {
    [0xFF, 0xFE]
  }

  /** `crc.to_bytes(2, "big")`. */
  function BigEndian(crc: bv16): (s: seq<byte>)
    ensures |s| == 2
  {
    [(crc >> 8) as byte, (crc & 0xFF) as byte]
  }

  function CrcBytes(ciphertext: seq<byte>): (s: seq<byte>)
    ensures |s| == 2
  {
    BigEndian(Crc16(ciphertext))
  }

  function Header(msgType: nat, length: nat): (s: seq<byte>)
    ensures |s| == FRAME_HEADER_LEN
  {
    Magic() + ToBe(msgType, 2) + ToBe(length, 4)
  }

  datatype EncodeError = TypeOverflow | LengthOverflow

  /** `Frame.encode`; the two integer fields refuse values wider than they are. */
  function Encode(f: Frame): Result<seq<byte>, EncodeError> {
    if f.msgType >= Pow256(2) then Err(TypeOverflow)
    else if |f.ciphertext| >= Pow256(4) then Err(LengthOverflow)
    else Ok(Header(f.msgType, |f.ciphertext|) + f.ciphertext + CrcBytes(f.ciphertext))
  }

  function LengthField(data: seq<byte>): nat
    requires |data| >= FRAME_HEADER_LEN
  {
    FromBe(data[4..8])
  }

  /** `parse_frame`: one frame off the head of `data`. */
  function Parse(data: seq<byte>): Parsed {
    if |data| < FRAME_HEADER_LEN then NeedMore
    else if data[..2] != Magic() then Malformed(BadMagic)
    else
      var length := LengthField(data);
      if length > MAX_FRAME_CT_LEN then Malformed(TooLarge)
      else
        var total := FRAME_HEADER_LEN + length + FRAME_TRAILER_LEN;
        if |data| < total then NeedMore
        else
          var ct := data[FRAME_HEADER_LEN..FRAME_HEADER_LEN + length];
          if data[FRAME_HEADER_LEN + length..total] != CrcBytes(ct) then Malformed(BadCrc)
          else Got(Frame(FromBe(data[2..4]), ct), data[total..])
  }

  /** Frames the parser is willing to return. */
  predicate Acceptable(f: Frame) {
    Encode(f).Ok? && |f.ciphertext| <= MAX_FRAME_CT_LEN
  }

  function Wire(f: Frame): (s: seq<byte>)
    requires Acceptable(f)
    ensures |s| == FRAME_HEADER_LEN + |f.ciphertext| + FRAME_TRAILER_LEN
  {
    Encode(f).value
  }

  lemma WireParts(f: Frame, tail: seq<byte>)
    requires Acceptable(f)
    ensures var s := Wire(f) + tail;
            var n := |f.ciphertext|;
            && s[..2] == Magic() && s[2..4] == ToBe(f.msgType, 2) && s[4..8] == ToBe(n, 4)
            && s[8..8 + n] == f.ciphertext && s[8 + n..10 + n] == CrcBytes(f.ciphertext)
            && s[10 + n..] == tail
  {
    hide ToBe;
  }

  lemma PowersOf256()
    ensures Pow256(2) == 0x1_0000 && Pow256(4) == 0x1_0000_0000
  {
  }

  /** When a frame cannot be encoded, and every byte of one that can. */
  lemma EncodedBytes(f: Frame)
    ensures Encode(f) == Err(TypeOverflow) <==> f.msgType > 0xFFFF
    ensures Encode(f) == Err(LengthOverflow) <==> f.msgType <= 0xFFFF && |f.ciphertext| > 0xFFFF_FFFF
    ensures Encode(f).Ok? ==>
              var s, n, crc := Encode(f).value, |f.ciphertext|, Crc16(f.ciphertext);
              && |s| == 10 + n && s[0] == 0xFF && s[1] == 0xFE
              && 0x100 * Val(s[2]) + Val(s[3]) == f.msgType
              && 0x100_0000 * Val(s[4]) + 0x1_0000 * Val(s[5]) + 0x100 * Val(s[6]) + Val(s[7]) == n
              && s[8..8 + n] == f.ciphertext
              && s[8 + n] == (crc >> 8) as byte && s[9 + n] == (crc & 0xFF) as byte
  {
    hide ToBe, FromBe, Crc16, Val;
    PowersOf256();
    if Encode(f).Ok? {
      var n := |f.ciphertext|;
      BeRoundTrip(f.msgType, 2);
      BeRoundTrip(n, 4);
      BigEndianFields(ToBe(f.msgType, 2));
      BigEndianFields(ToBe(n, 4));
      EncodedParts(f);
    }
  }

  lemma EncodedParts(f: Frame)
    requires Encode(f).Ok?
    ensures var s, n := Encode(f).value, |f.ciphertext|;
            && |s| == 10 + n && s[0] == 0xFF && s[1] == 0xFE
            && [s[2], s[3]] == ToBe(f.msgType, 2) && [s[4], s[5], s[6], s[7]] == ToBe(n, 4)
            && s[8..8 + n] == f.ciphertext && s[8 + n] == CrcBytes(f.ciphertext)[0]
            && s[9 + n] == CrcBytes(f.ciphertext)[1]
  {
    hide ToBe, CrcBytes;
  }

  /** The number in the length field. */
  function Length(data: seq<byte>): nat
    requires |data| >= 8
  {
    0x100_0000 * Val(data[4]) + 0x1_0000 * Val(data[5]) + 0x100 * Val(data[6]) + Val(data[7])
  }

  /** The verdicts, each with its exact condition; the checks come in this order. */
  lemma ParseVerdicts(data: seq<byte>)
    ensures |data| < 8 ==> Parse(data) == NeedMore
    ensures |data| >= 8 ==>
              var n := Length(data);
              var magic := data[0] == 0xFF && data[1] == 0xFE;
              && (Parse(data) == Malformed(BadMagic) <==> !magic)
              && (Parse(data) == Malformed(TooLarge) <==> magic && n > 262144)
              && (Parse(data) == NeedMore <==> magic && n <= 262144 && |data| < 10 + n)
              && (magic && n <= 262144 && |data| >= 10 + n ==>
                    var crc := Crc16(data[8..8 + n]);
                    var right := data[8 + n] == (crc >> 8) as byte && data[9 + n] == (crc & 0xFF) as byte;
                    && (Parse(data) == Malformed(BadCrc) <==> !right)
                    && (right ==> Parse(data) == Got(Frame(0x100 * Val(data[2]) + Val(data[3]), data[8..8 + n]),
                                                     data[10 + n..])))
  {
    hide FromBe, Crc16, Val, Length, LengthField, Magic;
    if |data| >= 8 {
      HeaderFields(data);
      var n := Length(data);
      if |data| >= 10 + n {
        assert data[8 + n..10 + n] == [data[8 + n], data[9 + n]];
      }
    }
  }

  lemma HeaderFields(data: seq<byte>)
    requires |data| >= 8
    ensures LengthField(data) == Length(data) && FromBe(data[2..4]) == 0x100 * Val(data[2]) + Val(data[3])
    ensures data[..2] == Magic() <==> data[0] == 0xFF && data[1] == 0xFE
  {
    hide FromBe, Val;
    BigEndianFields(data[2..4]);
    BigEndianFields(data[4..8]);
    assert data[..2] == [data[0], data[1]];
  }

  /** Parsing an encoded frame gives it back, with whatever followed it. */
  lemma ParseOfWire(f: Frame, tail: seq<byte>)
    requires Acceptable(f)
    ensures Parse(Wire(f) + tail) == Got(f, tail)
  {
    hide ToBe, FromBe, Encode, CrcBytes;
    FieldsFit(f);
    WireParts(f, tail);
  }

  lemma FieldsFit(f: Frame)
    requires Acceptable(f)
    ensures FromBe(ToBe(f.msgType, 2)) == f.msgType && FromBe(ToBe(|f.ciphertext|, 4)) == |f.ciphertext|
  {
    hide ToBe, FromBe;
    BeRoundTrip(f.msgType, 2);
    BeRoundTrip(|f.ciphertext|, 4);
  }

  /** A frame is returned only for the bytes that encode it. */
  lemma ParseIsSound(data: seq<byte>)
    requires Parse(data).Got?
    ensures Acceptable(Parse(data).frame)
    ensures data == Wire(Parse(data).frame) + Parse(data).rest
  {
    hide ToBe, FromBe, CrcBytes;
    PowersOf256();
    BeInverse(data[2..4]);
    BeInverse(data[4..8]);
    var n := LengthField(data);
    assert data == data[..2] + data[2..4] + data[4..8] + data[8..8 + n] + data[8 + n..10 + n] + data[10 + n..];
  }

  /** The verdict on a prefix is the verdict on everything that starts with it. */
  lemma ParseExtends(data: seq<byte>, more: seq<byte>)
    ensures Parse(data).Got? ==> Parse(data + more) == Got(Parse(data).frame, Parse(data).rest + more)
    ensures Parse(data).Malformed? ==> Parse(data + more) == Parse(data)
  {
    hide FromBe, CrcBytes;
    if |data| >= 8 {
      var s := data + more;
      assert s[..2] == data[..2] && s[2..4] == data[2..4] && s[4..8] == data[4..8];
      var n := LengthField(data);
      if |data| >= 10 + n {
        assert s[8..8 + n] == data[8..8 + n] && s[8 + n..10 + n] == data[8 + n..10 + n];
        assert s[10 + n..] == data[10 + n..] + more;
      }
    }
  }

  /** Waiting for more is bounded: fewer than 8 + 262144 + 2 bytes are ever held back. */
  lemma HeldBackBound(data: seq<byte>)
    requires Parse(data).NeedMore?
    ensures |data| < FRAME_HEADER_LEN + MAX_FRAME_CT_LEN + FRAME_TRAILER_LEN
  {
  }

  /** A frame whose ciphertext was altered within sixteen adjacent bits is rejected, whatever
      follows it on the wire. */
  lemma AlteredFrameRejected(f: Frame, altered: seq<byte>, p: nat, tail: seq<byte>)
    requires Acceptable(f) && |altered| == |f.ciphertext| && altered != f.ciphertext
    requires DifferWithin16(f.ciphertext, altered, p)
    ensures Parse(Header(f.msgType, |altered|) + altered + CrcBytes(f.ciphertext) + tail) == Malformed(BadCrc)
  {
    assert CrcBytes(f.ciphertext) != CrcBytes(altered) by {
      BurstDetected(f.ciphertext, altered, p);
      if CrcBytes(f.ciphertext) == CrcBytes(altered) {
        BigEndianInjective(Crc16(f.ciphertext), Crc16(altered));
      }
    }
    RejectedByCrc(f, altered, tail);
  }

  lemma RejectedByCrc(f: Frame, altered: seq<byte>, tail: seq<byte>)
    requires Acceptable(f) && |altered| == |f.ciphertext|
    requires CrcBytes(f.ciphertext) != CrcBytes(altered)
    ensures Parse(Header(f.msgType, |altered|) + altered + CrcBytes(f.ciphertext) + tail) == Malformed(BadCrc)
  {
    hide ToBe, FromBe, CrcBytes, Encode;
    FieldsFit(f);
    var n := |altered|;
    var s := Header(f.msgType, n) + altered + CrcBytes(f.ciphertext) + tail;
    assert s[..2] == Magic() && s[4..8] == ToBe(n, 4);
    assert s[8..8 + n] == altered && s[8 + n..10 + n] == CrcBytes(f.ciphertext);
  }

  lemma BigEndianInjective(x: bv16, y: bv16)
    requires BigEndian(x) == BigEndian(y)
    ensures x == y
  {
  }
}
