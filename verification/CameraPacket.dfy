/** The control packets of device/camera/protocol.py, under the table-driven checksum. */
module CameraPacket {
  import opened Bytes
  import opened Crc
  import opened FrameCodec

  const TYPE_ACK: byte := 2

  function PacketMagic(): seq<byte> { [0xFE, 0xEF] }

  /** What the checksum covers: type, payload length and payload. */
  function Covered(typ: byte, payload: seq<byte>): (s: seq<byte>)
    ensures |s| == 3 + |payload|
  {
    [typ] + ToBe(|payload|, 2) + payload
  }

  function Wire(typ: byte, payload: seq<byte>): (s: seq<byte>)
    ensures |s| == 7 + |payload|
  {
    PacketMagic() + Covered(typ, payload) + BigEndian(Kermit(Covered(typ, payload)))
  }

  /** `build_packet`; numbers that do not fit their field raise an error. */
  function BuildPacket(typ: nat, value: nat): Result<seq<byte>, string> {
    if typ >= 256 then Err("type")
    else if Byte(typ) == TYPE_ACK then Ok(Wire(Byte(typ), [Byte(value % 256)]))
    else if value >= 0x1_0000_0000_0000_0000 then Err("value")
    else Ok(Wire(Byte(typ), ToBe(value, 8)))
  }

  datatype Parsed = Rejected | Packet(typ: byte, value: nat) | IndexFault

  /** `parse_packet`. */
  function ParsePacket(data: seq<byte>): Parsed {
    if |data| < 8 || data[..2] != PacketMagic() || data[2] > 3 then Rejected
    else
      var n := FromBe(data[3..5]);
      if |data| < 7 + n || data[5 + n..7 + n] != BigEndian(Kermit(data[2..5 + n])) then Rejected
      else if data[2] != TYPE_ACK then Packet(data[2], FromBe(data[5..5 + n]))
      else if n == 0 then IndexFault
      else Packet(data[2], Val(data[5]))
  }

  // ---------------------------------------------------------------- reading what was built

  lemma PacketFields(typ: byte, payload: seq<byte>, crc: seq<byte>, tail: seq<byte>)
    requires |crc| == 2
    ensures var s, n := PacketMagic() + Covered(typ, payload) + crc + tail, |payload|;
            && |s| == 7 + n + |tail| && s[..2] == PacketMagic() && s[2] == typ
            && s[2..5 + n] == Covered(typ, payload) && s[3..5] == ToBe(n, 2)
            && s[5..5 + n] == payload && s[5 + n..7 + n] == crc
  {
    hide ToBe;
    var s, n := PacketMagic() + Covered(typ, payload) + crc + tail, |payload|;
    assert s[2..5 + n] == Covered(typ, payload);
    assert s[3..5] == Covered(typ, payload)[1..3] == ToBe(n, 2);
    assert s[5..5 + n] == Covered(typ, payload)[3..];
  }

  lemma FieldWidths()
    ensures Pow256(2) == 0x1_0000 && Pow256(8) == 0x1_0000_0000_0000_0000
  {
  }

  /** A packet of a known type is read back, also in front of further bytes; an acknowledgement keeps
      the low byte of its value only. */
  lemma PacketRoundTrip(typ: nat, value: nat, tail: seq<byte>)
    requires typ <= 3 && value < 0x1_0000_0000_0000_0000
    ensures BuildPacket(typ, value).Ok?
    ensures ParsePacket(BuildPacket(typ, value).value + tail)
         == Packet(Byte(typ), if Byte(typ) == TYPE_ACK then value % 256 else value)
  {
    hide Kermit, BigEndian, ToBe, FromBe, Val, Covered;
    var ack := Byte(typ) == TYPE_ACK;
    var payload := if ack then [Byte(value % 256)] else ToBe(value, 8);
    var t := Byte(typ);
    FieldWidths();
    BeRoundTrip(|payload|, 2);
    BeRoundTrip(value, 8);
    ValOfByte(value % 256);
    KnownType(typ);
    PacketFields(t, payload, BigEndian(Kermit(Covered(t, payload))), tail);
  }

  lemma KnownType(typ: nat)
    requires typ < 256
    ensures Byte(typ) <= 3 <==> typ <= 3
  {
  }

  /** Every byte of a packet. */
  lemma WireBytes(typ: byte, payload: seq<byte>)
    requires |payload| < 0x1_0000
    ensures var s, n := Wire(typ, payload), |payload|;
            var crc := Kermit(s[2..5 + n]);
            && |s| == 7 + n && s[0] == 0xFE && s[1] == 0xEF && s[2] == typ
            && 0x100 * Val(s[3]) + Val(s[4]) == n && s[5..5 + n] == payload
            && s[5 + n] == (crc >> 8) as byte && s[6 + n] == (crc & 0xFF) as byte
  {
    hide ToBe, FromBe, Kermit, Val, Covered;
    var crc := BigEndian(Kermit(Covered(typ, payload)));
    PacketFields(typ, payload, crc, []);
    var s, n := Wire(typ, payload), |payload|;
    assert s == PacketMagic() + Covered(typ, payload) + crc + [];
    FieldWidths();
    BeRoundTrip(n, 2);
    BigEndianFields(s[3..5]);
    assert s[..2] == [s[0], s[1]] && s[5 + n..7 + n] == [s[5 + n], s[6 + n]];
  }

  /** When a packet cannot be built: a type wider than a byte, or, for any type but the
      acknowledgement, a value wider than eight bytes. */
  lemma BuildErrors(typ: nat, value: nat)
    ensures BuildPacket(typ, value).Ok? <==> typ < 256 && (typ == 2 || value < 0x1_0000_0000_0000_0000)
    ensures typ == 2 ==> BuildPacket(typ, value) == Ok(Wire(2, [Byte(value % 256)]))
    ensures BuildPacket(typ, value).Ok? && typ != 2 ==> BuildPacket(typ, value) == Ok(Wire(Byte(typ), ToBe(value, 8)))
  {
    hide ToBe, Wire;
    if typ < 256 { ValOfByte(typ); ValOfByte(2); }
  }

  /** Every packet of a known type and of eight bytes or more is read, whoever built it and whatever
      its payload. */
  lemma EveryPacketIsRead(typ: byte, payload: seq<byte>, tail: seq<byte>)
    requires typ <= 3 && |payload| < 0x1_0000 && 7 + |payload| + |tail| >= 8
    ensures ParsePacket(Wire(typ, payload) + tail)
         == if typ != 2 then Packet(typ, FromBe(payload))
            else if payload == [] then IndexFault
            else Packet(typ, Val(payload[0]))
  {
    hide Kermit, BigEndian, ToBe, FromBe, Val, Covered;
    FieldWidths();
    BeRoundTrip(|payload|, 2);
    PacketFields(typ, payload, BigEndian(Kermit(Covered(typ, payload))), tail);
  }

  /** What is read was written: some payload under its checksum starts the data. */
  lemma ParseIsSound(data: seq<byte>) returns (payload: seq<byte>)
    requires ParsePacket(data) != Rejected
    ensures |payload| < 0x1_0000 && |data| >= 3 && data[2] <= 3 && Wire(data[2], payload) <= data
    ensures ParsePacket(data)
         == if data[2] != TYPE_ACK then Packet(data[2], FromBe(payload))
            else if payload == [] then IndexFault
            else Packet(data[2], Val(payload[0]))
  {
    hide Kermit, BigEndian, ToBe, FromBe;
    var n := FromBe(data[3..5]);
    FieldWidths();
    BeInverse(data[3..5]);
    payload := data[5..5 + n];
    assert data[2..5 + n] == [data[2]] + data[3..5] + payload;
    assert data[..7 + n] == data[..2] + data[2..5 + n] + data[5 + n..7 + n];
  }

  /** The one input that raises: an acknowledgement without payload under its right checksum, and one
      byte more at least. */
  lemma IndexFaultIff(data: seq<byte>)
    ensures ParsePacket(data) == IndexFault <==> |data| >= 8 && Wire(TYPE_ACK, []) <= data
  {
    hide Kermit, BigEndian, ToBe, FromBe;
    if ParsePacket(data) == IndexFault {
      var payload := ParseIsSound(data);
    }
    if |data| >= 8 && Wire(TYPE_ACK, []) <= data {
      var crc := BigEndian(Kermit(Covered(TYPE_ACK, [])));
      FieldWidths();
      BeRoundTrip(0, 2);
      PacketFields(TYPE_ACK, [], crc, data[7..]);
      assert data == Wire(TYPE_ACK, []) + data[7..];
    }
  }

  // ---------------------------------------------------------------- what the checksum detects

  lemma ReverseInjective(x: byte, y: byte)
    requires Reverse8(x) == Reverse8(y)
    ensures x == y
  {
  }

  /** The table-driven checksum, too, tells apart any two messages that differ in two adjacent bytes
      at most: the mirror image carries the property over. */
  lemma AdjacentBytesDetected(a: seq<byte>, b: seq<byte>, i: nat)
    requires |a| == |b| && a != b && forall k | 0 <= k < |a| && k != i && k != i + 1 :: a[k] == b[k]
    ensures Kermit(a) != Kermit(b)
  {
    hide Reverse8, Kermit, Crc16, BitAt;
    var x, y := ReverseEach(a), ReverseEach(b);
    ChecksumsMirror(a);
    ChecksumsMirror(b);
    var k :| 0 <= k < |a| && a[k] != b[k];
    assert x[k] != y[k] by {
      if x[k] == y[k] { ReverseInjective(a[k], b[k]); }
    }
    forall q: nat | q < 8 * |x| && BitAt(x, q) != BitAt(y, q) ensures 8 * i <= q < 8 * i + 16 {
      SameByteSameBit(x, y, q);
      assert x[q / 8] != y[q / 8];
      assert q / 8 == i || q / 8 == i + 1;
    }
    BurstDetected(x, y, 8 * i);
  }

  lemma SameByteSameBit(x: seq<byte>, y: seq<byte>, q: nat)
    requires |x| == |y| && q < 8 * |x|
    ensures x[q / 8] == y[q / 8] ==> BitAt(x, q) == BitAt(y, q)
  {
  }

  /** A packet whose payload was altered in two adjacent bytes at most is rejected, whatever follows. */
  lemma AlteredPacketRejected(typ: byte, payload: seq<byte>, altered: seq<byte>, i: nat, tail: seq<byte>)
    requires |payload| == |altered| < 0x1_0000 && payload != altered
    requires forall k | 0 <= k < |payload| && k != i && k != i + 1 :: payload[k] == altered[k]
    ensures ParsePacket(PacketMagic() + Covered(typ, altered) + BigEndian(Kermit(Covered(typ, payload))) + tail)
         == Rejected
  {
    hide Kermit, BigEndian, ToBe, FromBe;
    var a, b := Covered(typ, payload), Covered(typ, altered);
    var k :| 0 <= k < |payload| && payload[k] != altered[k];
    assert a[3 + k] != b[3 + k];
    AdjacentBytesDetected(a, b, 3 + i);
    if BigEndian(Kermit(a)) == BigEndian(Kermit(b)) {
      BigEndianInjective(Kermit(a), Kermit(b));
    }
    FieldWidths();
    BeRoundTrip(|altered|, 2);
    PacketFields(typ, altered, BigEndian(Kermit(a)), tail);
  }
}
