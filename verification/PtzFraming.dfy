/** Packets of the PTZ channel: ptz/framing.py around the cipher, ptz/ioctl.py inside it. */
module PtzFraming {
  import opened Bytes
  import opened Cs2

  /** The exceptions the codecs raise. */
  datatype Fault = ValueError | IndexError | OverflowError

  const MAGIC: byte := 0xF1
  const DRW_TYPE: byte := 0xD0
  const IOCTL_MARKER: byte := 0xD1
  const TAG: seq<byte> := [0x6C, 0x75, 0x6D, 0x69]

  /** `s[a:b]` as Python cuts it. */
  function Slice(s: seq<byte>, a: nat, b: nat): (r: seq<byte>)
    requires a <= b
    ensures b <= |s| ==> r == s[a..b]
    ensures |r| == b - a ==> a == b || b <= |s|
  {
    if a >= |s| then [] else if b > |s| then s[a..] else s[a..b]
  }

  /** Magic, type, length and body. */
  function Packet(typ: byte, body: seq<byte>): (p: seq<byte>)
    ensures |p| == 4 + |body|
  {
    [MAGIC, typ] + ToBe(|body|, 2) + body
  }

  // ---------------------------------------------------------------- control packets

  function BuildControl(key: seq<byte>, typ: nat, payload: seq<byte>): Result<seq<byte>, Fault> {
    if |payload| >= 0x1_0000 then Err(OverflowError)
    else Ok(Encrypt(key, Packet(Byte(typ % 256), payload)))
  }

  function ReadControl(dec: seq<byte>): Result<(byte, seq<byte>), Fault> {
    if dec == [] || dec[0] != MAGIC then Err(ValueError)
    else if |dec| < 2 then Err(IndexError)
    else
      var length := FromBe(Slice(dec, 2, 4));
      var payload := Slice(dec, 4, 4 + length);
      if |payload| != length then Err(ValueError) else Ok((dec[1], payload))
  }

  function ParseControl(key: seq<byte>, wire: seq<byte>): Result<(byte, seq<byte>), Fault> {
    ReadControl(Decrypt(key, wire))
  }

  // ---------------------------------------------------------------- data packets

  function WrapIoctl(num: nat, ioctl: seq<byte>): Result<seq<byte>, Fault> {
    var body := [IOCTL_MARKER] + ToBe(num % 0x100_0000, 3) + ioctl;
    if |body| >= 0x1_0000 then Err(OverflowError) else Ok(Packet(DRW_TYPE, body))
  }

  function UnwrapIoctl(inner: seq<byte>): Result<(nat, seq<byte>), Fault> {
    if |inner| < 4 || inner[0] != MAGIC then Err(ValueError)
    else if inner[1] != DRW_TYPE then Err(ValueError)
    else
      var length := FromBe(Slice(inner, 2, 4));
      var body := Slice(inner, 4, 4 + length);
      if |body| != length || |body| < 4 || body[0] != IOCTL_MARKER then Err(ValueError)
      else Ok((FromBe(body[1..4]), body[4..]))
  }

  function BuildIoctlPacket(key: seq<byte>, num: nat, ioctl: seq<byte>): Result<seq<byte>, Fault> {
    match WrapIoctl(num, ioctl)
    case Err(e) => Err(e)
    case Ok(inner) => Ok(Encrypt(key, inner))
  }

  // ---------------------------------------------------------------- the ioctl itself

  /** The JSON library: `text` for `dumps(...).encode()`, `parse` for `loads(....decode("utf-8"))`. */
  datatype Json<!J> = Json(text: J -> seq<byte>, parse: seq<byte> -> Result<J, string>)

  datatype Ioctl<J> = Ioctl(iotype: nat, id: nat, body: J)

  function IoctlBytes(iotype: nat, id: nat, raw: seq<byte>): (r: seq<byte>)
    ensures |r| == 16 + |raw|
  {
    TAG + ToLe(iotype, 4) + ToLe(id, 4) + ToLe(|raw|, 4) + raw
  }

  function BuildIoctl<J>(json: Json<J>, iotype: nat, body: J, id: nat): Result<seq<byte>, Fault> {
    var raw := json.text(body);
    if iotype >= 0x1_0000_0000 || id >= 0x1_0000_0000 || |raw| >= 0x1_0000_0000 then Err(OverflowError)
    else Ok(IoctlBytes(iotype, id, raw))
  }

  function ParseIoctl<J>(json: Json<J>, buf: seq<byte>): Result<Ioctl<J>, Fault> {
    if |buf| < 16 || buf[..4] != TAG then Err(ValueError)
    else
      var length := FromLe(buf[12..16]);
      if |buf| < 16 + length then Err(ValueError)
      else
        match json.parse(buf[16..16 + length])
        case Err(_) => Err(ValueError)
        case Ok(body) => Ok(Ioctl(FromLe(buf[4..8]), FromLe(buf[8..12]), body))
  }

  /** What `recv_ioctl` makes of one datagram: an ioctl to return, or nothing. */
  function Received<J>(json: Json<J>, key: seq<byte>, wire: seq<byte>): Result<Ioctl<J>, Fault> {
    match UnwrapIoctl(Decrypt(key, wire))
    case Err(e) => Err(e)
    case Ok((_, ioctl)) => ParseIoctl(json, ioctl)
  }

  // ---------------------------------------------------------------- reading what was built

  lemma Pow256Values()
    ensures Pow256(2) == 0x1_0000 && Pow256(3) == 0x100_0000 && Pow256(4) == 0x1_0000_0000
  {
  }

  lemma CutPrefix(p: seq<byte>, s: seq<byte>, a: nat, b: nat)
    requires p <= s && a <= b <= |p|
    ensures s[a..b] == p[a..b]
  {
  }

  lemma PacketParts(typ: byte, body: seq<byte>)
    ensures Packet(typ, body)[0] == MAGIC && Packet(typ, body)[1] == typ
    ensures Packet(typ, body)[2..4] == ToBe(|body|, 2) && Packet(typ, body)[4..] == body
  {
  }

  /** The header of a packet, and the marker and the number of a data packet in front of its ioctl. */
  lemma PacketBytes(typ: byte, body: seq<byte>, num: nat, ioctl: seq<byte>)
    requires |body| < 0x1_0000
    ensures var p := Packet(typ, body);
            p[0] == 0xF1 && p[1] == typ && 0x100 * Val(p[2]) + Val(p[3]) == |body| && p[4..] == body
    ensures WrapIoctl(num, ioctl).Ok? <==> 4 + |ioctl| < 0x1_0000
    ensures WrapIoctl(num, ioctl).Ok? ==>
              var w := WrapIoctl(num, ioctl).value;
              && |w| == 8 + |ioctl| && w[1] == 0xD0 && w[4] == 0xD1 && FromBe(w[5..8]) == num % 0x100_0000
              && w[8..] == ioctl
  {
    hide ToBe, FromBe, Val;
    Pow256Values();
    BeRoundTrip(|body|, 2);
    BigEndianFields(ToBe(|body|, 2));
    PacketParts(typ, body);
    assert Packet(typ, body)[2..4] == [Packet(typ, body)[2], Packet(typ, body)[3]];
    var inner := [IOCTL_MARKER] + ToBe(num % 0x100_0000, 3) + ioctl;
    BeRoundTrip(num % 0x100_0000, 3);
    IoctlBodyParts(num, ioctl);
    PacketParts(DRW_TYPE, inner);
    var w := Packet(DRW_TYPE, inner);
    assert w[4..][1..4] == w[5..8] && w[4..][4..] == w[8..] && w[4..][0] == w[4];
  }

  /** A text of four bytes or more starts with a packet exactly when its header and length say so. */
  lemma StartsWithPacket(s: seq<byte>, typ: byte, body: seq<byte>)
    requires |s| >= 4
    ensures && s[0] == MAGIC && s[1] == typ && FromBe(s[2..4]) == |body| && Slice(s, 4, 4 + |body|) == body
        <==> |body| < 0x1_0000 && Packet(typ, body) <= s
  {
    hide ToBe, FromBe;
    var p := Packet(typ, body);
    Pow256Values();
    PacketParts(typ, body);
    BeRoundTrip(|body|, 2);
    BeInverse(s[2..4]);
    if p <= s && |body| < 0x1_0000 {
      CutPrefix(p, s, 2, 4);
      CutPrefix(p, s, 4, |p|);
    }
    if s[0] == MAGIC && s[1] == typ && FromBe(s[2..4]) == |body| && Slice(s, 4, 4 + |body|) == body {
      assert 4 + |body| <= |s|;
      assert s[..4 + |body|] == s[..2] + s[2..4] + s[4..4 + |body|];
      assert s[..2] == [MAGIC, typ];
    }
  }

  /** From four bytes on, a datagram is read as a control packet exactly when it starts with that
      control packet as it is built. */
  lemma ParseControlIff(key: seq<byte>, wire: seq<byte>, typ: byte, payload: seq<byte>)
    requires |wire| >= 4
    ensures ParseControl(key, wire) == Ok((typ, payload))
       <==> && BuildControl(key, Val(typ), payload).Ok?
            && BuildControl(key, Val(typ), payload).value <= wire
  {
    hide Packet, FromBe, Encrypt, Decrypt, Val, Byte;
    var dec := Decrypt(key, wire);
    ByteOfVal(typ);
    StartsWithPacket(dec, typ, payload);
    StartsLike(key, Packet(typ, payload), wire);
  }

  lemma StartsLike(key: seq<byte>, plain: seq<byte>, wire: seq<byte>)
    ensures Encrypt(key, plain) <= wire <==> plain <= Decrypt(key, wire)
  {
    hide Encrypt, Decrypt;
    var n, dec := |plain|, Decrypt(key, wire);
    CipherRoundTrip(key, plain);
    if n <= |wire| {
      PrefixCommutes(key, wire, n);
      CipherRoundTrip(key, wire[..n]);
      assert plain <= dec <==> dec[..n] == plain;
      assert Encrypt(key, plain) <= wire <==> wire[..n] == Encrypt(key, plain);
    }
  }

  /** Shorter datagrams: a bare magic byte raises an index error, two bytes or three with a zero are
      read as an empty payload, and nothing else is accepted. */
  lemma ShortControl(key: seq<byte>, wire: seq<byte>)
    requires |wire| < 4
    ensures var dec := Decrypt(key, wire);
            && (ParseControl(key, wire) == Err(IndexError) <==> dec == [MAGIC])
            && (ParseControl(key, wire).Ok?
                <==> |dec| >= 2 && dec[0] == MAGIC && (|dec| == 3 ==> dec[2] == 0))
            && (ParseControl(key, wire).Ok? ==> ParseControl(key, wire).value == (dec[1], []))
  {
    hide Decrypt, Val;
    var dec := Decrypt(key, wire);
    if |dec| == 3 {
      var third := Slice(dec, 2, 4);
      assert third == [dec[2]];
      assert FromBe(third) == 256 * FromBe([]) + Val(dec[2]);
      ByteOfVal(dec[2]);
      ByteOfVal(0);
      assert Val(0) == 0 by { ValOfByte(0); assert Byte(0) == 0; }
    }
  }

  lemma ControlRoundTrip(key: seq<byte>, typ: nat, payload: seq<byte>, extra: seq<byte>)
    requires |payload| < 0x1_0000
    ensures BuildControl(key, typ, payload).Ok?
    ensures ParseControl(key, BuildControl(key, typ, payload).value + extra)
         == Ok((Byte(typ % 256), payload))
  {
    hide Encrypt, Decrypt, Val, Byte;
    ValOfByte(typ % 256);
    ParseControlIff(key, BuildControl(key, typ, payload).value + extra, Byte(typ % 256), payload);
  }

  /** Only the one-byte datagram that deciphers to the magic byte raises anything but a value error. */
  lemma ControlFaults(key: seq<byte>, wire: seq<byte>)
    ensures ParseControl(key, wire) == Err(IndexError) <==> wire == Encrypt(key, [MAGIC])
    ensures ParseControl(key, wire) != Err(OverflowError)
  {
  }

  lemma IoctlBodyParts(num: nat, ioctl: seq<byte>)
    ensures var body := [IOCTL_MARKER] + ToBe(num % 0x100_0000, 3) + ioctl;
            body[1..4] == ToBe(num % 0x100_0000, 3) && body[4..] == ioctl
  {
  }

  /** Bytes unwrap to a sequence number and an ioctl exactly when they start with that ioctl
      wrapped under that number. */
  lemma UnwrapIff(inner: seq<byte>, num: nat, ioctl: seq<byte>)
    ensures UnwrapIoctl(inner) == Ok((num, ioctl))
       <==> num < 0x100_0000 && WrapIoctl(num, ioctl).Ok? && WrapIoctl(num, ioctl).value <= inner
  {
    hide Packet, FromBe, ToBe;
    Pow256Values();
    var body := [IOCTL_MARKER] + ToBe(num % 0x100_0000, 3) + ioctl;
    IoctlBodyParts(num, ioctl);
    BeRoundTrip(num, 3);
    if |inner| >= 4 {
      StartsWithPacket(inner, DRW_TYPE, body);
      if UnwrapIoctl(inner) == Ok((num, ioctl)) {
        var read := Slice(inner, 4, 4 + FromBe(Slice(inner, 2, 4)));
        BeInverse(read[1..4]);
        assert read == [read[0]] + read[1..4] + read[4..];
      }
    }
  }

  /** An ioctl comes back under its number modulo two to the 24, if it fits at all: 65531 bytes. */
  lemma WrapRoundTrip(num: nat, ioctl: seq<byte>)
    ensures WrapIoctl(num, ioctl).Ok? <==> |ioctl| <= 65531
    ensures |ioctl| <= 65531 ==>
              UnwrapIoctl(WrapIoctl(num, ioctl).value) == Ok((num % 0x100_0000, ioctl))
  {
    hide Packet, UnwrapIoctl, ToBe;
    var low := num % 0x100_0000;
    assert low % 0x100_0000 == low;
    if |ioctl| <= 65531 {
      assert WrapIoctl(num, ioctl) == WrapIoctl(low, ioctl);
      UnwrapIff(WrapIoctl(num, ioctl).value, low, ioctl);
    }
  }

  lemma IoctlParts(iotype: nat, id: nat, raw: seq<byte>)
    ensures var s := IoctlBytes(iotype, id, raw);
            && s[..4] == TAG && s[4..8] == ToLe(iotype, 4) && s[8..12] == ToLe(id, 4)
            && s[12..16] == ToLe(|raw|, 4) && s[16..] == raw
  {
    hide ToLe;
  }

  /** An ioctl is read back, also in front of further bytes. */
  lemma IoctlRoundTrip<J>(json: Json<J>, iotype: nat, body: J, id: nat, extra: seq<byte>)
    requires json.parse(json.text(body)) == Ok(body) && BuildIoctl(json, iotype, body, id).Ok?
    ensures ParseIoctl(json, BuildIoctl(json, iotype, body, id).value + extra) == Ok(Ioctl(iotype, id, body))
  {
    hide ToLe, FromLe;
    var raw := json.text(body);
    var s := IoctlBytes(iotype, id, raw);
    var t := s + extra;
    Pow256Values();
    IoctlParts(iotype, id, raw);
    LeRoundTrip(iotype, 4);
    LeRoundTrip(id, 4);
    LeRoundTrip(|raw|, 4);
    CutPrefix(s, t, 0, 4);
    CutPrefix(s, t, 4, 8);
    CutPrefix(s, t, 8, 12);
    CutPrefix(s, t, 12, 16);
    CutPrefix(s, t, 16, |s|);
  }

  /** The header of an ioctl: the letters "lumi", then type, id and text length. */
  lemma IoctlHeader(iotype: nat, id: nat, raw: seq<byte>)
    requires iotype < 0x1_0000_0000 && id < 0x1_0000_0000 && |raw| < 0x1_0000_0000
    ensures var s := IoctlBytes(iotype, id, raw);
            && s[0] == 0x6C && s[1] == 0x75 && s[2] == 0x6D && s[3] == 0x69
            && FromLe(s[4..8]) == iotype && FromLe(s[8..12]) == id && FromLe(s[12..16]) == |raw| && s[16..] == raw
  {
    hide ToLe, FromLe;
    Pow256Values();
    IoctlParts(iotype, id, raw);
    LeRoundTrip(iotype, 4);
    LeRoundTrip(id, 4);
    LeRoundTrip(|raw|, 4);
    assert IoctlBytes(iotype, id, raw)[..4] == TAG;
  }

  /** Every ioctl is read, whoever wrote its text, if the text is JSON. */
  lemma EveryIoctlIsRead<J>(json: Json<J>, buf: seq<byte>, iotype: nat, id: nat, raw: seq<byte>)
    requires iotype < 0x1_0000_0000 && id < 0x1_0000_0000 && |raw| < 0x1_0000_0000
    requires IoctlBytes(iotype, id, raw) <= buf
    ensures ParseIoctl(json, buf)
         == if json.parse(raw).Ok? then Ok(Ioctl(iotype, id, json.parse(raw).value)) else Err(ValueError)
  {
    hide ToLe, FromLe, IoctlBytes;
    var s := IoctlBytes(iotype, id, raw);
    IoctlHeader(iotype, id, raw);
    assert s[..4] == TAG;
    CutPrefix(s, buf, 0, 4);
    CutPrefix(s, buf, 4, 8);
    CutPrefix(s, buf, 8, 12);
    CutPrefix(s, buf, 12, 16);
    CutPrefix(s, buf, 16, |s|);
    assert buf[..4] == s[0..4] == TAG && s[16..|s|] == s[16..];
    assert FromLe(buf[12..16]) == |raw| && buf[16..16 + |raw|] == raw;
  }

  /** What is read as an ioctl was written as one. */
  lemma ParseIoctlSound<J>(json: Json<J>, buf: seq<byte>) returns (raw: seq<byte>)
    requires ParseIoctl(json, buf).Ok?
    ensures var i := ParseIoctl(json, buf).value;
            && i.iotype < 0x1_0000_0000 && i.id < 0x1_0000_0000
            && json.parse(raw) == Ok(i.body) && IoctlBytes(i.iotype, i.id, raw) <= buf
  {
    hide ToLe, FromLe;
    Pow256Values();
    var length := FromLe(buf[12..16]);
    raw := buf[16..16 + length];
    LeInverse(buf[4..8]);
    LeInverse(buf[8..12]);
    LeInverse(buf[12..16]);
    assert buf[..16 + length] == buf[..4] + buf[4..8] + buf[8..12] + buf[12..16] + raw;
  }

  /** The whole chain. A packet can be built exactly when type and id fit 32 bits and the body text
      has at most 65515 bytes, and then the other end receives type, id and body as they were. */
  lemma ChainRoundTrip<J>(json: Json<J>, key: seq<byte>, num: nat, iotype: nat, body: J, id: nat)
    requires json.parse(json.text(body)) == Ok(body)
    ensures var io := BuildIoctl(json, iotype, body, id);
            && (io.Ok? && BuildIoctlPacket(key, num, io.value).Ok?
                <==> iotype < 0x1_0000_0000 && id < 0x1_0000_0000 && |json.text(body)| <= 65515)
            && (io.Ok? && BuildIoctlPacket(key, num, io.value).Ok? ==>
                  var wire := BuildIoctlPacket(key, num, io.value).value;
                  && UnwrapIoctl(Decrypt(key, wire)) == Ok((num % 0x100_0000, io.value))
                  && Received(json, key, wire) == Ok(Ioctl(iotype, id, body)))
  {
    hide IoctlBytes, Packet, UnwrapIoctl, ParseIoctl, Encrypt, Decrypt;
    var io := BuildIoctl(json, iotype, body, id);
    if io.Ok? {
      WrapRoundTrip(num, io.value);
      IoctlRoundTrip(json, iotype, body, id, []);
      assert io.value + [] == io.value;
      if WrapIoctl(num, io.value).Ok? {
        CipherRoundTrip(key, WrapIoctl(num, io.value).value);
      }
    }
  }

  /** A control packet of any other type than the data type is never taken for an ioctl. */
  lemma ControlIsNoIoctl<J>(json: Json<J>, key: seq<byte>, typ: nat, payload: seq<byte>)
    requires |payload| < 0x1_0000 && Byte(typ % 256) != DRW_TYPE
    ensures Received(json, key, BuildControl(key, typ, payload).value) == Err(ValueError)
  {
    hide Encrypt, Decrypt, ParseIoctl, ToBe;
    var inner := Packet(Byte(typ % 256), payload);
    CipherRoundTrip(key, inner);
    PacketParts(Byte(typ % 256), payload);
  }
}
