/** The session of ptz/session.py: peer discovery and handshake over whatever datagrams arrive before
    the deadline, and the two counters of the IOCTL channel. */
module PtzSession {
  import opened Bytes
  import opened Cs2
  import opened PtzFraming

  const REPLY: byte := 0x43
  const CONFIRM: byte := 0x44
  const CONFIRM_ALT: byte := 0x42
  const READY: byte := 0xE0

  datatype Address = Address(ip: string, port: nat)

  datatype Datagram = Datagram(wire: seq<byte>, from: Address)

  datatype Outcome = Ready | TimedOut | Broken

  // ---------------------------------------------------------------- what a datagram says

  datatype Event = Ignored | Fatal | Control(typ: byte, payload: seq<byte>)

  /** The loops catch value errors only. */
  function Read(key: seq<byte>, wire: seq<byte>): Event {
    match ParseControl(key, wire)
    case Ok((typ, payload)) => Control(typ, payload)
    case Err(ValueError) => Ignored
    case Err(_) => Fatal
  }

  function Events(key: seq<byte>, datagrams: seq<Datagram>): (r: seq<Event>)
    ensures |r| == |datagrams|
    ensures forall i | 0 <= i < |r| :: r[i] == Read(key, datagrams[i].wire)
    decreases |datagrams|
  {
    hide Read;
    if datagrams == [] then [] else [Read(key, datagrams[0].wire)] + Events(key, datagrams[1..])
  }

  lemma EventsFrom(key: seq<byte>, datagrams: seq<Datagram>, i: nat)
    requires i < |datagrams|
    ensures Events(key, datagrams[i..]) == [Read(key, datagrams[i].wire)] + Events(key, datagrams[i + 1..])
  {
  }

  predicate Says(e: Event, typ: byte) {
    e.Control? && e.typ == typ
  }

  predicate Confirms(e: Event) {
    Says(e, CONFIRM) || Says(e, CONFIRM_ALT)
  }

  // ---------------------------------------------------------------- the handshake, step by step

  /** The wait for the camera's ready packet. */
  function AwaitReady(events: seq<Event>): Outcome {
    if events == [] then TimedOut
    else if events[0].Fatal? then Broken
    else if Says(events[0], READY) then Ready
    else AwaitReady(events[1..])
  }

  datatype Flags = Flags(reply: bool, confirm: bool, ready: bool) {
    function After(e: Event): Flags {
      Flags(reply || Says(e, REPLY), confirm || Confirms(e), ready || Says(e, READY))
    }

    predicate Complete() { reply && (confirm || ready) }
  }

  function Handshake(f: Flags, events: seq<Event>, expectReady: bool): Outcome
    decreases |events|
  {
    if events == [] then TimedOut
    else if events[0].Fatal? then Broken
    else
      var g := f.After(events[0]);
      if !g.Complete() then Handshake(g, events[1..], expectReady)
      else if !expectReady || g.ready then Ready
      else AwaitReady(events[1..])
  }

  // ---------------------------------------------------------------- when the handshake succeeds

  predicate NoFatal(events: seq<Event>) {
    forall e | e in events :: !e.Fatal?
  }

  predicate Heard(events: seq<Event>, typ: byte) {
    events != [] && (Says(events[0], typ) || Heard(events[1..], typ))
  }

  lemma {:induction false} AwaitReadyIff(events: seq<Event>)
    requires NoFatal(events)
    ensures AwaitReady(events) == if Heard(events, 0xE0) then Ready else TimedOut
    decreases |events|
  {
    if events != [] { AwaitReadyIff(events[1..]); }
  }

  /** With a ready packet expected, the handshake succeeds exactly when a reply and a ready packet
      arrive, in either order and whether or not a confirm does; without, when a reply and any of
      confirm and ready arrive. */
  lemma {:induction false} HandshakeIff(f: Flags, events: seq<Event>, expectReady: bool)
    requires NoFatal(events) && !f.Complete()
    ensures var reply := f.reply || Heard(events, 0x43);
            var ready := f.ready || Heard(events, 0xE0);
            var confirm := f.confirm || Heard(events, 0x44) || Heard(events, 0x42);
            Handshake(f, events, expectReady)
              == if reply && (ready || (!expectReady && confirm)) then Ready else TimedOut
    decreases |events|
  {
    if events != [] {
      var g := f.After(events[0]);
      if !g.Complete() {
        HandshakeIff(g, events[1..], expectReady);
      } else {
        AwaitReadyIff(events[1..]);
      }
    }
  }

  lemma {:induction false} AwaitReadyStops(a: seq<Event>, b: seq<Event>)
    requires NoFatal(a)
    ensures AwaitReady(a + b) == if AwaitReady(a) == Ready then Ready else AwaitReady(b)
    decreases |a|
  {
    if a == [] {
      assert a + b == b;
    } else {
      assert (a + b)[1..] == a[1..] + b;
      AwaitReadyStops(a[1..], b);
    }
  }

  /** A datagram whose index error escapes the loop breaks the handshake exactly when it was not
      over before. */
  lemma {:induction false} FatalBreaks(f: Flags, a: seq<Event>, b: seq<Event>, expectReady: bool)
    requires NoFatal(a)
    ensures Handshake(f, a + [Fatal] + b, expectReady)
         == if Handshake(f, a, expectReady) == Ready then Ready else Broken
    decreases |a|
  {
    var all := a + [Fatal] + b;
    if a != [] {
      assert all[1..] == a[1..] + [Fatal] + b;
      var g := f.After(a[0]);
      if !g.Complete() {
        FatalBreaks(g, a[1..], b, expectReady);
      } else {
        AwaitReadyStops(a[1..], [Fatal] + b);
        assert all[1..] == a[1..] + ([Fatal] + b);
      }
    }
  }

  // ---------------------------------------------------------------- discovery

  /** A datagram that ends the search: from the camera, and not skipped by the parser. */
  predicate Answers(key: seq<byte>, ip: string, d: Datagram) {
    d.from.ip == ip && !Read(key, d.wire).Ignored?
  }

  function FirstAnswer(key: seq<byte>, ip: string, datagrams: seq<Datagram>): (n: nat)
    ensures n <= |datagrams|
    ensures n < |datagrams| ==> Answers(key, ip, datagrams[n])
    ensures forall i | 0 <= i < n :: !Answers(key, ip, datagrams[i])
    decreases |datagrams|
  {
    hide Answers;
    if datagrams == [] || Answers(key, ip, datagrams[0]) then 0
    else 1 + FirstAnswer(key, ip, datagrams[1..])
  }

  /** Discovery and handshake over the datagrams that arrive before the deadline. */
  function ConnectOutcome(key: seq<byte>, ip: string, expectReady: bool, datagrams: seq<Datagram>): Outcome {
    var n := FirstAnswer(key, ip, datagrams);
    if n == |datagrams| then TimedOut
    else if Read(key, datagrams[n].wire).Fatal? then Broken
    else Handshake(Flags(false, false, false), Events(key, datagrams[n + 1..]), expectReady)
  }

  /** A datagram that is a control packet of some type under the key. */
  predicate Carries(key: seq<byte>, d: Datagram, typ: byte) {
    ParseControl(key, d.wire).Ok? && ParseControl(key, d.wire).value.0 == typ
  }

  predicate Arrives(key: seq<byte>, datagrams: seq<Datagram>, typ: byte) {
    exists i :: 0 <= i < |datagrams| && Carries(key, datagrams[i], typ)
  }

  lemma ArrivesFirst(key: seq<byte>, datagrams: seq<Datagram>, typ: byte)
    requires datagrams != []
    ensures Arrives(key, datagrams, typ) <==> Carries(key, datagrams[0], typ) || Arrives(key, datagrams[1..], typ)
  {
    hide Carries;
    if Arrives(key, datagrams[1..], typ) {
      var i :| 0 <= i < |datagrams[1..]| && Carries(key, datagrams[1..][i], typ);
      assert Carries(key, datagrams[i + 1], typ);
    }
    if Arrives(key, datagrams, typ) && !Carries(key, datagrams[0], typ) {
      var i :| 0 <= i < |datagrams| && Carries(key, datagrams[i], typ);
      assert Carries(key, datagrams[1..][i - 1], typ);
    }
  }

  lemma SaysIff(key: seq<byte>, d: Datagram, typ: byte)
    ensures Says(Read(key, d.wire), typ) <==> Carries(key, d, typ)
  {
    hide ParseControl;
  }

  lemma {:induction false} HeardIff(key: seq<byte>, datagrams: seq<Datagram>, typ: byte)
    ensures Heard(Events(key, datagrams), typ) <==> Arrives(key, datagrams, typ)
    decreases |datagrams|
  {
    if datagrams != [] {
      hide Carries, Arrives, Read, Says;
      HeardIff(key, datagrams[1..], typ);
      ArrivesFirst(key, datagrams, typ);
      SaysIff(key, datagrams[0], typ);
      assert Events(key, datagrams)[1..] == Events(key, datagrams[1..]);
    }
  }

  /** The search ends with the first control packet from the address of the camera; the session gets
      ready exactly when packets of the right types arrive after it: a reply, and a ready packet or,
      where none is expected, a confirm instead. */
  lemma ConnectIff(key: seq<byte>, ip: string, expectReady: bool, datagrams: seq<Datagram>)
    requires NoFatal(Events(key, datagrams))
    ensures var n := FirstAnswer(key, ip, datagrams);
            && (n < |datagrams| ==> datagrams[n].from.ip == ip && ParseControl(key, datagrams[n].wire).Ok?)
            && (forall i | 0 <= i < n :: datagrams[i].from.ip != ip || ParseControl(key, datagrams[i].wire).Err?)
            && (ConnectOutcome(key, ip, expectReady, datagrams) == Ready
                <==> && n < |datagrams| && Arrives(key, datagrams[n + 1..], 0x43)
                     && (|| Arrives(key, datagrams[n + 1..], 0xE0)
                         || (!expectReady && (|| Arrives(key, datagrams[n + 1..], 0x44)
                                              || Arrives(key, datagrams[n + 1..], 0x42)))))
  {
    hide Read, Heard, Handshake, Events, FirstAnswer, NoFatal, Arrives, ParseControl;
    var n := FirstAnswer(key, ip, datagrams);
    SearchedFor(key, ip, datagrams);
    if n < |datagrams| {
      var rest := datagrams[n + 1..];
      NoFatalAfter(key, datagrams, n);
      HandshakeIff(Flags(false, false, false), Events(key, rest), expectReady);
      HeardIff(key, rest, 0x43);
      HeardIff(key, rest, 0xE0);
      HeardIff(key, rest, 0x44);
      HeardIff(key, rest, 0x42);
    }
  }

  lemma SearchedFor(key: seq<byte>, ip: string, datagrams: seq<Datagram>)
    requires NoFatal(Events(key, datagrams))
    ensures var n := FirstAnswer(key, ip, datagrams);
            && (n < |datagrams| ==> datagrams[n].from.ip == ip && ParseControl(key, datagrams[n].wire).Ok?)
            && (forall i | 0 <= i < n :: datagrams[i].from.ip != ip || ParseControl(key, datagrams[i].wire).Err?)
  {
    hide ParseControl, FirstAnswer, Events;
    var n := FirstAnswer(key, ip, datagrams);
    if n < |datagrams| {
      assert Events(key, datagrams)[n] in Events(key, datagrams);
      assert Answers(key, ip, datagrams[n]);
    }
    forall i | 0 <= i < n ensures datagrams[i].from.ip != ip || ParseControl(key, datagrams[i].wire).Err? {
      assert !Answers(key, ip, datagrams[i]);
    }
  }

  lemma NoFatalAfter(key: seq<byte>, datagrams: seq<Datagram>, n: nat)
    requires n < |datagrams| && NoFatal(Events(key, datagrams))
    ensures !Read(key, datagrams[n].wire).Fatal? && NoFatal(Events(key, datagrams[n + 1..]))
  {
    hide Read, Events;
    var all, rest := Events(key, datagrams), Events(key, datagrams[n + 1..]);
    assert all[n] in all;
    forall i | 0 <= i < |rest| ensures !rest[i].Fatal? {
      assert rest[i] == all[n + 1 + i] && all[n + 1 + i] in all;
    }
  }

  // ---------------------------------------------------------------- the ioctl channel

  /** Call number `n` of a session (from 0): DRW sequence `n`, lumi id `n + 1`. */
  function PacketOf<J>(json: Json<J>, key: seq<byte>, n: nat, iotype: nat, body: J): Result<seq<byte>, Fault> {
    match BuildIoctl(json, iotype, body, n + 1)
    case Err(e) => Err(e)
    case Ok(ioctl) => BuildIoctlPacket(key, n, ioctl)
  }

  /** Everything sent by a number of calls; one that raises sends nothing. */
  function WiresOf<J>(json: Json<J>, key: seq<byte>, calls: seq<(nat, J)>): seq<seq<byte>> {
    if calls == [] then []
    else
      var n := |calls| - 1;
      var packet := PacketOf(json, key, n, calls[n].0, calls[n].1);
      WiresOf(json, key, calls[..n]) + if packet.Ok? then [packet.value] else []
  }

  /** The n-th call of a session is received with its own type and body, under DRW sequence `n` (24
      bits wide) and lumi id `n + 1`, whenever it can be sent at all. */
  lemma NthIoctl<J>(json: Json<J>, key: seq<byte>, n: nat, iotype: nat, body: J)
    requires json.parse(json.text(body)) == Ok(body)
    ensures PacketOf(json, key, n, iotype, body).Ok?
       <==> iotype < 0x1_0000_0000 && n + 1 < 0x1_0000_0000 && |json.text(body)| <= 65515
    ensures PacketOf(json, key, n, iotype, body).Ok? ==>
              var wire := PacketOf(json, key, n, iotype, body).value;
              && Received(json, key, wire) == Ok(Ioctl(iotype, n + 1, body))
              && UnwrapIoctl(Decrypt(key, wire)).Ok?
              && UnwrapIoctl(Decrypt(key, wire)).value.0 == n % 0x100_0000
  {
    hide BuildIoctl, BuildIoctlPacket, Received, UnwrapIoctl, Decrypt;
    ChainRoundTrip(json, key, n, iotype, body, n + 1);
  }

  lemma {:induction false} WiresInOrder<J>(json: Json<J>, key: seq<byte>, calls: seq<(nat, J)>, n: nat)
    requires n < |calls| && PacketOf(json, key, n, calls[n].0, calls[n].1).Ok?
    ensures WiresOf(json, key, calls[..n]) + [PacketOf(json, key, n, calls[n].0, calls[n].1).value]
         <= WiresOf(json, key, calls)
    decreases |calls|
  {
    hide PacketOf;
    var last := |calls| - 1;
    if n < last {
      WiresInOrder(json, key, calls[..last], n);
      assert calls[..last][..n] == calls[..n];
    }
  }

  lemma OnlyData(inner: seq<byte>)
    ensures UnwrapIoctl(inner).Ok? ==> |inner| >= 4 && inner[0] == MAGIC && inner[1] == DRW_TYPE
  {
  }

  datatype SendError = NotConnected | Unsendable(fault: Fault)

  class PtzSession<J> {
    const json: Json<J>
    const key: seq<byte>
    const cameraIp: string
    const expectReady: bool
    var peer: Option<Address>
    var ready: bool
    var lumiId: nat
    var drwSeq: nat
    var sent: seq<seq<byte>>
    /** The calls of `send_ioctl` that found a peer. */
    ghost var calls: seq<(nat, J)>

    ghost predicate Valid()
      reads this
    {
      drwSeq == |calls| && lumiId == |calls| + 1 && sent == WiresOf(json, key, calls)
    }

    constructor (json: Json<J>, key: seq<byte>, cameraIp: string, expectReady: bool)
      ensures Valid() && calls == [] && peer == None && !ready
      ensures this.json == json && this.key == key && this.cameraIp == cameraIp
      ensures this.expectReady == expectReady
    {
      this.json, this.key, this.cameraIp, this.expectReady := json, key, cameraIp, expectReady;
      peer, ready, lumiId, drwSeq, sent, calls := None, false, 1, 0, [], [];
    }

    /** `connect`; `datagrams` is what arrives before the deadline. */
    method Connect(datagrams: seq<Datagram>) returns (o: Outcome)
      requires Valid()
      modifies this`peer, this`ready
      ensures Valid()
      ensures o == ConnectOutcome(key, cameraIp, expectReady, datagrams)
      ensures ready == (old(ready) || o == Ready)
      ensures o == Ready ==>
                peer == Some(datagrams[FirstAnswer(key, cameraIp, datagrams)].from)
    {
      hide Read, Handshake, Events, AwaitReady;
      var i, adopted := 0, false;
      assert datagrams[0..] == datagrams;
      while i < |datagrams| && !adopted
        invariant 0 <= i <= |datagrams|
        invariant !adopted ==> i + FirstAnswer(key, cameraIp, datagrams[i..]) == FirstAnswer(key, cameraIp, datagrams)
        invariant adopted ==> 0 < i && i - 1 == FirstAnswer(key, cameraIp, datagrams)
        invariant adopted ==> Read(key, datagrams[i - 1].wire).Control? && peer == Some(datagrams[i - 1].from)
        invariant ready == old(ready)
        decreases |datagrams| - i, !adopted
      {
        var d := datagrams[i];
        assert datagrams[i..][1..] == datagrams[i + 1..];
        i := i + 1;
        if d.from.ip != cameraIp { continue; }
        match Read(key, d.wire) {
          case Ignored => continue;
          case Fatal => return Broken;
          case Control(_, _) =>
            peer := Some(d.from);
            adopted := true;
        }
      }
      if !adopted { return TimedOut; }
      o := RunHandshake(datagrams[i..]);
      if o == Ready { ready := true; }
    }

    /** `_do_handshake` and `_do_ready`. */
    method RunHandshake(datagrams: seq<Datagram>) returns (o: Outcome)
      ensures o == Handshake(Flags(false, false, false), Events(key, datagrams), expectReady)
    {
      hide Read, AwaitReady, Events;
      var gotReply, gotConfirm, camReady := false, false, false;
      var i := 0;
      assert datagrams[0..] == datagrams;
      while i < |datagrams|
        invariant 0 <= i <= |datagrams|
        invariant !(gotReply && (gotConfirm || camReady))
        invariant Handshake(Flags(gotReply, gotConfirm, camReady), Events(key, datagrams[i..]), expectReady)
               == Handshake(Flags(false, false, false), Events(key, datagrams), expectReady)
      {
        var e := Read(key, datagrams[i].wire);
        EventsFrom(key, datagrams, i);
        i := i + 1;
        match e {
          case Ignored => continue;
          case Fatal => return Broken;
          case Control(typ, _) =>
            gotReply := gotReply || typ == REPLY;
            gotConfirm := gotConfirm || typ == CONFIRM || typ == CONFIRM_ALT;
            camReady := camReady || typ == READY;
        }
        if gotReply && (gotConfirm || camReady) {
          if !expectReady || camReady { return Ready; }
          o := RunAwaitReady(datagrams[i..]);
          return;
        }
      }
      o := TimedOut;
    }

    method RunAwaitReady(datagrams: seq<Datagram>) returns (o: Outcome)
      ensures o == AwaitReady(Events(key, datagrams))
    {
      hide Read, Events;
      var i := 0;
      assert datagrams[0..] == datagrams;
      while i < |datagrams|
        invariant 0 <= i <= |datagrams|
        invariant AwaitReady(Events(key, datagrams[i..])) == AwaitReady(Events(key, datagrams))
      {
        var e := Read(key, datagrams[i].wire);
        EventsFrom(key, datagrams, i);
        i := i + 1;
        match e {
          case Ignored =>
          case Fatal => return Broken;
          case Control(typ, _) => if typ == READY { return Ready; }
        }
      }
      o := TimedOut;
    }

    /** `send_ioctl`. The counters move on even when the packet cannot be built. */
    method SendIoctl(iotype: nat, body: J) returns (r: Result<nat, SendError>)
      requires Valid()
      modifies this`lumiId, this`drwSeq, this`sent, this`calls
      ensures Valid()
      ensures peer == None ==> r == Err(NotConnected) && calls == old(calls) && sent == old(sent)
      ensures peer != None ==>
                var packet := PacketOf(json, key, |old(calls)|, iotype, body);
                && calls == old(calls) + [(iotype, body)]
                && r == (if packet.Ok? then Ok(|old(calls)| + 1) else Err(Unsendable(packet.error)))
                && sent == old(sent) + if packet.Ok? then [packet.value] else []
    {
      hide BuildIoctl, BuildIoctlPacket;
      if peer == None { return Err(NotConnected); }
      var id, num := lumiId, drwSeq;
      lumiId, drwSeq := lumiId + 1, drwSeq + 1;
      calls := calls + [(iotype, body)];
      assert calls[..|calls| - 1] == old(calls);
      match BuildIoctl(json, iotype, body, id) {
        case Err(e) => return Err(Unsendable(e));
        case Ok(ioctl) =>
          match BuildIoctlPacket(key, num, ioctl) {
            case Err(e) => return Err(Unsendable(e));
            case Ok(wire) =>
              sent := sent + [wire];
              return Ok(id);
          }
      }
    }

    /** `recv_ioctl` over what arrives before its deadline; `used` datagrams are consumed. */
    method RecvIoctl(datagrams: seq<Datagram>) returns (r: Option<Ioctl<J>>, used: nat)
      ensures used <= |datagrams|
      ensures forall i | 0 <= i < used - (if r == None then 0 else 1) ::
                Received(json, key, datagrams[i].wire).Err?
      ensures r == None ==> used == |datagrams|
      ensures r != None ==> used > 0 && Received(json, key, datagrams[used - 1].wire) == Ok(r.value)
    {
      hide Decrypt, UnwrapIoctl, ParseIoctl;
      used := 0;
      while used < |datagrams|
        invariant used <= |datagrams|
        invariant forall i | 0 <= i < used :: Received(json, key, datagrams[i].wire).Err?
      {
        var inner := Decrypt(key, datagrams[used].wire);
        OnlyData(inner);
        used := used + 1;
        if |inner| >= 2 && inner[0] == MAGIC && inner[1] == DRW_TYPE {
          match UnwrapIoctl(inner) {
            case Err(_) => continue;
            case Ok((_, ioctl)) =>
              match ParseIoctl(json, ioctl) {
                case Err(_) => continue;
                case Ok(i) => return Some(i), used;
              }
          }
        }
      }
      r := None;
    }
  }
}
