/** The handshake packet by packet, for either protocol version of the peer (src/DirectClient.cpp:96-119, 155-245,
    303-369, 815-820). A version 6 handshake ends an exchange earlier than one of version 7. */
module DirectVersions {
  import opened Wrappers
  import opened Buffers
  import opened DirectConn
  import DirectOrder
  import C = Cache

  // ------------------------------------------------------------------
  //  Init packets of any version
  // ------------------------------------------------------------------

  /** An init packet that announces version v; this library announces 7. */
  function InitOf(v: ushort, c: Conn, h: Host): seq<byte> { Sized([0xFF] + Pack16(Little, v) + Sized(InitBody(c, h))) }

  lemma OwnInitIsOf7(c: Conn, h: Host)
    ensures InitPacket(c, h) == InitOf(7, c, h)
  {
  }

  lemma InitOfFields(v: ushort, c: Conn, h: Host)
    ensures var p := InitOf(v, c, h);
      && Read8(p, 2) == (0xFF, 3)
      && Read16(Little, p, 3) == (v, 5)
      && Read32(Little, p, 7) == (c.remoteUin, 11)
      && Read32(Little, p, 17) == (c.selfUin, 21)
      && Read8(p, 29) == (4, 30)
      && Read32(Little, p, 34) == (c.session, 38)
  {
    hide Pack16, Pack32, Unpack16, Unpack32, InitBody;
    var b, p := InitBody(c, h), InitOf(v, c, h);
    InitBodyFields(c, h);
    assert p[2] == 0xFF && p[3..5] == Pack16(Little, v);
    assert p[7..] == b;
    assert p[7..11] == b[0..4] && p[17..21] == b[10..14] && p[29] == b[22] && p[34..38] == b[27..31];
    Unpack16InvertsPack16(Little, v);
    Unpack32InvertsPack32(Little, c.remoteUin);
    Unpack32InvertsPack32(Little, c.selfUin);
    Unpack32InvertsPack32(Little, c.session);
  }

  lemma SizedLength(body: seq<byte>)
    requires |body| <= 0xFFFF
    ensures Read16(Little, Sized(body), 0).0 == |Sized(body)| - 2
  {
    assert Sized(body)[0..2] == Pack16(Little, |body|);
    Unpack16InvertsPack16(Little, |body|);
  }

  /** Every handshake packet says how long it is. */
  lemma HandshakeLengths(v: ushort, c: Conn, h: Host, incoming: bool)
    ensures Read16(Little, INIT_ACK, 0).0 == |INIT_ACK| - 2
    ensures Read16(Little, Init2Packet(incoming), 0).0 == |Init2Packet(incoming)| - 2
    ensures Read16(Little, InitOf(v, c, h), 0).0 == |InitOf(v, c, h)| - 2
  {
    SizedLength(Pack32(Little, 1));
    SizedLength(Init2Head(incoming) + Init2Tail(incoming));
    SizedLength([0xFF] + Pack16(Little, v) + Sized(InitBody(c, h)));
  }

  /** Which packets pass as an ack and as a second init packet: only their first bytes are looked at. */
  lemma AcksRead(p: seq<byte>)
    ensures ParseInitAck(p) <==> |p| >= 2 && p[0] == 4 && p[1] == 0
    ensures ParseInit2(p) <==> |p| >= 3 && p[0] == 0x21 && p[1] == 0 && p[2] == 3
  {
  }

  const ZERO: seq<byte> := [0, 0, 0, 0]
  const ONE: seq<byte> := [1, 0, 0, 0]
  const TEN: seq<byte> := [10, 0, 0, 0]
  const ROLE: seq<byte> := [1, 0, 4, 0]

  lemma Words()
    ensures Pack32(Little, 0) == ZERO && Pack32(Little, 1) == ONE && Pack32(Little, 10) == TEN
    ensures Pack32(Little, 0x00040001) == ROLE
    ensures Pack32(Little, 0x50) == [0x50, 0, 0, 0] && Pack32(Little, 3) == [3, 0, 0, 0]
  {
    Pack32Bytes(Little, 0);
    Pack32Bytes(Little, 1);
    Pack32Bytes(Little, 10);
    Pack32Bytes(Little, 0x00040001);
    Pack32Bytes(Little, 0x50);
    Pack32Bytes(Little, 3);
    hide Pack32;
  }

  /** The ack, and the second init packet, in which the two roles differ, as they go out. */
  lemma AckBytes(incoming: bool)
    ensures INIT_ACK == [4, 0] + ONE
    ensures Init2Packet(incoming) == [0x21, 0]
      + (([3] + TEN + ONE + (if incoming then ONE else ZERO) + ZERO + ZERO)
         + (if incoming then ROLE + ZERO + ZERO else ZERO + ZERO + ROLE))
  {
    Words();
    hide Pack32;
    assert Pack16(Little, 4) == [4, 0] && Pack16(Little, 0x21) == [0x21, 0];
  }

  lemma Behind(p: seq<byte>, b: seq<byte>, i: nat, j: nat)
    requires |p| == 7 + |b| && p[7..] == b && i <= j <= |b|
    ensures p[7 + i..7 + j] == b[i..j]
  {
  }

  lemma InitIs(c: Conn, h: Host)
    ensures var p, b := InitPacket(c, h), InitBody(c, h);
      |p| == 7 + |b| && p[7..] == b && p[5..7] == Pack16(Little, |b| % 0x1_0000)
  {
    hide InitBody, Pack16;
  }

  /** The rest of an init packet: where it says what the reader of this library does not look at. */
  lemma InitPacketLayout(c: Conn, h: Host)
    ensures var p := InitPacket(c, h);
      && |p| == (if c.effVersion == 7 then 50 else 46)
      && p[5..7] == Pack16(Little, |p| - 7) && p[11..13] == Pack16(Little, 0)
      && p[13..17] == Pack32(Little, h.port) && p[21..25] == Pack32(Big, h.extIp) && p[25..29] == Pack32(Big, h.lanIp)
      && p[30..34] == Pack32(Little, h.port) && p[38..42] == [0x50, 0, 0, 0] && p[42..46] == [3, 0, 0, 0]
      && (c.effVersion == 7 ==> p[46..50] == ZERO)
  {
    var b, p := InitBody(c, h), InitPacket(c, h);
    BodyLayout(c, h);
    InitIs(c, h);
    Words();
    hide Pack16, Pack32, InitBody, InitPacket;
    Behind(p, b, 4, 6);
    Behind(p, b, 6, 10);
    Behind(p, b, 14, 18);
    Behind(p, b, 18, 22);
    Behind(p, b, 23, 27);
    Behind(p, b, 31, 35);
    Behind(p, b, 35, 39);
    Behind(p, b, 39, |b|);
  }

  lemma BodyLayout(c: Conn, h: Host)
    ensures var b := InitBody(c, h);
      && |b| == (if c.effVersion == 7 then 43 else 39)
      && b[4..6] == Pack16(Little, 0) && b[6..10] == Pack32(Little, h.port)
      && b[14..18] == Pack32(Big, h.extIp) && b[18..22] == Pack32(Big, h.lanIp) && b[23..27] == Pack32(Little, h.port)
      && b[31..35] == Pack32(Little, 0x50) && b[35..39] == Pack32(Little, 3)
      && (c.effVersion == 7 ==> b[39..43] == Pack32(Little, 0))
  {
    hide Pack16, Pack32;
    var b, a, d := InitBody(c, h), InitPorts(c, h), InitSession(c, h);
    assert b[..23] == a && b[23..] == d;
    assert b[4..6] == a[4..6] && b[6..10] == a[6..10] && b[14..18] == a[14..18] && b[18..22] == a[18..22];
    assert b[23..27] == d[0..4] && b[31..35] == d[8..12] && b[35..39] == d[12..16];
    if c.effVersion == 7 { assert b[39..43] == d[16..20]; }
  }

  /** An acceptor refuses versions below 6 and packets for another UIN; otherwise it talks version 6 to a peer of version
      6 and version 7 to any later one. */
  lemma AcceptsVersions(c: Conn, v: ushort, from: Conn, h: Host)
    requires c.incoming
    ensures var (c1, ok) := ParseInitPacket(c, InitOf(v, from, h));
      && (ok <==> v >= 6 && from.remoteUin == c.selfUin) && c1.remoteVersion == v
      && (ok ==> c1 == c.(remoteVersion := v, effVersion := if v == 6 then 6 else 7,
                          remoteUin := from.selfUin, session := from.session))
  {
    InitOfFields(v, from, h);
  }

  /** An initiator takes the reply if it is of the version it recorded and everything else agrees. */
  lemma ChecksVersion(c: Conn, v: ushort, from: Conn, h: Host)
    requires !c.incoming
    ensures ParseInitPacket(c, InitOf(v, from, h)) ==
      (c, v == c.remoteVersion && from.remoteUin == c.selfUin && from.selfUin == c.remoteUin && from.session == c.session)
  {
    InitOfFields(v, from, h);
  }

  /** Dialling needs a version from 6 on, and settles the version of the whole connection. */
  lemma DialSettlesVersion(selfUin: uint, uin: uint, version: ushort, session: uint)
    ensures var (c, ok) := Connect(NewOutgoing(selfUin, uin), version, session);
      && (ok <==> version >= 6)
      && (ok ==> c.effVersion == (if version == 6 then 6 else 7) && c.remoteVersion == version && c.session == session
                 && c.state == WaitingForInitAck && !c.incoming && c.contact == Some(uin) && c.remoteUin == uin)
  {
  }

  // ------------------------------------------------------------------
  //  Connecting sends the queue
  // ------------------------------------------------------------------

  /** These events as messages, numbered downwards from s. */
  function Numbered(s: ushort, es: seq<Event>): (fs: seq<Frame>)
    ensures |fs| == |es|
  {
    seq(|es|, i requires 0 <= i < |es| => Message((s - i) % 0x1_0000, es[i]))
  }

  lemma NumberedHead(s: ushort, es: seq<Event>)
    requires es != []
    ensures Numbered(s, es) == [Message(s, es[0])] + Numbered((s - 1) % 0x1_0000, es[1..])
  {
    var a, b := Numbered(s, es), [Message(s, es[0])] + Numbered((s - 1) % 0x1_0000, es[1..]);
    forall i | 0 <= i < |es| ensures a[i] == b[i] { NumberDown(s, i); }
  }

  lemma NumberDown(s: ushort, i: nat)
    ensures ((s - 1) % 0x1_0000 - (i - 1)) % 0x1_0000 == (s - i) % 0x1_0000 && s % 0x1_0000 == s
  {
  }

  lemma {:induction false} FlushSendsQueue(c: Conn, now: int)
    ensures var r := FlushQueue(c, now);
      && r.wire == c.wire + Numbered(c.seqnum, c.queue) && r.queue == []
      && r == c.(wire := r.wire, queue := [], cache := r.cache, seqnum := r.seqnum)
    decreases |c.queue|
  {
    hide C.Insert, Numbered;
    if c.queue == [] {
      assert c.wire + Numbered(c.seqnum, c.queue) == c.wire;
    } else {
      var d := SendPacketEvent(c, c.queue[0], now).(queue := c.queue[1..]);
      FlushSendsQueue(d, now);
      NumberedHead(c.seqnum, c.queue);
      assert c.wire + [Message(c.seqnum, c.queue[0])] + Numbered(d.seqnum, d.queue)
          == c.wire + ([Message(c.seqnum, c.queue[0])] + Numbered(d.seqnum, d.queue));
    }
  }

  /** r is c connected, after these further handshake packets, with the whole queue sent in order. */
  ghost predicate ConnectedFrom(r: Conn, c: Conn, packets: seq<Frame>) {
    && r.state == Connected && r.queue == []
    && r.wire == c.wire + packets + Numbered(c.seqnum, c.queue)
  }

  lemma EstablishSends(c: Conn, c1: Conn, now: int)
    requires c1.wire == c.wire && c1.queue == c.queue && c1.seqnum == c.seqnum
    ensures ConnectedFrom(Establish(c1, now), c, []) && Establish(c1, now).contact == c1.contact
  {
    FlushSendsQueue(c1.(state := Connected), now);
    assert c.wire + [] == c.wire;
  }

  lemma EstablishAfter(c: Conn, c1: Conn, f: Frame, now: int)
    requires c1.wire == c.wire + [f] && c1.queue == c.queue && c1.seqnum == c.seqnum
    ensures ConnectedFrom(Establish(c1, now), c, [f]) && Establish(c1, now).contact == c1.contact
  {
    FlushSendsQueue(c1.(state := Connected), now);
  }

  // ------------------------------------------------------------------
  //  The initiator
  // ------------------------------------------------------------------

  /** An ack of the init packet lets an initiator wait for the peer's; anything else fails. */
  lemma InitiatorTakesAck(c: Conn, p: seq<byte>, env: Env)
    requires !c.incoming && c.state == WaitingForInitAck
    ensures HandlePacket(c, p, env) == if ParseInitAck(p) then (c.(state := WaitingForInit), true) else (c, false)
  {
  }

  /** With a version 6 peer the init packet that passes the checks ends the handshake: it is acknowledged, the connection
      is up and the queue goes out. With a later peer the second exchange begins and the queue stays. */
  lemma InitiatorTakesInit(c: Conn, p: seq<byte>, env: Env)
    requires !c.incoming && c.state == WaitingForInit
    ensures var (r, ok) := HandlePacket(c, p, env);
      && (ok <==> ParseInitPacket(c, p).1)
      && (ok && c.effVersion != 7 ==> ConnectedFrom(r, c, [Handshake(INIT_ACK)]))
      && (ok && c.effVersion == 7 ==> r.state == WaitingForInit2 && r.queue == c.queue &&
                                      r.wire == c.wire + [Handshake(INIT_ACK), Handshake(Init2Packet(false))])
  {
    hide ParseInitPacket, Init2Packet, INIT_ACK, FlushQueue;
    InitiatorParses(c, p);
    var c1 := ParseInitPacket(c, p).0;
    EstablishAfter(c, Write(c1, INIT_ACK), Handshake(INIT_ACK), env.now);
  }

  lemma InitiatorParses(c: Conn, p: seq<byte>)
    ensures var c1 := ParseInitPacket(c, p).0;
      && c1.wire == c.wire && c1.queue == c.queue && c1.seqnum == c.seqnum && c1.incoming == c.incoming
      && (!c.incoming ==> c1.effVersion == c.effVersion)
  {
    hide Read8, Read16, Read32;
  }

  lemma InitiatorTakesInit2(c: Conn, p: seq<byte>, env: Env)
    requires !c.incoming && c.state == WaitingForInit2
    ensures var (r, ok) := HandlePacket(c, p, env);
      (ok <==> ParseInit2(p)) && (ok ==> ConnectedFrom(r, c, []))
  {
    hide FlushQueue;
    EstablishSends(c, c, env.now);
  }

  /** The whole of it, from dialling on: an initiator that recorded version 6 is connected once it has taken the ack and an
      init packet that passes its checks, with everything submitted meanwhile on the wire in order. */
  lemma InitiatorOfVersion6(selfUin: uint, uin: uint, session: uint, queue: seq<Event>, wire: seq<Frame>,
                            ack: seq<byte>, p: seq<byte>, env: Env, env2: Env)
    requires ParseInitAck(ack)
    requires ParseInitPacket(Connect(NewOutgoing(selfUin, uin), 6, session).0, p).1
    ensures var c := Connect(NewOutgoing(selfUin, uin), 6, session).0.(queue := queue, wire := wire);
      var c1 := HandlePacket(c, ack, env).0;
      c1.state == WaitingForInit && HandlePacket(c1, p, env2).1
      && ConnectedFrom(HandlePacket(c1, p, env2).0, c, [Handshake(INIT_ACK)])
  {
    var c := Connect(NewOutgoing(selfUin, uin), 6, session).0.(queue := queue, wire := wire);
    InitiatorTakesAck(c, ack, env);
    var c1 := HandlePacket(c, ack, env).0;
    ParsingIgnores(Connect(NewOutgoing(selfUin, uin), 6, session).0, c1, p);
    InitiatorTakesInit(c1, p, env2);
    hide HandlePacket, ParseInitPacket, INIT_ACK;
  }

  /** Whether an init packet passes is a matter of the handshake fields only. */
  lemma ParsingIgnores(c: Conn, d: Conn, p: seq<byte>)
    requires d == c.(state := d.state, queue := d.queue, wire := d.wire)
    ensures ParseInitPacket(d, p).1 == ParseInitPacket(c, p).1
  {
    hide Read8, Read16, Read32;
  }

  // ------------------------------------------------------------------
  //  The acceptor
  // ------------------------------------------------------------------

  /** An init packet is answered with an ack and an own init packet, whatever the version. */
  lemma AcceptorTakesInit(c: Conn, p: seq<byte>, env: Env)
    requires c.incoming && c.state == WaitingForInit
    ensures var (c1, ok1) := ParseInitPacket(c, p);
      var (r, ok) := HandlePacket(c, p, env);
      && ok == ok1
      && (ok ==> r == c1.(state := WaitingForInitAck,
                          wire := c.wire + [Handshake(INIT_ACK), Handshake(InitPacket(c1, env.host))]))
  {
    hide ParseInitPacket, INIT_ACK, InitPacket;
    InitiatorParses(c, p);
    var c1 := ParseInitPacket(c, p).0;
    SameInit(c1, Write(c1, INIT_ACK), env.host);
    assert c.wire + [Handshake(INIT_ACK)] + [Handshake(InitPacket(c1, env.host))]
        == c.wire + [Handshake(INIT_ACK), Handshake(InitPacket(c1, env.host))];
  }

  lemma SameInit(c: Conn, d: Conn, h: Host)
    requires d == c.(wire := d.wire, state := d.state)
    ensures InitPacket(d, h) == InitPacket(c, h)
  {
  }

  /** With a version 6 peer the ack ends the handshake, if the peer is one the user knows; with a later one the second
      exchange begins. */
  lemma AcceptorTakesAck(c: Conn, p: seq<byte>, env: Env)
    requires c.incoming && c.state == WaitingForInitAck
    ensures var (r, ok) := HandlePacket(c, p, env);
      && (ok <==> ParseInitAck(p) && (c.effVersion == 7 || c.remoteUin in env.known))
      && (ok && c.effVersion != 7 ==> ConnectedFrom(r, c, []) && r.contact == Some(c.remoteUin))
      && (ok && c.effVersion == 7 ==> r == c.(state := WaitingForInit2))
  {
    hide FlushQueue, ParseInitAck;
    EstablishSends(c, ConfirmUin(c, env.known).0, env.now);
  }

  lemma AcceptorTakesInit2(c: Conn, p: seq<byte>, env: Env)
    requires c.incoming && c.state == WaitingForInit2
    ensures var (r, ok) := HandlePacket(c, p, env);
      && (ok <==> ParseInit2(p) && c.remoteUin in env.known)
      && (ok ==> ConnectedFrom(r, c, [Handshake(Init2Packet(true))]) && r.contact == Some(c.remoteUin))
  {
    hide FlushQueue, ParseInit2, Init2Packet;
    var c1 := Write(c, Init2Packet(true));
    EstablishAfter(c, ConfirmUin(c1, env.known).0, Handshake(Init2Packet(true)), env.now);
  }

  /** The whole of it: an acceptor that gets an init packet of version 6 and then the ack is connected if it knows the
      peer, and fails if not. */
  lemma AcceptorOfVersion6(selfUin: uint, from: Conn, h: Host, ack: seq<byte>, env: Env, env2: Env)
    requires from.remoteUin == selfUin && ParseInitAck(ack)
    ensures var c1 := HandlePacket(NewIncoming(selfUin), InitOf(6, from, h), env).0;
      && c1.state == WaitingForInitAck
      && c1.wire == [Handshake(INIT_ACK), Handshake(InitPacket(c1, env.host))]
      && var (r, ok) := HandlePacket(c1, ack, env2);
         && (ok <==> from.selfUin in env2.known)
         && (ok ==> ConnectedFrom(r, c1, []) && r.contact == Some(from.selfUin))
  {
    var c := NewIncoming(selfUin);
    AcceptsVersions(c, 6, from, h);
    AcceptorTakesInit(c, InitOf(6, from, h), env);
    hide HandlePacket, ParseInitPacket, INIT_ACK, InitPacket, InitOf, ConnectedFrom, ParseInitAck;
    var c1 := HandlePacket(c, InitOf(6, from, h), env).0;
    AcceptorTakesAck(c1, ack, env2);
    var parsed := ParseInitPacket(c, InitOf(6, from, h)).0;
    SameInit(parsed, c1, env.host);
    var none: seq<Frame> := [];
    assert none + [Handshake(INIT_ACK), Handshake(InitPacket(c1, env.host))]
        == [Handshake(INIT_ACK), Handshake(InitPacket(c1, env.host))];
  }

  // ------------------------------------------------------------------
  //  No second exchange with version 6
  // ------------------------------------------------------------------

  /** No packet of the second exchange has been written. */
  ghost predicate NoInit2(wire: seq<Frame>) {
    forall k :: 0 <= k < |wire| ==> wire[k] != Handshake(Init2Packet(true)) && wire[k] != Handshake(Init2Packet(false))
  }

  /** The second exchange is for version 7 only, and not before the peer's version is known. */
  ghost predicate OneExchange(c: Conn) {
    && (c.effVersion != 7 || (c.incoming && c.state == WaitingForInit) ==> NoInit2(c.wire))
    && (c.state == WaitingForInit2 ==> c.effVersion == 7)
  }

  lemma Init2IsItsOwn(c: Conn, h: Host, incoming: bool)
    ensures Init2Packet(incoming) != INIT_ACK && Init2Packet(incoming) != InitPacket(c, h)
  {
    assert Init2Packet(incoming)[2] == 3 && |Init2Packet(incoming)| == 35 && |INIT_ACK| == 6;
    InitPacketFields(c, h);
    assert Read8(InitPacket(c, h), 2).0 == InitPacket(c, h)[2];
  }

  lemma NoInit2Snoc(wire: seq<Frame>, f: Frame)
    requires NoInit2(wire) && f != Handshake(Init2Packet(true)) && f != Handshake(Init2Packet(false))
    ensures NoInit2(wire + [f])
  {
    hide Init2Packet;
  }

  lemma NoInit2Messages(wire: seq<Frame>, s: ushort, es: seq<Event>)
    requires NoInit2(wire)
    ensures NoInit2(wire + Numbered(s, es))
  {
    hide Init2Packet;
  }

  lemma EstablishWritesNoInit2(c: Conn, now: int)
    requires NoInit2(c.wire)
    ensures NoInit2(Establish(c, now).wire) && Establish(c, now).state == Connected
  {
    FlushSendsQueue(c.(state := Connected), now);
    NoInit2Messages(c.wire, c.seqnum, c.queue);
    hide NoInit2;
  }

  lemma EstablishKeepsVersion(c: Conn, now: int)
    ensures var r := Establish(c, now); r.state == Connected && r.effVersion == c.effVersion && r.incoming == c.incoming
  {
    FlushSendsQueue(c.(state := Connected), now);
  }

  lemma InitExchange(c: Conn, p: seq<byte>, env: Env)
    requires OneExchange(c) && c.state == WaitingForInit
    ensures OneExchange(HandlePacket(c, p, env).0)
  {
    hide NoInit2, Init2Packet, INIT_ACK, InitPacket, ParseInitPacket, Establish;
    InitiatorParses(c, p);
    DirectOrder.ParsingIsQuiet(c, p);
    var c1 := ParseInitPacket(c, p).0;
    var c2 := Write(c1, INIT_ACK);
    Init2IsItsOwn(c2, env.host, true);
    Init2IsItsOwn(c2, env.host, false);
    EstablishKeepsVersion(c2, env.now);
    if NoInit2(c.wire) {
      NoInit2Snoc(c1.wire, Handshake(INIT_ACK));
      NoInit2Snoc(c2.wire, Handshake(InitPacket(c2, env.host)));
      EstablishWritesNoInit2(c2, env.now);
    }
  }

  lemma LaterExchange(c: Conn, p: seq<byte>, env: Env)
    requires OneExchange(c) && (c.state == WaitingForInitAck || c.state == WaitingForInit2)
    ensures OneExchange(HandlePacket(c, p, env).0)
  {
    hide NoInit2, Init2Packet, ParseInitAck, ParseInit2, Establish;
    var c1 := Write(c, Init2Packet(true));
    EstablishKeepsVersion(c, env.now);
    EstablishKeepsVersion(ConfirmUin(c, env.known).0, env.now);
    EstablishKeepsVersion(ConfirmUin(c1, env.known).0, env.now);
    if NoInit2(c.wire) { EstablishWritesNoInit2(ConfirmUin(c, env.known).0, env.now); }
  }

  lemma StepExchange(c: Conn, op: DirectOrder.Op, env: Env)
    requires OneExchange(c)
    ensures OneExchange(DirectOrder.Step(c, op, env))
  {
    hide NoInit2, HandlePacket, Init2Packet, C.Insert, C.ExpiredCount;
    match op
    case Send(ev) => if c.state == Connected && NoInit2(c.wire) { NoInit2Snoc(c.wire, Message(c.seqnum, ev)); }
    case Packet(bytes) =>
      if c.state == WaitingForInit {
        InitExchange(c, bytes, env);
      } else if c.state == WaitingForInitAck || c.state == WaitingForInit2 {
        LaterExchange(c, bytes, env);
      } else {
        hide OneExchange;
        assert DirectOrder.Step(c, op, env) == c by { NotConnectedIgnores(c, bytes, env); }
      }
    case Ack(s) =>
    case Poll =>
  }

  lemma NotConnectedIgnores(c: Conn, p: seq<byte>, env: Env)
    ensures c.state == NotConnected ==> HandlePacket(c, p, env) == (c, true)
  {
  }

  lemma {:induction false} RunExchange(c: Conn, ops: seq<(DirectOrder.Op, Env)>)
    requires OneExchange(c)
    ensures OneExchange(DirectOrder.Run(c, ops))
    decreases |ops|
  {
    hide OneExchange, DirectOrder.Step;
    if ops != [] {
      StepExchange(c, ops[0].0, ops[0].1);
      RunExchange(DirectOrder.Step(c, ops[0].0, ops[0].1), ops[1..]);
    }
  }

  /** On no run does a connection whose version is not 7 write a packet of the second exchange; that goes for acceptors
      and, once they have sent their init packet, for initiators. */
  lemma Version6HasOneExchange(selfUin: uint, uin: uint, version: ushort, session: uint, h: Host,
                               ops: seq<(DirectOrder.Op, Env)>)
    ensures var r := DirectOrder.Run(NewIncoming(selfUin), ops); r.effVersion != 7 ==> NoInit2(r.wire)
    ensures var (c, ok) := Connect(NewOutgoing(selfUin, uin), version, session);
      ok ==> var r := DirectOrder.Run(Write(c, InitPacket(c, h)), ops); r.effVersion != 7 ==> NoInit2(r.wire)
  {
    hide InitPacket, Init2Packet, DirectOrder.Run;
    RunExchange(NewIncoming(selfUin), ops);
    var c := Connect(NewOutgoing(selfUin, uin), version, session).0;
    Init2IsItsOwn(c, h, true);
    Init2IsItsOwn(c, h, false);
    NoInit2Snoc([], Handshake(InitPacket(c, h)));
    assert [] + [Handshake(InitPacket(c, h))] == Write(c, InitPacket(c, h)).wire;
    RunExchange(Write(c, InitPacket(c, h)), ops);
  }
}
