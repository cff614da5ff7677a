/** A direct connection to another client (src/DirectClient.cpp): the handshake, and the
    queue and ack cache of outgoing messages, as functions on values. */
module DirectConn {
  import opened Wrappers
  import opened Buffers
  import C = Cache

  /** A message event, by identity. */
  type Event = nat

  datatype State = NotConnected | WaitingForInit | WaitingForInitAck | WaitingForInit2 | Connected

  /** What has been written to the socket: handshake packets as bytes, message packets by
      sequence number and event. */
  datatype Frame = Handshake(bytes: seq<byte>) | Message(seqnum: ushort, ev: Event)

  datatype Conn = Conn(
    state: State,
    incoming: bool,
    selfUin: uint,
    contact: Option<uint>,
    remoteVersion: ushort,
    effVersion: ushort,
    remoteUin: uint,
    session: uint,
    queue: seq<Event>,
    cache: seq<C.Item<ushort, Event>>,
    seqnum: ushort,
    wire: seq<Frame>)

  /** The local addresses put into the init packet. */
  datatype Host = Host(port: ushort, extIp: uint, lanIp: uint)

  /** The surroundings of a step: this host, the UINs that ConfirmUIN accepts (on the contact
      list, with a matching IP address), and the clock. */
  datatype Env = Env(host: Host, known: set<uint>, now: int)

  const ACK_TIMEOUT := 30

  function NewIncoming(selfUin: uint): Conn {
    Conn(WaitingForInit, true, selfUin, None, 0, 0, 0, 0, [], [], 0xFFFF, [])
  }

  function NewOutgoing(selfUin: uint, uin: uint): Conn {
    Conn(NotConnected, false, selfUin, Some(uin), 0, 0, uin, 0, [], [], 0xFFFF, [])
  }

  /** Connect: fails on a contact whose recorded protocol version is below 6. */
  function Connect(c: Conn, version: ushort, session: uint): (Conn, bool) {
    var c1 := c.(remoteVersion := version);
    if version < 6 then (c1, false)
    else (c1.(effVersion := if version >= 7 then 7 else 6, session := session, state := WaitingForInitAck), true)
  }

  // ------------------------------------------------------------------
  //  Handshake packets
  // ------------------------------------------------------------------

  /** A packet with its 16-bit length in front. */
  function Sized(body: seq<byte>): seq<byte> { Pack16(Little, |body| % 0x1_0000) + body }

  function InitPorts(c: Conn, h: Host): (b: seq<byte>) {
    Pack32(Little, c.remoteUin) + Pack16(Little, 0) + Pack32(Little, h.port)
    + Pack32(Little, c.selfUin) + Pack32(Big, h.extIp) + Pack32(Big, h.lanIp) + [4]
  }

  function InitSession(c: Conn, h: Host): (b: seq<byte>) {
    Pack32(Little, h.port) + Pack32(Little, c.session)
    + Pack32(Little, 0x50) + Pack32(Little, 3)
    + (if c.effVersion == 7 then Pack32(Little, 0) else [])
  }

  function InitBody(c: Conn, h: Host): seq<byte> { InitPorts(c, h) + InitSession(c, h) }

  /** The init packet always announces version 7. */
  function InitPacket(c: Conn, h: Host): seq<byte> {
    Sized([0xFF] + Pack16(Little, 7) + Sized(InitBody(c, h)))
  }

  const INIT_ACK: seq<byte> := Sized(Pack32(Little, 1))

  function Init2Tail(incoming: bool): (b: seq<byte>) {
    if incoming then Pack32(Little, 0x00040001) + Pack32(Little, 0) + Pack32(Little, 0)
    else Pack32(Little, 0) + Pack32(Little, 0) + Pack32(Little, 0x00040001)
  }

  function Init2Head(incoming: bool): (b: seq<byte>) {
    [3] + Pack32(Little, 10) + Pack32(Little, 1) + Pack32(Little, if incoming then 1 else 0)
    + Pack32(Little, 0) + Pack32(Little, 0)
  }

  function Init2Packet(incoming: bool): seq<byte> { Sized(Init2Head(incoming) + Init2Tail(incoming)) }

  /** The start byte and the protocol version; gives the position behind them. */
  function ParseInitVersion(c: Conn, p: seq<byte>): (Conn, Option<nat>) {
    var start := Read8(p, 2);
    if start.0 != 0xFF then (c, None)
    else
      var ver := Read16(Little, p, start.1);
      if c.incoming then
        if ver.0 <= 5 then (c.(remoteVersion := ver.0), None)
        else (c.(remoteVersion := ver.0, effVersion := if ver.0 == 6 then 6 else 7), Some(ver.1 + 2))
      else if ver.0 != c.remoteVersion then (c, None)
      else (c, Some(ver.1 + 2))
  }

  /** The two UINs and the session id. */
  function ParseInitPeer(c: Conn, p: seq<byte>, pos: nat): (Conn, bool) {
    var our := Read32(Little, p, pos);
    if our.0 != c.selfUin then (c, false)
    else
      var rem := Read32(Little, p, our.1 + 6);
      if !c.incoming && rem.0 != c.remoteUin then (c, false)
      else
        var flags := Read8(p, rem.1 + 8);
        var sid := Read32(Little, p, flags.1 + 4);
        var c1 := c.(remoteUin := rem.0);
        if !c.incoming && sid.0 != c.session then (c1, false) else (c1.(session := sid.0), true)
  }

  /** Reads an init packet into the connection; the flag says whether no check failed. */
  function ParseInitPacket(c: Conn, p: seq<byte>): (Conn, bool) {
    var (c1, pos) := ParseInitVersion(c, p);
    if pos.None? then (c1, false) else ParseInitPeer(c1, p, pos.value)
  }

  predicate ParseInitAck(p: seq<byte>) { Read16(Little, p, 0).0 == 4 }

  predicate ParseInit2(p: seq<byte>) {
    var length := Read16(Little, p, 0);
    length.0 == 0x21 && Read8(p, length.1).0 == 3
  }

  // ------------------------------------------------------------------
  //  Sending events
  // ------------------------------------------------------------------

  function Write(c: Conn, bytes: seq<byte>): Conn { c.(wire := c.wire + [Handshake(bytes)]) }

  function SendPacketEvent(c: Conn, ev: Event, now: int): Conn {
    c.(seqnum := (c.seqnum - 1) % 0x1_0000,
       wire := c.wire + [Message(c.seqnum, ev)],
       cache := C.Insert(c.cache, C.Item(c.seqnum, ev, now, ACK_TIMEOUT)))
  }

  function SendEvent(c: Conn, ev: Event, now: int): Conn {
    if c.state == Connected then SendPacketEvent(c, ev, now) else c.(queue := c.queue + [ev])
  }

  function FlushQueue(c: Conn, now: int): (r: Conn)
    ensures r.queue == []
    decreases |c.queue|
  {
    if c.queue == [] then c
    else FlushQueue(SendPacketEvent(c, c.queue[0], now).(queue := c.queue[1..]), now)
  }

  function Establish(c: Conn, now: int): Conn { FlushQueue(c.(state := Connected), now) }

  /** ConfirmUIN: on success the contact is known from here on. */
  function ConfirmUin(c: Conn, known: set<uint>): (Conn, bool) {
    if c.remoteUin in known then (c.(contact := Some(c.remoteUin)), true) else (c, false)
  }

  /** One packet while the handshake is on. The flag is false when an exception tears the
      connection down. */
  function HandlePacket(c: Conn, p: seq<byte>, env: Env): (Conn, bool)
    requires c.state != Connected
  {
    match c.state
    case NotConnected => (c, true)
    case WaitingForInit =>
      var (c1, ok) := ParseInitPacket(c, p);
      if !ok then (c1, false)
      else
        var c2 := Write(c1, INIT_ACK);
        if c.incoming then (Write(c2, InitPacket(c2, env.host)).(state := WaitingForInitAck), true)
        else if c2.effVersion == 7 then (Write(c2, Init2Packet(false)).(state := WaitingForInit2), true)
        else (Establish(c2, env.now), true)
    case WaitingForInitAck =>
      if !ParseInitAck(p) then (c, false)
      else if !c.incoming then (c.(state := WaitingForInit), true)
      else if c.effVersion == 7 then (c.(state := WaitingForInit2), true)
      else
        var (c1, ok) := ConfirmUin(c, env.known);
        if ok then (Establish(c1, env.now), true) else (c1, false)
    case WaitingForInit2 =>
      if !ParseInit2(p) then (c, false)
      else if !c.incoming then (Establish(c, env.now), true)
      else
        var (c1, ok) := ConfirmUin(Write(c, Init2Packet(true)), env.known);
        if ok then (Establish(c1, env.now), true) else (c1, false)
  }

  // ------------------------------------------------------------------
  //  What reading gives back
  // ------------------------------------------------------------------

  lemma InitBodyFields(c: Conn, h: Host)
    ensures var b := InitBody(c, h);
      && |b| >= 39
      && b[0..4] == Pack32(Little, c.remoteUin)
      && b[10..14] == Pack32(Little, c.selfUin)
      && b[22] == 4
      && b[27..31] == Pack32(Little, c.session)
  {
    hide Pack16, Pack32;
    var b := InitBody(c, h);
    var a := Pack32(Little, c.remoteUin) + Pack16(Little, 0) + Pack32(Little, h.port);
    var d := a + Pack32(Little, c.selfUin) + Pack32(Big, h.extIp) + Pack32(Big, h.lanIp) + [4];
    assert b[..10] == a && b[..23] == d;
    assert b[..31] == d + Pack32(Little, h.port) + Pack32(Little, c.session);
  }

  /** The fields of an init packet sit where the reader looks for them. */
  lemma InitPacketFields(c: Conn, h: Host)
    ensures var p := InitPacket(c, h);
      && Read8(p, 2) == (0xFF, 3)
      && Read16(Little, p, 3) == (7, 5)
      && Read32(Little, p, 7) == (c.remoteUin, 11)
      && Read32(Little, p, 17) == (c.selfUin, 21)
      && Read8(p, 29) == (4, 30)
      && Read32(Little, p, 34) == (c.session, 38)
  {
    hide Pack16, Pack32, Unpack16, Unpack32, InitBody;
    var b, p := InitBody(c, h), InitPacket(c, h);
    InitBodyFields(c, h);
    assert p[2] == 0xFF && p[3..5] == Pack16(Little, 7);
    assert p[7..] == b;
    assert p[7..11] == b[0..4] && p[17..21] == b[10..14] && p[29] == b[22] && p[34..38] == b[27..31];
    Unpack16InvertsPack16(Little, 7);
    Unpack32InvertsPack32(Little, c.remoteUin);
    Unpack32InvertsPack32(Little, c.selfUin);
    Unpack32InvertsPack32(Little, c.session);
  }

  /** An acceptor takes any init packet addressed to it and learns version, UIN and session. */
  lemma AcceptInitPacket(c: Conn, from: Conn, h: Host)
    requires c.incoming
    ensures ParseInitPacket(c, InitPacket(from, h)) ==
      if from.remoteUin == c.selfUin
      then (c.(remoteVersion := 7, effVersion := 7, remoteUin := from.selfUin, session := from.session), true)
      else (c.(remoteVersion := 7, effVersion := 7), false)
  {
    InitPacketFields(from, h);
  }

  /** An initiator takes the reply exactly when it recorded version 7 and everything else agrees. */
  lemma CheckInitPacket(c: Conn, from: Conn, h: Host)
    requires !c.incoming
    ensures ParseInitPacket(c, InitPacket(from, h)) ==
      (c, c.remoteVersion == 7 && from.remoteUin == c.selfUin && from.selfUin == c.remoteUin && from.session == c.session)
  {
    InitPacketFields(from, h);
  }

  lemma ReadAcks(incoming: bool)
    ensures ParseInitAck(INIT_ACK) && ParseInit2(Init2Packet(incoming))
  {
    assert INIT_ACK[0..2] == Pack16(Little, 4);
    var p := Init2Packet(incoming);
    assert p[0..2] == Pack16(Little, 0x21) && p[2] == 3;
  }
}
