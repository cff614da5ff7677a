/** The DirectClient object (src/DirectClient.cpp), proved against the functions of DirectConn. */
module DirectClients {
  import opened Wrappers
  import opened Buffers
  import opened DirectConn
  import DirectOrder
  import C = Cache

  class DirectClient {
    var state: State
    var incoming: bool
    var selfUin: uint
    var contact: Option<uint>
    var remoteVersion: ushort
    var effVersion: ushort
    var remoteUin: uint
    var session: uint
    var queue: seq<Event>
    var cache: seq<C.Item<ushort, Event>>
    var seqnum: ushort
    /** Everything sent on the socket. */
    var wire: seq<Frame>

    function Abs(): Conn
      reads this
    {
      Conn(state, incoming, selfUin, contact, remoteVersion, effVersion, remoteUin, session, queue, cache, seqnum, wire)
    }

    constructor Incoming(self: uint)
      ensures Abs() == NewIncoming(self)
    {
      state, incoming, selfUin, contact := WaitingForInit, true, self, None;
      remoteVersion, effVersion, remoteUin, session := 0, 0, 0, 0;
      queue, cache, seqnum, wire := [], [], 0xFFFF, [];
    }

    constructor Outgoing(self: uint, uin: uint)
      ensures Abs() == NewOutgoing(self, uin)
    {
      state, incoming, selfUin, contact := NotConnected, false, self, Some(uin);
      remoteVersion, effVersion, remoteUin, session := 0, 0, uin, 0;
      queue, cache, seqnum, wire := [], [], 0xFFFF, [];
    }

    method Dial(version: ushort, sessionId: uint) returns (ok: bool)
      modifies this
      ensures (Abs(), ok) == Connect(old(Abs()), version, sessionId)
    {
      remoteVersion := version;
      if remoteVersion >= 7 {
        effVersion := 7;
      } else if remoteVersion == 6 {
        effVersion := 6;
      } else {
        return false;
      }
      session := sessionId;
      state := WaitingForInitAck;
      ok := true;
    }

    // -- sending handshake packets --

    method WriteOut(b: Buffer)
      modifies this`wire
      ensures Abs() == Write(old(Abs()), b.data)
    {
      wire := wire + [Handshake(b.data)];
    }

    method PutInitPorts(b: Buffer, h: Host)
      requires b.endn == Little
      modifies b`data, b`endn
      ensures b.endn == Little && b.data == old(b.data) + InitPorts(Abs(), h)
    {
      hide Pack16, Pack32;
      b.Put32(remoteUin);
      b.Put16(0);
      b.Put32(h.port);
      b.Put32(selfUin);
      b.SetEndianness(Big);
      b.Put32(h.extIp);
      b.Put32(h.lanIp);
      b.Put8(4);
      b.SetEndianness(Little);
    }

    method PutInitSession(b: Buffer, h: Host)
      requires b.endn == Little
      modifies b`data
      ensures b.data == old(b.data) + InitSession(Abs(), h)
    {
      hide Pack16, Pack32;
      b.Put32(h.port);
      b.Put32(session);
      b.Put32(0x50);
      b.Put32(3);
      if effVersion == 7 { b.Put32(0); }
    }

    method SendInitPacket(h: Host)
      modifies this`wire
      ensures Abs() == Write(old(Abs()), InitPacket(old(Abs()), h))
    {
      hide Pack16, InitPorts, InitSession;
      var b := new Buffer();
      b.SetEndianness(Little);
      var m1 := b.AutoSizeShortMarker();
      b.Put8(0xFF);
      b.Put16(7);
      var m2 := b.AutoSizeShortMarker();
      PutInitPorts(b, h);
      PutInitSession(b, h);
      ghost var body := InitPorts(Abs(), h) + InitSession(Abs(), h);
      ghost var d0 := b.data;
      b.SetAutoSizeMarker(m1);
      ghost var d1 := b.data;
      b.SetAutoSizeMarker(m2);
      FillMarkers(body, d0, d1, b.data);
      WriteOut(b);
    }

    method SendInitAck()
      modifies this`wire
      ensures Abs() == Write(old(Abs()), INIT_ACK)
    {
      var b := new Buffer();
      b.SetEndianness(Little);
      var m1 := b.AutoSizeShortMarker();
      b.Put32(1);
      b.SetAutoSizeMarker(m1);
      assert b.data == INIT_ACK;
      WriteOut(b);
    }

    method PutInit2Head(b: Buffer)
      requires b.endn == Little
      modifies b`data
      ensures b.data == old(b.data) + Init2Head(incoming)
    {
      hide Pack32;
      b.Put8(3);
      b.Put32(10);
      b.Put32(1);
      b.Put32(if incoming then 1 else 0);
      b.Put32(0);
      b.Put32(0);
    }

    method PutInit2Tail(b: Buffer)
      requires b.endn == Little
      modifies b`data
      ensures b.data == old(b.data) + Init2Tail(incoming)
    {
      hide Pack32;
      if incoming {
        b.Put32(0x00040001);
        b.Put32(0);
        b.Put32(0);
      } else {
        b.Put32(0);
        b.Put32(0);
        b.Put32(0x00040001);
      }
    }

    method SendInit2()
      modifies this`wire
      ensures Abs() == Write(old(Abs()), Init2Packet(old(incoming)))
    {
      hide Pack16, Init2Head, Init2Tail;
      var b := new Buffer();
      b.SetEndianness(Little);
      var m1 := b.AutoSizeShortMarker();
      PutInit2Head(b);
      PutInit2Tail(b);
      ghost var body := Init2Head(incoming) + Init2Tail(incoming);
      assert b.data == [0, 0] + body;
      b.SetAutoSizeMarker(m1);
      assert b.data == Sized(body);
      WriteOut(b);
    }

    // -- reading handshake packets --

    method ReadInitVersion(b: Buffer) returns (ok: bool)
      requires b.pos == 0
      modifies this, b`pos, b`endn
      ensures b.endn == Little
      ensures (Abs(), if ok then Some(b.pos) else None) == ParseInitVersion(old(Abs()), b.data)
    {
      b.SetEndianness(Little);
      var length := b.Get16();
      var start := b.Get8();
      if start != 0xFF { return false; }
      var version := b.Get16();
      b.Advance(2);
      if incoming {
        remoteVersion := version;
        if version <= 5 { return false; }
        effVersion := if version == 6 then 6 else 7;
      } else if version != remoteVersion {
        return false;
      }
      ok := true;
    }

    method ReadInitPeer(b: Buffer) returns (ok: bool)
      requires b.endn == Little
      modifies this, b`pos
      ensures (Abs(), ok) == ParseInitPeer(old(Abs()), b.data, old(b.pos))
    {
      hide Unpack32, Read8, Read32;
      var our := b.Get32();
      if our != selfUin { return false; }
      b.Advance(6);
      var uin := b.Get32();
      if incoming {
        remoteUin := uin;
      } else if remoteUin != uin {
        return false;
      }
      b.Advance(8);
      var flags := b.Get8();
      b.Advance(4);
      var id := b.Get32();
      if incoming {
        session := id;
      } else if session != id {
        return false;
      }
      b.Advance(8);
      if effVersion == 7 { b.Advance(4); }
      ok := true;
    }

    method ReadInit(b: Buffer) returns (ok: bool)
      requires b.pos == 0
      modifies this, b`pos, b`endn
      ensures (Abs(), ok) == ParseInitPacket(old(Abs()), b.data)
    {
      hide ParseInitVersion, ParseInitPeer;
      ok := ReadInitVersion(b);
      if ok { ok := ReadInitPeer(b); }
    }

    method ReadInitAck(b: Buffer) returns (ok: bool)
      requires b.pos == 0
      modifies b`pos, b`endn
      ensures ok == ParseInitAck(b.data)
    {
      b.SetEndianness(Little);
      var length := b.Get16();
      if length != 4 { return false; }
      var a := b.Get32();
      ok := true;
    }

    method ReadInit2(b: Buffer) returns (ok: bool)
      requires b.pos == 0
      modifies b`pos, b`endn
      ensures ok == ParseInit2(b.data)
    {
      b.SetEndianness(Little);
      var length := b.Get16();
      if length != 0x21 { return false; }
      var kind := b.Get8();
      if kind != 3 { return false; }
      var unknown := b.Get32();
      unknown := b.Get32();
      b.Advance(24);
      ok := true;
    }

    method Confirm(known: set<uint>) returns (ok: bool)
      modifies this`contact
      ensures (Abs(), ok) == ConfirmUin(old(Abs()), known)
    {
      ok := remoteUin in known;
      if ok { contact := Some(remoteUin); }
    }

    // -- message traffic --

    method NextSeqNum() returns (s: ushort)
      modifies this`seqnum
      ensures s == old(seqnum) && seqnum == (old(seqnum) - 1) % 0x1_0000
    {
      s := seqnum;
      seqnum := if seqnum == 0 then 0xFFFF else seqnum - 1;
    }

    method SendPacketEvent(ev: Event, now: int)
      modifies this
      ensures Abs() == DirectConn.SendPacketEvent(old(Abs()), ev, now)
    {
      var s := NextSeqNum();
      wire := wire + [Message(s, ev)];
      cache := C.Insert(cache, C.Item(s, ev, now, ACK_TIMEOUT));
    }

    method SendEvent(ev: Event, now: int)
      modifies this
      ensures Abs() == DirectConn.SendEvent(old(Abs()), ev, now)
    {
      if state == Connected {
        SendPacketEvent(ev, now);
      } else {
        queue := queue + [ev];
      }
    }

    method FlushQueue(now: int)
      modifies this
      ensures Abs() == DirectConn.FlushQueue(old(Abs()), now)
    {
      while queue != []
        invariant DirectConn.FlushQueue(Abs(), now) == DirectConn.FlushQueue(old(Abs()), now)
        decreases |queue|
      {
        SendPacketEvent(queue[0], now);
        queue := queue[1..];
      }
    }

    method Finish(now: int)
      modifies this
      ensures Abs() == Establish(old(Abs()), now)
    {
      state := Connected;
      FlushQueue(now);
    }

    method TakeInit(b: Buffer, env: Env) returns (ok: bool)
      requires b.pos == 0 && state == WaitingForInit
      modifies this, b`pos, b`endn
      ensures (Abs(), ok) == HandlePacket(old(Abs()), b.data, env)
    {
      hide ParseInitPacket, InitPacket, Init2Packet, INIT_ACK, Establish;
      ok := ReadInit(b);
      ghost var c1 := ParseInitPacket(old(Abs()), b.data).0;
      assert state == WaitingForInit && incoming == old(incoming) by { ReadKeepsState(old(Abs()), b.data); }
      if !ok { return; }
      SendInitAck();
      if incoming {
        SendInitPacket(env.host);
        state := WaitingForInitAck;
      } else if effVersion == 7 {
        SendInit2();
        state := WaitingForInit2;
      } else {
        Finish(env.now);
      }
    }

    method TakeInitAck(b: Buffer, env: Env) returns (ok: bool)
      requires b.pos == 0 && state == WaitingForInitAck
      modifies this, b`pos, b`endn
      ensures (Abs(), ok) == HandlePacket(old(Abs()), b.data, env)
    {
      hide ParseInitAck, Establish;
      ok := ReadInitAck(b);
      if !ok { return; }
      if !incoming {
        state := WaitingForInit;
      } else if effVersion == 7 {
        state := WaitingForInit2;
      } else {
        ok := Confirm(env.known);
        if ok { Finish(env.now); }
      }
    }

    method TakeInit2(b: Buffer, env: Env) returns (ok: bool)
      requires b.pos == 0 && state == WaitingForInit2
      modifies this, b`pos, b`endn
      ensures (Abs(), ok) == HandlePacket(old(Abs()), b.data, env)
    {
      hide ParseInit2, Init2Packet, Establish;
      ok := ReadInit2(b);
      if !ok { return; }
      if incoming {
        SendInit2();
        ok := Confirm(env.known);
        if !ok { return; }
      }
      Finish(env.now);
    }

    /** One turn of the loop in Parse before the connection is up; false stands for an exception. */
    method TakePacket(b: Buffer, env: Env) returns (ok: bool)
      requires b.pos == 0 && state != Connected
      modifies this, b`pos, b`endn
      ensures (Abs(), ok) == HandlePacket(old(Abs()), b.data, env)
    {
      ok := true;
      if state == WaitingForInit {
        ok := TakeInit(b, env);
      } else if state == WaitingForInitAck {
        ok := TakeInitAck(b, env);
      } else if state == WaitingForInit2 {
        ok := TakeInit2(b, env);
      }
    }

    /** The lookup and removal of the ack branch; the event is the caller's to signal and delete. */
    method TakeAck(s: ushort) returns (ev: Option<Event>)
      modifies this`cache
      ensures (Abs(), ev) == DirectOrder.Acknowledge(old(Abs()), s)
    {
      var i := C.IndexOf(cache, s);
      ev := None;
      if i < |cache| {
        ev := Some(cache[i].value);
        cache := C.RemoveAt(cache, i);
      }
    }
  }

  /** The outer length field covers the inner one. */
  lemma FillMarkers(body: seq<byte>, d0: seq<byte>, d1: seq<byte>, d2: seq<byte>)
    requires d0 == [0, 0] + [0xFF] + Pack16(Little, 7) + [0, 0] + body
    requires d1 == d0[..0] + Pack16(Little, (|d0| - 2) % 0x1_0000) + d0[2..]
    requires d2 == d1[..5] + Pack16(Little, (|d1| - 7) % 0x1_0000) + d1[7..]
    ensures d2 == Sized([0xFF] + Pack16(Little, 7) + Sized(body))
  {
    hide Pack16;
    var n1 := Pack16(Little, (|body| + 5) % 0x1_0000);
    assert d1 == n1 + [0xFF] + Pack16(Little, 7) + [0, 0] + body;
    assert d1[..5] == n1 + [0xFF] + Pack16(Little, 7);
    assert d1[7..] == body;
    assert |[0xFF] + Pack16(Little, 7) + Sized(body)| == |body| + 5;
  }

  lemma ReadKeepsState(c: Conn, p: seq<byte>)
    ensures ParseInitPacket(c, p).0.state == c.state && ParseInitPacket(c, p).0.incoming == c.incoming
  {
  }
}
