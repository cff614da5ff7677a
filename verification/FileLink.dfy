/** The receiving side of a file transfer connection (src/FileTransferClient.cpp: Recv and Parse). */
module FileLink {
  import opened Buffers
  import opened Framing

  /** A packet: its length in little-endian order, then its body. */
  function EncodePacket(body: seq<byte>): (d: seq<byte>) { Pack16(Little, |body| % 0x1_0000) + body }

  class Link {
    /** m_recv */
    const recv: Buffer
    /** Every packet handed on by Parse so far, length included. */
    var dispatched: seq<seq<byte>>

    constructor ()
      ensures fresh(recv) && recv.data == [] && dispatched == []
    {
      recv := new Buffer();
      dispatched := [];
    }

    /** One turn of the loop. A length of zero, also the one read off a single byte, ends it. */
    method ParseOne() returns (more: bool)
      requires 0 < |recv.data| < 0x1_0000_0000
      modifies recv, `dispatched
      ensures match FileCut(old(recv.data))
        case Take(n) => more && n <= |old(recv.data)| && recv.data == old(recv.data)[n..]
                        && dispatched == old(dispatched) + [old(recv.data)[..n]]
        case _ => !more && recv.data == old(recv.data) && dispatched == old(dispatched)
    {
      hide Unpack16;
      recv.SetPos(0);
      recv.SetEndianness(Little);
      var length := recv.Get16();
      if length == 0 { return false; }
      if recv.Remains() < length { return false; }
      var sb := new Buffer();
      var n: int := length;
      recv.ChopOff(sb, n + 2);
      assert sb.data == old(recv.data)[..n + 2];
      dispatched := dispatched + [sb.data];
      more := true;
    }

    method Parse()
      requires |recv.data| < 0x1_0000_0000
      modifies recv, `dispatched
      ensures var r := Split(FileCut, old(recv.data));
        recv.data == r.rest && dispatched == old(dispatched) + r.packets && !r.rejected
    {
      hide FileCut;
      var more := true;
      while more && recv.data != []
        invariant |recv.data| < 0x1_0000_0000
        invariant var whole := Split(FileCut, old(recv.data));
          if more then
            var r := Split(FileCut, recv.data);
            dispatched + r.packets == old(dispatched) + whole.packets && r.rest == whole.rest && r.rejected == whole.rejected
          else dispatched == old(dispatched) + whole.packets && recv.data == whole.rest && !whole.rejected
        decreases |recv.data|, more
      {
        NeverRejects(recv.data);
        more := ParseOne();
      }
    }

    /** Recv on one chunk. */
    method Recv(chunk: seq<byte>)
      requires |recv.data| + |chunk| < 0x1_0000_0000
      modifies recv, `dispatched
      ensures var r := Split(FileCut, old(recv.data) + chunk);
        recv.data == r.rest && dispatched == old(dispatched) + r.packets
    {
      recv.PutBytes(chunk);
      Parse();
    }
  }

  lemma NeverRejects(buf: seq<byte>)
    ensures !FileCut(buf).Reject?
    ensures FileCut(buf).Take? ==> 0 < FileCut(buf).n <= |buf|
  {
    hide Unpack16;
  }

  /** A written packet is read as one exactly when its body is not empty and fits. */
  lemma PacketIffNotEmpty(body: seq<byte>)
    requires |body| <= 0xFFFF
    ensures IsPacket(FileCut, EncodePacket(body)) <==> body != []
  {
    var d := EncodePacket(body);
    assert d[0..2] == Pack16(Little, |body|);
    Unpack16InvertsPack16(Little, |body|);
  }

  /** Any packets with bodies that are not empty, in any chunks, come out once each and in order. */
  lemma PacketsAreReceived(bodies: seq<seq<byte>>, chunks: seq<seq<byte>>)
    requires forall i :: 0 <= i < |bodies| ==> 0 < |bodies[i]| <= 0xFFFF
    requires Concat(chunks) == Concat(Encoded(bodies))
    ensures Receive(FileCut, [], chunks) == Parsed(Encoded(bodies), [], false)
  {
    forall p | p in Encoded(bodies) ensures IsPacket(FileCut, p) {
      var i :| 0 <= i < |bodies| && p == EncodePacket(bodies[i]);
      PacketIffNotEmpty(bodies[i]);
    }
    assert Concat(Encoded(bodies)) + [] == Concat(Encoded(bodies));
    FileStream(Encoded(bodies), [], chunks);
  }

  function Encoded(bodies: seq<seq<byte>>): (packets: seq<seq<byte>>)
    ensures |packets| == |bodies|
  {
    seq(|bodies|, i requires 0 <= i < |bodies| => EncodePacket(bodies[i]))
  }
}
