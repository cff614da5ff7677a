/** The FLAP side of the server connection (src/Client.cpp: FLAPHeader, FLAPFooter, FLAPwrapSNAC, Parse). */
module ServerLink {
  import opened Buffers
  import opened Framing

  function NextSeq(s: ushort): ushort { (s + 1) % 0x8000 }

  /** What consecutive FLAPwrapSNAC calls append, one packet a body. */
  function Wrapped(s: ushort, bodies: seq<seq<byte>>): (packets: seq<seq<byte>>)
    ensures |packets| == |bodies|
    decreases |bodies|
  {
    if bodies == [] then []
    else [EncodeFlap(2, NextSeq(s), bodies[0])] + Wrapped(NextSeq(s), bodies[1..])
  }

  class Link {
    /** m_client_seq_num */
    var seqnum: ushort
    /** m_recv */
    const recv: Buffer
    /** Every packet handed on by Parse so far, header included. */
    var dispatched: seq<seq<byte>>

    ghost predicate Valid()
      reads this, recv
    {
      recv.endn == Big
    }

    constructor (start: ushort)
      ensures Valid() && fresh(recv) && recv.data == [] && dispatched == [] && seqnum == start
    {
      seqnum := start;
      recv := new Buffer();
      dispatched := [];
    }

    method NextSeqNum() returns (s: ushort)
      modifies `seqnum
      ensures s == seqnum == NextSeq(old(seqnum))
    {
      seqnum := (seqnum + 1) % 0x8000;
      s := seqnum;
    }

    method FlapHeader(b: Buffer, channel: byte, s: ushort) returns (mk: Marker)
      modifies b`data, b`endn
      ensures b.endn == Big && b.data == old(b.data) + [42, channel] + Pack16(Big, s) + [0, 0]
      ensures mk == Marker(|b.data|, Big, 2)
    {
      b.SetEndianness(Big);
      b.Put8(42);
      b.Put8(channel);
      b.Put16(s);
      mk := b.AutoSizeShortMarker();
    }

    /** The SNAC is any run of bytes; writing it may leave the buffer in either byte order. */
    method FlapWrapSnac(b: Buffer, snac: seq<byte>, leaves: Endian)
      requires b != recv
      modifies `seqnum, b`data, b`endn
      ensures seqnum == NextSeq(old(seqnum))
      ensures b.data == old(b.data) + EncodeFlap(2, seqnum, snac)
    {
      var s := NextSeqNum();
      var mk := FlapHeader(b, 2, s);
      ghost var head := b.data;
      b.PutBytes(snac);
      b.SetEndianness(leaves);
      b.SetAutoSizeMarker(mk);
      assert (head + snac)[..mk.position - 2] == old(b.data) + [42, 2] + Pack16(Big, s);
      assert (head + snac)[mk.position..] == snac;
      assert b.data == old(b.data) + [42, 2] + Pack16(Big, s) + Pack16(Big, |snac| % 0x1_0000) + snac;
    }

    /** Several SNACs in one buffer, as uploadSelfDetails sends them. */
    method FlapWrapAll(b: Buffer, snacs: seq<seq<byte>>, leaves: seq<Endian>)
      requires b != recv && |leaves| == |snacs|
      modifies `seqnum, b`data, b`endn
      ensures b.data == old(b.data) + Concat(Wrapped(old(seqnum), snacs))
    {
      ghost var s0 := seqnum;
      for i := 0 to |snacs|
        invariant b.data + Concat(Wrapped(seqnum, snacs[i..])) == old(b.data) + Concat(Wrapped(s0, snacs))
      {
        ghost var before, s := b.data, seqnum;
        assert snacs[i..][1..] == snacs[i + 1..];
        FlapWrapSnac(b, snacs[i], leaves[i]);
        ghost var p, more := EncodeFlap(2, seqnum, snacs[i]), Wrapped(seqnum, snacs[i + 1..]);
        assert Wrapped(s, snacs[i..]) == [p] + more;
        assert Concat([p] + more) == p + Concat(more) by { assert ([p] + more)[1..] == more; }
        assert before + (p + Concat(more)) == (before + p) + Concat(more);
      }
      assert snacs[|snacs|..] == [] && b.data + [] == b.data;
    }

    /** One turn of the loop: the header is read off the buffer field by field. */
    method ParseOne() returns (more: bool, rejected: bool)
      requires Valid() && 0 < |recv.data| < 0x1_0000_0000
      modifies recv`data, recv`pos, `dispatched
      ensures Valid()
      ensures match FlapCut(old(recv.data))
        case Wait => !more && !rejected && recv.data == old(recv.data) && dispatched == old(dispatched)
        case Reject => !more && rejected && recv.data == [] && dispatched == old(dispatched)
        case Take(n) => more && !rejected && n <= |old(recv.data)| && recv.data == old(recv.data)[n..]
                        && dispatched == old(dispatched) + [old(recv.data)[..n]]
    {
      recv.SetPos(0);
      var startByte := recv.Get8();
      if startByte != 42 {
        recv.Clear();
        return false, true;
      }
      if recv.Remains() < 5 { return false, false; }
      var channel := recv.Get8();
      var seqNum := recv.Get16();
      var dataLen := recv.Get16();
      if recv.Remains() < dataLen { return false, false; }
      var sb := new Buffer();
      var n: int := dataLen;
      recv.ChopOff(sb, n + 6);
      assert sb.data == old(recv.data)[..n + 6];
      dispatched := dispatched + [sb.data];
      more, rejected := true, false;
    }

    method Parse() returns (rejected: bool)
      requires Valid() && |recv.data| < 0x1_0000_0000
      modifies recv`data, recv`pos, `dispatched
      ensures Valid()
      ensures var r := Split(FlapCut, old(recv.data));
        recv.data == r.rest && dispatched == old(dispatched) + r.packets && rejected == r.rejected
    {
      rejected := false;
      var more := true;
      while more && recv.data != []
        invariant Valid() && |recv.data| < 0x1_0000_0000
        invariant var whole := Split(FlapCut, old(recv.data));
          if more then
            var r := Split(FlapCut, recv.data);
            && dispatched + r.packets == old(dispatched) + whole.packets
            && r.rest == whole.rest && r.rejected == whole.rejected && !rejected
          else dispatched == old(dispatched) + whole.packets && recv.data == whole.rest && rejected == whole.rejected
        decreases |recv.data|, more
      {
        more, rejected := ParseOne();
      }
    }

    /** RecvFromServer on one chunk. */
    method Recv(chunk: seq<byte>) returns (rejected: bool)
      requires Valid() && |recv.data| + |chunk| < 0x1_0000_0000
      modifies recv`data, recv`pos, `dispatched
      ensures Valid()
      ensures var r := Split(FlapCut, old(recv.data) + chunk);
        recv.data == r.rest && dispatched == old(dispatched) + r.packets && rejected == r.rejected
    {
      recv.PutBytes(chunk);
      rejected := Parse();
    }
  }

  // ------------------------------------------------------------------
  //  What was wrapped comes back
  // ------------------------------------------------------------------

  lemma SeqsAdd(s: ushort, i: nat)
    requires s < 0x8000 && i > 0
    ensures (NextSeq(s) + 1 + (i - 1)) % 0x8000 == (s + 1 + i) % 0x8000
  {
  }

  lemma {:induction false} WrappedAt(s: ushort, bodies: seq<seq<byte>>, i: nat)
    requires s < 0x8000 && i < |bodies|
    ensures Wrapped(s, bodies)[i] == EncodeFlap(2, (s + 1 + i) % 0x8000, bodies[i])
    decreases i
  {
    hide EncodeFlap;
    if i > 0 {
      WrappedAt(NextSeq(s), bodies[1..], i - 1);
      SeqsAdd(s, i);
    }
  }

  /** A SNAC packet with the given sequence number and body. */
  predicate Carries(packet: seq<byte>, seqnum: ushort, body: seq<byte>) {
    && |packet| >= 6
    && packet[1] == 2
    && Unpack16(Big, packet[2..4]) == seqnum
    && packet[6..] == body
  }

  /** Any number of wrapped bodies of at most 65535 bytes, received in any chunks, come out one
      packet a body, in order, on channel 2, under consecutive sequence numbers modulo 2^15. */
  lemma WrappedIsReceived(s: ushort, bodies: seq<seq<byte>>, chunks: seq<seq<byte>>)
    requires s < 0x8000 && forall b :: b in bodies ==> |b| <= 0xFFFF
    requires Concat(chunks) == Concat(Wrapped(s, bodies))
    ensures var r := Receive(FlapCut, [], chunks);
      && r.rest == [] && !r.rejected && |r.packets| == |bodies|
      && forall i :: 0 <= i < |bodies| ==> Carries(r.packets[i], (s + 1 + i) % 0x8000, bodies[i])
  {
    var packets := Wrapped(s, bodies);
    forall i | 0 <= i < |bodies|
      ensures IsPacket(FlapCut, packets[i]) && Carries(packets[i], (s + 1 + i) % 0x8000, bodies[i])
    {
      WrappedAt(s, bodies, i);
      var n := (s + 1 + i) % 0x8000;
      assert bodies[i] in bodies;
      FlapIsPacketIff(2, n, bodies[i]);
      assert packets[i][2..4] == Pack16(Big, n);
      Unpack16InvertsPack16(Big, n);
    }
    assert Concat(packets) + [] == Concat(packets);
    FlapStream(packets, [], chunks);
  }
}
