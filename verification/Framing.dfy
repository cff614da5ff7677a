/** Cutting a byte stream into packets: what Client::Parse and FileTransferClient::Parse have in common. */
module Framing {
  import opened Buffers

  /** What the front of the receive buffer calls for. */
  datatype Cut = Wait | Reject | Take(n: nat)

  /** The header test of a protocol. */
  type Cutter = seq<byte> -> Cut

  /** A decision that has been made is not changed by bytes that arrive later. */
  ghost predicate Stable(cut: Cutter) {
    && (forall a :: cut(a).Take? ==> 0 < cut(a).n <= |a|)
    && (forall a, b :: !cut(a).Wait? && a != [] ==> cut(a + b) == cut(a))
  }

  /** The packets found in a buffer, what stays buffered, and whether a bad header emptied the buffer. */
  datatype Parsed = Parsed(packets: seq<seq<byte>>, rest: seq<byte>, rejected: bool)

  function Split(cut: Cutter, buf: seq<byte>): (r: Parsed)
    decreases |buf|
  {
    if buf == [] then Parsed([], [], false)
    else
      match cut(buf)
      case Wait => Parsed([], buf, false)
      case Reject => Parsed([], [], true)
      case Take(n) =>
        if 0 < n <= |buf| then
          var r := Split(cut, buf[n..]);
          r.(packets := [buf[..n]] + r.packets)
        else Parsed([], buf, false)
  }

  /** Receiving the chunks one by one, parsing after each. */
  function Receive(cut: Cutter, buf: seq<byte>, chunks: seq<seq<byte>>): (r: Parsed)
    decreases |chunks|
  {
    if chunks == [] then Parsed([], buf, false)
    else
      var first := Split(cut, buf + chunks[0]);
      var later := Receive(cut, first.rest, chunks[1..]);
      Parsed(first.packets + later.packets, later.rest, first.rejected || later.rejected)
  }

  function Concat(chunks: seq<seq<byte>>): seq<byte> {
    if chunks == [] then [] else chunks[0] + Concat(chunks[1..])
  }

  /** One packet off the front. */
  lemma SplitOne(cut: Cutter, a: seq<byte>, b: seq<byte>)
    requires Stable(cut) && a != [] && cut(a).Take?
    ensures 0 < cut(a).n <= |a|
    ensures Split(cut, a + b) ==
      var n := cut(a).n; var r := Split(cut, a[n..] + b); r.(packets := [a[..n]] + r.packets)
  {
    assert cut(a + b) == cut(a);
    var n := cut(a).n;
    assert (a + b)[n..] == a[n..] + b && (a + b)[..n] == a[..n];
  }

  /** Parsing a + b whole is parsing a, then what it left together with b. */
  lemma {:induction false} SplitAppend(cut: Cutter, a: seq<byte>, b: seq<byte>)
    requires Stable(cut) && !Split(cut, a).rejected
    ensures var first := Split(cut, a); var second := Split(cut, first.rest + b);
      Split(cut, a + b) == second.(packets := first.packets + second.packets)
    decreases |a|
  {
    hide Stable;
    if a == [] || !cut(a).Take? {
      assert Split(cut, a) == Parsed([], a, false);
      assert a + b == Split(cut, a).rest + b;
      assert [] + Split(cut, a + b).packets == Split(cut, a + b).packets;
    } else {
      SplitOne(cut, a, b);
      SplitOne(cut, a, []);
      var n := cut(a).n;
      assert a + [] == a && a[n..] + [] == a[n..];
      hide Split;
      SplitAppend(cut, a[n..], b);
      var p, q := Split(cut, a[n..]).packets, Split(cut, Split(cut, a[n..]).rest + b).packets;
      assert [a[..n]] + (p + q) == ([a[..n]] + p) + q;
    }
  }

  lemma RejectOne(cut: Cutter, a: seq<byte>, b: seq<byte>)
    requires Stable(cut) && a != [] && cut(a).Reject?
    ensures Split(cut, a + b) == Parsed([], [], true)
  {
    assert cut(a + b) == cut(a);
  }

  lemma {:induction false} RejectedStays(cut: Cutter, a: seq<byte>, b: seq<byte>)
    requires Stable(cut) && Split(cut, a).rejected
    ensures Split(cut, a + b) == Split(cut, a)
    decreases |a|
  {
    hide Stable;
    if cut(a).Take? {
      SplitOne(cut, a, b);
      SplitOne(cut, a, []);
      assert a + [] == a && a[cut(a).n..] + [] == a[cut(a).n..];
      RejectedStays(cut, a[cut(a).n..], b);
    } else {
      RejectOne(cut, a, b);
    }
  }

  lemma SplitNothingMore(cut: Cutter, a: seq<byte>)
    requires Stable(cut) && !Split(cut, a).rejected
    ensures Split(cut, Split(cut, a).rest) == Parsed([], Split(cut, a).rest, false)
  {
    SplitAppend(cut, a, []);
    var rest := Split(cut, a).rest;
    assert a + [] == a && rest + [] == rest;
    var p, q := Split(cut, a).packets, Split(cut, rest).packets;
    assert |p + q| == |p| + |q|;
  }

  lemma {:induction false} ReceiveIsSplit(cut: Cutter, buf: seq<byte>, chunks: seq<seq<byte>>)
    requires Stable(cut) && Split(cut, buf) == Parsed([], buf, false)
    requires !Split(cut, buf + Concat(chunks)).rejected
    ensures Receive(cut, buf, chunks) == Split(cut, buf + Concat(chunks))
    decreases |chunks|
  {
    if chunks == [] {
      assert buf + Concat(chunks) == buf;
    } else {
      var a, more := buf + chunks[0], Concat(chunks[1..]);
      assert buf + Concat(chunks) == a + more;
      if Split(cut, a).rejected { RejectedStays(cut, a, more); }
      SplitAppend(cut, a, more);
      SplitNothingMore(cut, a);
      ReceiveIsSplit(cut, Split(cut, a).rest, chunks[1..]);
    }
  }

  /** However a stream without a bad header is split into chunks, the same packets come
      out in the same order and the same bytes stay buffered. */
  lemma ChunkingIsInvisible(cut: Cutter, chunks: seq<seq<byte>>)
    requires Stable(cut) && !Split(cut, Concat(chunks)).rejected
    ensures Receive(cut, [], chunks) == Split(cut, Concat(chunks))
  {
    assert [] + Concat(chunks) == Concat(chunks);
    ReceiveIsSplit(cut, [], chunks);
  }

  ghost predicate IsPacket(cut: Cutter, p: seq<byte>) {
    p != [] && cut(p) == Take(|p|)
  }

  /** A stream made of whole packets and an unfinished one. */
  lemma {:induction false} SplitPackets(cut: Cutter, packets: seq<seq<byte>>, tail: seq<byte>)
    requires Stable(cut) && forall p :: p in packets ==> IsPacket(cut, p)
    requires tail == [] || cut(tail).Wait?
    ensures Split(cut, Concat(packets) + tail) == Parsed(packets, tail, false)
  {
    if packets == [] {
      assert Concat(packets) + tail == tail;
    } else {
      var p := packets[0];
      var more := Concat(packets[1..]) + tail;
      assert p in packets && Concat(packets) + tail == p + more;
      assert cut(p + more) == cut(p);
      assert (p + more)[|p|..] == more && (p + more)[..|p|] == p;
      SplitPackets(cut, packets[1..], tail);
      assert packets == [p] + packets[1..];
    }
  }

  // ------------------------------------------------------------------
  //  The three packet formats
  // ------------------------------------------------------------------

  /** FLAP (Client::Parse): byte 42, channel, sequence number, big-endian length, body. */
  function FlapCut(buf: seq<byte>): Cut {
    if buf == [] then Wait
    else if buf[0] != 42 then Reject
    else if |buf| - 1 < 5 then Wait
    else
      var len := Unpack16(Big, buf[4..6]);
      if |buf| - 6 < len then Wait else Take(len + 6)
  }

  /** File transfer packets: little-endian length, then that many bytes. A zero length is never taken. */
  function FileCut(buf: seq<byte>): Cut {
    var (len, _) := Read16(Little, buf, 0);
    if len == 0 || |buf| - 2 < len then Wait else Take(len + 2)
  }

  /** The number of bytes DirectClient::Parse takes off a non-empty buffer, or -1 when it waits:
      its test runs in 32-bit unsigned arithmetic after a read that may have passed the end. */
  function DirectChop(buf: seq<byte>): int {
    var (len, pos) := Read16(Little, buf, 0);
    if (|buf| - pos) % 0x1_0000_0000 < len then -1 else len + 2
  }

  lemma FlapCutStable()
    ensures Stable(FlapCut)
  {
    forall a: seq<byte>, b: seq<byte> | !FlapCut(a).Wait? && a != [] ensures FlapCut(a + b) == FlapCut(a) {
      if |a| >= 6 { assert (a + b)[4..6] == a[4..6]; }
    }
  }

  lemma FileCutStable()
    ensures Stable(FileCut)
  {
    forall a: seq<byte>, b: seq<byte> | !FileCut(a).Wait? && a != [] ensures FileCut(a + b) == FileCut(a) {
      assert (a + b)[0..2] == a[0..2];
    }
  }

  /** DirectClient::Parse takes no more bytes than there are exactly when the buffer is
      not down to one byte: on one byte it takes two. */
  lemma DirectChopInRangeIff(buf: seq<byte>)
    requires 0 < |buf| < 0x1_0000_0000
    ensures DirectChop(buf) <= |buf| <==> |buf| != 1
  {
  }

  /** A packet with its length in front, as direct connections and file transfers send them. */
  function LengthFirst(body: seq<byte>): seq<byte> { Pack16(Little, |body| % 0x1_0000) + body }

  /** A whole packet at the front of the buffer of a direct connection is taken, and exactly it. */
  lemma DirectChopTakes(body: seq<byte>, more: seq<byte>)
    requires |body| <= 0xFFFF && |body| + |more| + 2 < 0x1_0000_0000
    ensures DirectChop(LengthFirst(body) + more) == |LengthFirst(body)|
  {
    var d := LengthFirst(body) + more;
    assert d[0..2] == Pack16(Little, |body|);
    Unpack16InvertsPack16(Little, |body|);
  }

  /** A packet of which at least the length has come is waited for; of a lone first byte, two bytes are taken. */
  lemma DirectChopWaits(body: seq<byte>, n: nat)
    requires |body| <= 0xFFFF && 0 < n < |body| + 2
    ensures DirectChop(LengthFirst(body)[..n]) == if n == 1 then 2 else -1
  {
    var d := LengthFirst(body)[..n];
    if n >= 2 {
      assert d[0..2] == Pack16(Little, |body|);
      Unpack16InvertsPack16(Little, |body|);
    }
  }

  // ------------------------------------------------------------------
  //  FLAP streams
  // ------------------------------------------------------------------

  function EncodeFlap(channel: byte, seqnum: ushort, body: seq<byte>): (d: seq<byte>)
  {
    [42, channel] + Pack16(Big, seqnum) + Pack16(Big, |body| % 0x1_0000) + body
  }

  lemma FlapIsPacketIff(channel: byte, seqnum: ushort, body: seq<byte>)
    ensures IsPacket(FlapCut, EncodeFlap(channel, seqnum, body)) <==> |body| <= 0xFFFF
  {
    var d := EncodeFlap(channel, seqnum, body);
    assert d[4..6] == Pack16(Big, |body| % 0x1_0000);
    Unpack16InvertsPack16(Big, |body| % 0x1_0000);
  }

  /** An unfinished FLAP is waited for. */
  lemma FlapPrefixWaits(channel: byte, seqnum: ushort, body: seq<byte>, n: nat)
    requires |body| <= 0xFFFF && n < |EncodeFlap(channel, seqnum, body)|
    ensures n == 0 || FlapCut(EncodeFlap(channel, seqnum, body)[..n]).Wait?
  {
    var d := EncodeFlap(channel, seqnum, body);
    assert d[4..6] == Pack16(Big, |body|);
    Unpack16InvertsPack16(Big, |body|);
    if n >= 6 { assert d[..n][4..6] == d[4..6]; }
  }

  /** Whole FLAPs followed by the start of another: in whatever chunks they arrive, each is
      dispatched once, in order, and exactly the unfinished one stays buffered. */
  lemma FlapStream(packets: seq<seq<byte>>, tail: seq<byte>, chunks: seq<seq<byte>>)
    requires forall p :: p in packets ==> IsPacket(FlapCut, p)
    requires tail == [] || FlapCut(tail).Wait?
    requires Concat(chunks) == Concat(packets) + tail
    ensures Receive(FlapCut, [], chunks) == Parsed(packets, tail, false)
  {
    FlapCutStable();
    SplitPackets(FlapCut, packets, tail);
    ChunkingIsInvisible(FlapCut, chunks);
  }

  lemma FileStream(packets: seq<seq<byte>>, tail: seq<byte>, chunks: seq<seq<byte>>)
    requires forall p :: p in packets ==> IsPacket(FileCut, p)
    requires tail == [] || FileCut(tail).Wait?
    requires Concat(chunks) == Concat(packets) + tail
    ensures Receive(FileCut, [], chunks) == Parsed(packets, tail, false)
  {
    FileCutStable();
    SplitPackets(FileCut, packets, tail);
    ChunkingIsInvisible(FileCut, chunks);
  }

  // ------------------------------------------------------------------
  //  A bad start byte
  // ------------------------------------------------------------------

  lemma ConcatNone(buf: seq<byte>)
    ensures buf + Concat([]) == buf
  {
  }

  lemma ConcatAppend(a: seq<seq<byte>>, b: seq<seq<byte>>)
    ensures Concat(a + b) == Concat(a) + Concat(b)
    decreases |a|
  {
    if a == [] {
      assert a + b == b;
    } else {
      assert (a + b)[1..] == a[1..] + b;
      ConcatAppend(a[1..], b);
      assert a[0] + (Concat(a[1..]) + Concat(b)) == a[0] + Concat(a[1..]) + Concat(b);
    }
  }

  /** The packet at the front of a buffer. */
  lemma FlapTaken(s: seq<byte>)
    requires s != [] && FlapCut(s).Take?
    ensures 6 <= FlapCut(s).n <= |s|
    ensures var n := FlapCut(s).n; var r := Split(FlapCut, s[n..]);
      Split(FlapCut, s) == r.(packets := [s[..n]] + r.packets) && Concat(Split(FlapCut, s).packets) == s[..n] + Concat(r.packets)
  {
    hide Unpack16;
    var r := Split(FlapCut, s[FlapCut(s).n..]);
    assert ([s[..FlapCut(s).n]] + r.packets)[1..] == r.packets;
  }

  /** What the packets and the rest make up: the bytes received, or those before a bad start byte. */
  predicate Covers(s: seq<byte>, r: Parsed) {
    if r.rejected then r.rest == [] && |Concat(r.packets)| < |s| && s[..|Concat(r.packets)|] == Concat(r.packets) && s[|Concat(r.packets)|] != 42
    else s == Concat(r.packets) + r.rest
  }

  lemma CoversMore(s: seq<byte>, n: nat, r: Parsed, whole: Parsed)
    requires n <= |s| && Covers(s[n..], r)
    requires whole.rejected == r.rejected && whole.rest == r.rest && Concat(whole.packets) == s[..n] + Concat(r.packets)
    ensures Covers(s, whole)
  {
    var m := |Concat(r.packets)|;
    if r.rejected {
      assert s[n..][m] == s[n + m] && s[..n + m] == s[..n] + s[n..][..m];
    } else {
      assert s == s[..n] + s[n..];
      assert s[..n] + (Concat(r.packets) + r.rest) == s[..n] + Concat(r.packets) + r.rest;
    }
  }

  lemma {:induction false} SplitCovers(s: seq<byte>)
    ensures Covers(s, Split(FlapCut, s))
    decreases |s|
  {
    if s != [] && FlapCut(s).Take? {
      hide Covers, Split, Concat;
      FlapTaken(s);
      SplitCovers(s[FlapCut(s).n..]);
      CoversMore(s, FlapCut(s).n, Split(FlapCut, s[FlapCut(s).n..]), Split(FlapCut, s));
    } else {
      hide Unpack16;
    }
  }

  /** Where the first bad start byte stands. */
  function BadStart(s: seq<byte>): (p: nat)
    requires Split(FlapCut, s).rejected
    ensures p < |s| && s[p] != 42
  {
    SplitCovers(s);
    |Concat(Split(FlapCut, s).packets)|
  }

  lemma CutOfPrefix(s: seq<byte>, q: nat)
    requires s != [] && FlapCut(s).Take? && FlapCut(s).n <= q <= |s|
    ensures FlapCut(s[..q]) == FlapCut(s)
  {
    assert s[..q][4..6] == s[4..6];
    hide Unpack16;
  }

  /** All that comes after the bad byte is lost with it. */
  lemma {:induction false} PrefixRejected(s: seq<byte>, q: nat)
    requires Split(FlapCut, s).rejected && BadStart(s) < q <= |s|
    ensures Split(FlapCut, s[..q]) == Split(FlapCut, s)
    decreases |s|
  {
    hide Unpack16;
    if FlapCut(s).Take? {
      var n := FlapCut(s).n;
      FlapTaken(s);
      CutOfPrefix(s, q);
      PrefixRejected(s[n..], q - n);
      FlapTaken(s[..q]);
      assert s[..q][n..] == s[n..][..q - n] && s[..q][..n] == s[..n];
    }
  }

  predicate NoStart(s: seq<byte>) { forall i :: 0 <= i < |s| ==> s[i] != 42 }

  lemma {:induction false} ReceiveSilence(chunks: seq<seq<byte>>)
    requires NoStart(Concat(chunks))
    ensures Receive(FlapCut, [], chunks).packets == [] && Receive(FlapCut, [], chunks).rest == []
    decreases |chunks|
  {
    if chunks != [] {
      var c, more := chunks[0], Concat(chunks[1..]);
      assert Concat(chunks) == c + more && [] + c == c;
      assert NoStart(c) by { forall i | 0 <= i < |c| ensures c[i] != 42 { assert (c + more)[i] == c[i]; } }
      assert NoStart(more) by { forall i | 0 <= i < |more| ensures more[i] != 42 { assert (c + more)[|c| + i] == more[i]; } }
      ReceiveSilence(chunks[1..]);
      assert Split(FlapCut, c).packets == [] && Split(FlapCut, c).rest == [];
    }
  }

  /** No byte 42 comes after the first bad start byte. */
  predicate NoStartAfterBad(s: seq<byte>)
    requires Split(FlapCut, s).rejected
  {
    NoStart(s[BadStart(s) + 1..])
  }

  /** The last part of a stream whose bad start byte has arrived. */
  lemma ReceiveBad(buf: seq<byte>, chunks: seq<seq<byte>>)
    requires chunks != [] && Split(FlapCut, buf + chunks[0]).rejected
    requires var s := buf + Concat(chunks); Split(FlapCut, s).rejected && NoStartAfterBad(s)
    ensures Receive(FlapCut, buf, chunks) == Split(FlapCut, buf + Concat(chunks))
  {
    hide FlapCut, Split, Stable, NoStart, NoStartAfterBad;
    var a, more := buf + chunks[0], Concat(chunks[1..]);
    assert buf + Concat(chunks) == a + more;
    FlapCutStable();
    SplitCovers(a);
    RejectedStays(FlapCut, a, more);
    TailIsSilent(a, more);
    ReceiveSilence(chunks[1..]);
  }

  lemma {:induction false} ReceiveRejected(buf: seq<byte>, chunks: seq<seq<byte>>)
    requires Split(FlapCut, buf) == Parsed([], buf, false)
    requires var s := buf + Concat(chunks); Split(FlapCut, s).rejected && NoStartAfterBad(s)
    ensures Receive(FlapCut, buf, chunks) == Split(FlapCut, buf + Concat(chunks))
    decreases |chunks|
  {
    hide FlapCut, Split, Stable, NoStart, NoStartAfterBad;
    ConcatNone(buf);
    if chunks == [] {
      assert false;
    } else if Split(FlapCut, buf + chunks[0]).rejected {
      ReceiveBad(buf, chunks);
    } else {
      var a, more := buf + chunks[0], Concat(chunks[1..]);
      assert buf + Concat(chunks) == a + more;
      FlapCutStable();
      SplitAppend(FlapCut, a, more);
      SplitNothingMore(FlapCut, a);
      BadStartShifts(a, more);
      ReceiveRejected(Split(FlapCut, a).rest, chunks[1..]);
    }
  }

  lemma TailIsSilent(a: seq<byte>, more: seq<byte>)
    requires Split(FlapCut, a).rejected && Split(FlapCut, a + more) == Split(FlapCut, a) && NoStartAfterBad(a + more)
    ensures NoStart(more)
  {
    var p, s := BadStart(a), a + more;
    assert BadStart(s) == p;
    forall i | 0 <= i < |more| ensures more[i] != 42 {
      assert s[p + 1..][|a| + i - p - 1] == more[i];
    }
  }

  lemma BadStartShifts(a: seq<byte>, more: seq<byte>)
    requires !Split(FlapCut, a).rejected && Split(FlapCut, a + more).rejected && NoStartAfterBad(a + more)
    requires var first := Split(FlapCut, a); var second := Split(FlapCut, first.rest + more);
      Split(FlapCut, a + more) == second.(packets := first.packets + second.packets)
    ensures var t := Split(FlapCut, a).rest + more; Split(FlapCut, t).rejected && NoStartAfterBad(t)
  {
    hide FlapCut, Split, Concat, NoStart;
    var first := Split(FlapCut, a);
    var t, s, n := first.rest + more, a + more, |Concat(first.packets)|;
    ConcatAppend(first.packets, Split(FlapCut, t).packets);
    SplitCovers(a);
    assert s[n..] == t;
    assert BadStart(s) == n + BadStart(t);
    assert s[BadStart(s) + 1..] == t[BadStart(t) + 1..];
  }

  /** However the stream is split, the packets and the rest are those of the stream parsed whole. */
  ghost predicate Invisible(s: seq<byte>) {
    forall chunks :: Concat(chunks) == s ==> Receive(FlapCut, [], chunks) == Split(FlapCut, s)
  }

  lemma ReceiveTwo(a: seq<byte>, b: seq<byte>)
    ensures Concat([a, b]) == a + b
    ensures var first := Split(FlapCut, a); var later := Split(FlapCut, first.rest + b);
      Receive(FlapCut, [], [a, b]) == Parsed(first.packets + later.packets, later.rest, first.rejected || later.rejected)
  {
    hide FlapCut, Split;
    var none: seq<seq<byte>> := [];
    assert [a, b][1..] == [b] && [b][1..] == none && b + Concat(none) == b && [] + a == a;
    var later := Split(FlapCut, Split(FlapCut, a).rest + b);
    assert later.packets + none == later.packets;
    assert Receive(FlapCut, Split(FlapCut, a).rest, [b]) == Parsed(later.packets, later.rest, later.rejected) by {
      assert Receive(FlapCut, later.rest, none) == Parsed(none, later.rest, false);
    }
  }

  lemma LaterStartDiffers(s: seq<byte>, q: nat)
    requires Split(FlapCut, s).rejected && BadStart(s) < q < |s| && s[q] == 42
    ensures Receive(FlapCut, [], [s[..q], s[q..]]) != Split(FlapCut, s)
  {
    hide FlapCut, Split, Receive, Concat, NoStart;
    var a, b := s[..q], s[q..];
    assert [] + b == b && b[0] == 42;
    PrefixRejected(s, q);
    SplitCovers(s);
    StartIsNotLost(b);
    ReceiveTwo(a, b);
    var p := Split(FlapCut, b).packets;
    assert |Split(FlapCut, a).packets + p| == |Split(FlapCut, a).packets| + |p|;
  }

  lemma LaterStartShows(s: seq<byte>, q: nat)
    requires Split(FlapCut, s).rejected && BadStart(s) < q < |s| && s[q] == 42
    ensures !Invisible(s)
  {
    hide FlapCut, Split, Receive, Concat, BadStart;
    assert s[..q] + s[q..] == s;
    ReceiveTwo(s[..q], s[q..]);
    LaterStartDiffers(s, q);
  }

  lemma StartIsNotLost(b: seq<byte>)
    requires b != [] && b[0] == 42
    ensures Split(FlapCut, b).packets != [] || Split(FlapCut, b).rest != []
  {
    hide Unpack16;
  }

  /** Chunking shows exactly in a stream with a bad start byte and a byte 42 somewhere after the first one. */
  lemma InvisibleIff(s: seq<byte>)
    ensures Invisible(s) <==> !Split(FlapCut, s).rejected || NoStartAfterBad(s)
  {
    FlapCutStable();
    if !Split(FlapCut, s).rejected {
      forall chunks | Concat(chunks) == s ensures Receive(FlapCut, [], chunks) == Split(FlapCut, s) {
        ChunkingIsInvisible(FlapCut, chunks);
      }
    } else if NoStartAfterBad(s) {
      forall chunks | Concat(chunks) == s ensures Receive(FlapCut, [], chunks) == Split(FlapCut, s) {
        assert [] + Concat(chunks) == s;
        ReceiveRejected([], chunks);
      }
    } else {
      var i :| 0 <= i < |s[BadStart(s) + 1..]| && s[BadStart(s) + 1..][i] == 42;
      LaterStartShows(s, BadStart(s) + 1 + i);
    }
  }

  /** The shortest such stream: what arrives with the bad byte is lost and what arrives after it is parsed. */
  lemma BadStartByteIsVisible()
    ensures var flap := EncodeFlap(4, 0, []);
      Receive(FlapCut, [], [[0] + flap]).packets != Receive(FlapCut, [], [[0], flap]).packets
  {
    var flap := EncodeFlap(4, 0, []);
    FlapIsPacketIff(4, 0, []);
    FlapCutStable();
    SplitPackets(FlapCut, [flap], []);
    assert Concat([flap]) + [] == flap && [] + flap == flap && [] + [0] == [0];
    assert [] + ([0] + flap) == [0] + flap;
    assert Receive(FlapCut, [], [[0] + flap]).packets == [];
    var later := Receive(FlapCut, [], [flap]);
    assert Split(FlapCut, [0]) == Parsed([], [], true);
    assert [[0], flap][1..] == [flap];
    assert later.packets == [flap] + Receive(FlapCut, [], []).packets;
  }
}
