/** Resuming a file in the middle (src/FileTransferClient.cpp:645-681): the receiver may ask for the open file from any
    position on, and gets exactly the rest of it. */
module FileTransferResume {
  import opened Buffers
  import opened FileTransfer

  /** An active sender with a file open. */
  predicate Sending(p: Peer) { p.status == Active && !p.msgqueue && p.good && p.size == |p.fin| }

  /** Where the chunk that begins at n ends. */
  function ChunkTo(p: Peer, n: nat): (m: nat)
    requires n <= |p.fin|
    ensures n <= m <= |p.fin|
  {
    if |p.fin| - n < 2048 then |p.fin| else n + 2048
  }

  /** The bytes of the chunks in a log. */
  function Data(out: seq<Packet>): seq<byte> {
    if out == [] then []
    else Data(out[..|out| - 1]) + if out[|out| - 1].P6? then out[|out| - 1].data else []
  }

  /** The state after k write-ready events. */
  function Writes(p: Peer, k: nat): Peer
    decreases k
  {
    if k == 0 then p else SendFile(Writes(p, k - 1))
  }

  /** A resume packet for position n sends the chunk of the open file that begins there, and more is to come unless the
      file ends with it; a position behind the end of the file is an error, and nothing is sent. */
  lemma ResumeSendsChunk(p: Peer, n: uint, speed: uint, k: uint)
    requires Sending(p)
    ensures var t := Handle(p, P3(n, speed, k));
      if n > |p.fin| then t.status == Error && t.out == p.out
      else
        var m := ChunkTo(p, n);
        && t.out == p.out + [P6(p.fin[n..m])] && t.pos == t.finPos == m && t.curr == k
        && t.more == (m < |p.fin|) && t.totpos == U32(U32(p.totpos + n) + m - n)
        && t.status == (if m == |p.fin| && p.queue == [] then Complete else Active)
        && t.fin == p.fin && t.size == p.size && t.queue == p.queue && t.cont && !t.msgqueue && t.good == (|p.fin| - n >= 2048)
  {
  }

  /** The file is open at this position, with what was sent from position n on. */
  ghost predicate At(t: Peer, p: Peer, n: nat) {
    && n <= t.pos == t.finPos <= |p.fin| && t.fin == p.fin && t.size == |p.fin| && t.queue == p.queue
    && t.cont && !t.msgqueue && (t.more ==> t.good) && t.more == (t.pos < |p.fin|)
    && t.status == (if !t.more && p.queue == [] then Complete else Active)
  }

  /** The log has grown by chunks only, which hold these bytes. */
  ghost predicate Added(before: seq<Packet>, out: seq<Packet>, data: seq<byte>) {
    && |before| <= |out| && out[..|before|] == before
    && (forall i :: |before| <= i < |out| ==> out[i].P6?)
    && Data(out[|before|..]) == data
  }

  /** On its way through the file from position n on. */
  ghost predicate Underway(t: Peer, p: Peer, n: nat) { At(t, p, n) && Added(p.out, t.out, p.fin[n..t.pos]) }

  lemma DataSnoc(out: seq<Packet>, m: Packet)
    ensures Data(out + [m]) == Data(out) + if m.P6? then m.data else []
  {
    assert (out + [m])[..|out|] == out;
  }

  lemma AddedSnoc(before: seq<Packet>, out: seq<Packet>, data: seq<byte>, more: seq<byte>)
    requires Added(before, out, data)
    ensures Added(before, out + [P6(more)], data + more)
  {
    assert (out + [P6(more)])[|before|..] == out[|before|..] + [P6(more)];
    DataSnoc(out[|before|..], P6(more));
    hide Data;
  }

  lemma WriteSendsChunk(t: Peer, p: Peer, n: nat)
    requires At(t, p, n) && t.more
    ensures var u, m := SendFile(t), ChunkTo(p, t.pos);
      At(u, p, n) && u.pos == m > t.pos && u.out == t.out + [P6(p.fin[t.pos..m])]
  {
  }

  /** One more write-ready event sends the next chunk. */
  lemma WriteGoesOn(t: Peer, p: Peer, n: nat)
    requires Underway(t, p, n) && t.more
    ensures var u := SendFile(t); Underway(u, p, n) && u.pos == ChunkTo(p, t.pos) > t.pos
  {
    hide SendFile, Added;
    WriteSendsChunk(t, p, n);
    var m := ChunkTo(p, t.pos);
    AddedSnoc(p.out, t.out, p.fin[n..t.pos], p.fin[t.pos..m]);
    assert p.fin[n..t.pos] + p.fin[t.pos..m] == p.fin[n..m];
  }

  /** There was more to send after each of these write-ready events but the last. */
  ghost predicate MoreUntil(t: Peer, k: nat) { forall j: nat :: j < k ==> Writes(t, j).more }

  lemma {:induction false} WritesToTheEnd(t: Peer, done: nat, p: Peer, n: nat) returns (k: nat)
    requires Underway(Writes(t, done), p, n)
    requires MoreUntil(t, done)
    ensures Underway(Writes(t, k), p, n) && !Writes(t, k).more && MoreUntil(t, k)
    decreases |p.fin| - Writes(t, done).pos
  {
    hide Underway, SendFile;
    var u := Writes(t, done);
    if u.more {
      WriteGoesOn(u, p, n);
      assert Writes(t, done + 1) == SendFile(u);
      UnderwayBounds(SendFile(u), p, n);
      k := WritesToTheEnd(t, done + 1, p, n);
    } else {
      k := done;
    }
  }

  lemma UnderwayBounds(t: Peer, p: Peer, n: nat)
    requires Underway(t, p, n)
    ensures n <= t.pos <= |p.fin|
  {
  }

  lemma UnderwayEnds(t: Peer, p: Peer, n: nat)
    requires Underway(t, p, n) && !t.more
    ensures n <= |p.fin| && Added(p.out, t.out, p.fin[n..]) && t.status == (if p.queue == [] then Complete else Active)
  {
    hide Added;
    assert p.fin[n..|p.fin|] == p.fin[n..];
  }

  lemma ResumeGetsUnderway(p: Peer, n: uint, speed: uint, k: uint)
    requires Sending(p) && n <= |p.fin|
    ensures Underway(Handle(p, P3(n, speed, k)), p, n)
  {
    ResumeSendsChunk(p, n, speed, k);
    hide Handle, Added;
    var m, none := ChunkTo(p, n), [];
    NothingAdded(p.out);
    AddedSnoc(p.out, p.out, none, p.fin[n..m]);
    assert none + p.fin[n..m] == p.fin[n..m];
  }

  lemma NothingAdded(out: seq<Packet>)
    ensures Added(out, out, [])
  {
  }

  /** The write-ready events that follow a resume packet, as long as there is more to send, send the rest of the file:
      the chunks, that of the reply included, are exactly its bytes from the position asked for on. */
  lemma ResumeSendsRest(p: Peer, n: uint, speed: uint, nfile: uint) returns (k: nat)
    requires Sending(p) && n <= |p.fin|
    ensures var t := Handle(p, P3(n, speed, nfile));
      && MoreUntil(t, k) && !Writes(t, k).more
      && Added(p.out, Writes(t, k).out, p.fin[n..])
      && Writes(t, k).status == (if p.queue == [] then Complete else Active)
  {
    ResumeGetsUnderway(p, n, speed, nfile);
    hide Handle, Added, SendFile, Underway;
    var t := Handle(p, P3(n, speed, nfile));
    assert Writes(t, 0) == t && MoreUntil(t, 0);
    hide MoreUntil, Writes;
    k := WritesToTheEnd(t, 0, p, n);
    UnderwayEnds(Writes(t, k), p, n);
  }

  /** A file that has been read to its end cannot be resumed: the stream is spoiled by then, and nothing is sent. */
  lemma SpoiledStreamFails(p: Peer, n: uint, speed: uint, k: uint)
    requires !p.msgqueue && !p.good
    ensures var t := Handle(p, P3(n, speed, k)); t.status == Error && t.out == p.out
  {
  }

  /** The go-ahead of the other side finds no file to send, or opens the first one and announces it. */
  lemma GoAheadOpens(p: Peer, speed: uint)
    ensures var t := Handle(p, P1(speed));
      if p.queue == [] then t.status == Error && t.out == p.out
      else
        var f := p.queue[0];
        && t.fin == f && t.finPos == t.pos == 0 && t.good && t.size == |f| % 0x1_0000_0000 && t.queue == p.queue[1..]
        && t.curr == (p.curr + 1) % 0x1_0000_0000 && t.speed == speed && t.out == p.out + [P2(t.size, speed)]
  {
  }

  /** With all files sent a write-ready event completes the transfer. */
  lemma NothingLeftCompletes(p: Peer)
    requires !p.msgqueue && p.cont && !p.more && p.curr >= p.totalFiles
    ensures SendFile(p) == p.(status := Complete)
  {
  }

  /** The speed the sender opens with is the one all replies name. */
  lemma SpeedIsTakenOver(s: Peer, r: Peer, files: uint, total: uint, size: uint, speed: uint)
    requires s.msgqueue
    ensures SendFile(s).out == s.out + [P0(s.totalFiles, s.totalSize, s.speed)]
    ensures var t := Handle(r, P0(files, total, speed)); t.speed == speed && t.out == r.out + [P5(speed)] + [P1(speed)]
    ensures var t := Handle(r, P2(size, speed)); t.speed == speed && t.out == r.out + [P3(0, speed, t.curr)]
    ensures Handle(s, P5(speed)) == s.(speed := speed)
  {
  }
}
