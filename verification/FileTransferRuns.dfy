/** Whatever the order of write-ready events and packet arrivals, the receiver's files are a prefix of
    the sender's, the byte counts are right, and the transfer completes
    (src/FileTransferClient.cpp:137-165, 499-712, 749-941). */
module FileTransferRuns {
  import opened Buffers
  import opened FileTransfer

  // ------------------------------------------------------------------
  //  What a log of packets writes
  // ------------------------------------------------------------------

  function OneEffect(w: seq<File>, m: Packet): seq<File> {
    match m
    case P2(_, _) => w + [[]]
    case P6(data) => Append(w, data)
    case _ => w
  }

  function Effect(log: seq<Packet>): seq<File> {
    if log == [] then [] else OneEffect(Effect(log[..|log| - 1]), log[|log| - 1])
  }

  lemma EffectSnoc(log: seq<Packet>, m: Packet)
    ensures Effect(log + [m]) == OneEffect(Effect(log), m)
  {
    assert (log + [m])[..|log|] == log;
  }

  /** w holds whole files of v, in order, except that its last one may be cut short. */
  ghost predicate FilePrefix(w: seq<File>, v: seq<File>) {
    && |w| <= |v|
    && (forall i :: 0 <= i < |w| - 1 ==> w[i] == v[i])
    && (w != [] ==> w[|w| - 1] <= v[|w| - 1])
  }

  lemma {:induction false} EffectPrefix(log: seq<Packet>, n: nat)
    requires n <= |log|
    ensures FilePrefix(Effect(log[..n]), Effect(log))
  {
    if n < |log| {
      var init := log[..|log| - 1];
      EffectPrefix(init, n);
      assert init[..n] == log[..n];
    } else {
      assert log[..n] == log;
    }
  }

  lemma SumSnoc(fs: seq<File>, f: File)
    ensures Sum(fs + [f]) == Sum(fs) + |f|
  {
    assert (fs + [f])[..|fs|] == fs;
  }

  lemma SumAppend(fs: seq<File>, data: seq<byte>)
    requires fs != []
    ensures Sum(Append(fs, data)) == Sum(fs) + |data|
  {
    var init := fs[..|fs| - 1];
    assert Append(fs, data)[..|fs| - 1] == init;
  }

  /** A proper prefix has fewer bytes, when the last file is not empty. */
  lemma {:induction false} PrefixBytes(w: seq<File>, v: seq<File>)
    requires FilePrefix(w, v)
    ensures Sum(w) <= Sum(v)
    ensures w == v || (v != [] && v[|v| - 1] != [] ==> Sum(w) < Sum(v))
    decreases |v|
  {
    if w == [] {
    } else if |w| == |v| {
      assert w[..|w| - 1] == v[..|v| - 1];
      if w[|w| - 1] == v[|w| - 1] {
        assert w == v;
      }
    } else {
      PrefixBytes(w, v[..|v| - 1]);
    }
  }

  lemma PrefixTransitive(u: seq<File>, v: seq<File>, w: seq<File>)
    requires FilePrefix(u, v) && FilePrefix(v, w)
    ensures FilePrefix(u, w)
  {
  }

  // ------------------------------------------------------------------
  //  The sender
  // ------------------------------------------------------------------

  /** What the sender has sent: whole files, then the start of the current one. */
  function SentFiles(s: Peer, fs: seq<File>): seq<File>
    requires 0 < s.curr <= |fs| && s.pos <= |fs[s.curr - 1]|
  {
    fs[..s.curr - 1] + [fs[s.curr - 1][..s.pos]]
  }

  /** The opening, the first file, its first chunk, then files and chunks. */
  ghost predicate LogOk(out: seq<Packet>, fs: seq<File>) {
    && (out != [] ==> out[0].P0? && out[0].files == |fs| && out[0].total == Sum(fs))
    && (|out| >= 2 ==> out[1].P2?)
    && (|out| >= 3 ==> out[2].P6?)
    && forall i :: 2 <= i < |out| ==> out[i].P2? || out[i].P6?
  }

  /** The open file and the counters, whatever the flags. */
  ghost predicate FileOk(s: Peer, fs: seq<File>) {
    && 0 < s.curr <= |fs| && s.queue == fs[s.curr..] && s.totalFiles == |fs| && s.totalSize == Sum(fs)
    && s.fin == fs[s.curr - 1] && s.size == |s.fin| && s.finPos == s.pos <= s.size
    && !s.msgqueue && |s.out| >= 2 && LogOk(s.out, fs)
    && Effect(s.out) == SentFiles(s, fs)
    && s.totpos == Sum(fs[..s.curr - 1]) + s.pos
  }

  ghost predicate SenderOk(s: Peer, fs: seq<File>) {
    if s.curr == 0 then
      && s.queue == fs && s.totalFiles == |fs| && s.totalSize == Sum(fs)
      && LogOk(s.out, fs) && s.totpos == 0 && !s.cont && s.status == Active
      && (if s.msgqueue then s.out == [] else |s.out| == 1)
    else
      && FileOk(s, fs) && s.status != Error && (|s.out| >= 3 <==> s.cont || s.curr > 1)
      && (!s.cont ==> s.pos == 0 && s.good)
      && (s.cont ==> (s.more <==> s.pos < s.size) && (s.more ==> s.good))
      && (s.status == Complete <==> s.cont && s.curr == |fs| && s.pos == s.size)
  }

  lemma OpeningWritesNothing(s: Peer, fs: seq<File>)
    requires SenderOk(s, fs) && s.curr == 0
    ensures Effect(s.out) == []
  {
    if s.out != [] { EffectSnoc([], s.out[0]); assert [] + [s.out[0]] == s.out; }
  }

  lemma LogGrows(out: seq<Packet>, fs: seq<File>, m: Packet)
    requires LogOk(out, fs) && out != []
    requires if |out| == 1 then m.P2? else if |out| == 2 then m.P6? else m.P2? || m.P6?
    ensures LogOk(out + [m], fs)
  {
  }

  lemma SumUpTo(fs: seq<File>, k: nat)
    requires k < |fs|
    ensures Sum(fs[..k]) + |fs[k]| == Sum(fs[..k + 1]) <= Sum(fs)
  {
    SumSnoc(fs[..k], fs[k]);
    assert fs[..k] + [fs[k]] == fs[..k + 1];
    PrefixBytes(fs[..k + 1], fs);
  }

  /** When the open file is all sent, whole files have been sent. */
  lemma FileDone(s: Peer, fs: seq<File>)
    requires FileOk(s, fs) && s.pos == s.size
    ensures Effect(s.out) == fs[..s.curr] && s.totpos == Sum(fs[..s.curr])
  {
    SumUpTo(fs, s.curr - 1);
    assert s.fin[..s.pos] == s.fin;
    assert fs[..s.curr - 1] + [s.fin] == fs[..s.curr];
  }

  lemma SentFilesPrefix(s: Peer, fs: seq<File>)
    requires 0 < s.curr <= |fs| && s.pos <= s.size == |fs[s.curr - 1]|
    ensures FilePrefix(SentFiles(s, fs), fs) && Sum(SentFiles(s, fs)) == Sum(fs[..s.curr - 1]) + s.pos
    ensures SentFiles(s, fs) == fs ==> s.curr == |fs| && s.pos == s.size
  {
    SumSnoc(fs[..s.curr - 1], fs[s.curr - 1][..s.pos]);
    hide Sum;
    assert |SentFiles(s, fs)| == s.curr && SentFiles(s, fs)[s.curr - 1] == fs[s.curr - 1][..s.pos];
  }

  lemma SentIsPrefix(s: Peer, fs: seq<File>)
    requires InRange(fs) && FileOk(s, fs)
    ensures FilePrefix(Effect(s.out), fs) && s.totpos == Sum(Effect(s.out))
    ensures s.curr == |fs| && s.pos == s.size ==> s.totpos == Sum(fs) && Effect(s.out) == fs
    ensures fs[|fs| - 1] != [] && s.totpos == Sum(fs) ==> s.curr == |fs| && s.pos == s.size
  {
    hide Effect, Sum, LogOk, FilePrefix, SentFiles;
    SentFilesPrefix(s, fs);
    PrefixBytes(SentFiles(s, fs), fs);
    if s.curr == |fs| && s.pos == s.size {
      FileDone(s, fs);
      assert fs[..s.curr] == fs;
    }
  }

  lemma OpensNext(s: Peer, fs: seq<File>)
    requires InRange(fs) && s.curr < |fs| && s.queue == fs[s.curr..] && |fs[s.curr]| < 0x1_0000_0000
    ensures var t := SendP2(s);
      && t == s.(queue := t.queue, fin := t.fin, finPos := 0, good := true,
                 curr := s.curr + 1, pos := 0, size := t.size, out := t.out)
      && t.queue == fs[t.curr..] && t.fin == fs[s.curr] && t.size == |t.fin|
      && t.out == s.out + [P2(|fs[s.curr]|, s.speed)]
  {
    assert s.queue[1..] == fs[s.curr + 1..];
  }

  /** What a sender has sent when it opens its next file. */
  lemma WholeSent(s: Peer, fs: seq<File>)
    requires InRange(fs) && SenderOk(s, fs) && s.status == Active
    requires if s.curr == 0 then !s.msgqueue else s.cont && !s.more
    ensures s.curr < |fs| && Effect(s.out) == fs[..s.curr] && s.totpos == Sum(fs[..s.curr])
    ensures LogOk(s.out, fs) && s.out != [] && |s.out| != 2 && !s.msgqueue
    ensures s.queue == fs[s.curr..] && s.totalFiles == |fs| && s.totalSize == Sum(fs)
  {
    if s.curr == 0 { OpeningWritesNothing(s, fs); } else { FileDone(s, fs); }
    hide Effect, Sum, LogOk, SentFiles;
  }

  lemma SendP2Keeps(s: Peer, fs: seq<File>)
    requires InRange(fs) && SenderOk(s, fs) && s.status == Active
    requires if s.curr == 0 then !s.msgqueue else s.cont && !s.more
    ensures s.curr < |fs|
    ensures var t := SendP2(s).(cont := false, more := false);
      SenderOk(t, fs) && t.curr == s.curr + 1 && t.out == s.out + [P2(|fs[s.curr]|, s.speed)]
  {
    WholeSent(s, fs);
    hide Effect, Sum, LogOk, SendP2;
    SumUpTo(fs, s.curr);
    OpensNext(s, fs);
    var m := P2(|fs[s.curr]|, s.speed);
    EffectSnoc(s.out, m);
    LogGrows(s.out, fs, m);
    var t := SendP2(s).(cont := false, more := false);
    assert t.fin[..0] == [];
    assert FileOk(t, fs);
  }

  lemma ChunkExtends(whole: seq<File>, f: File, i: nat, j: nat)
    requires i <= j <= |f|
    ensures Append(whole + [f[..i]], f[i..j]) == whole + [f[..j]]
  {
    assert f[..i] + f[i..j] == f[..j];
    assert (whole + [f[..i]])[..|whole|] == whole;
  }

  function ChunkEnd(s: Peer): nat { if s.size - s.pos < CHUNK then s.size else s.pos + CHUNK }

  lemma ReadsChunk(s: Peer)
    requires s.good && s.finPos == s.pos <= s.size == |s.fin| && s.totpos + s.size - s.pos < 0x1_0000_0000
    ensures var t := SendP6(s);
      && t == s.(finPos := t.pos, good := t.good, pos := t.pos, totpos := t.totpos,
                 out := t.out, more := t.more, status := t.status)
      && t.pos == ChunkEnd(s) && t.totpos == s.totpos + t.pos - s.pos && t.more == (t.pos < t.size) && (t.more ==> t.good)
      && t.status == (if !t.more && s.queue == [] then Complete else s.status)
      && t.out == s.out + [P6(s.fin[s.pos..t.pos])]
  {
  }

  lemma ChunkKeepsFile(s: Peer, fs: seq<File>, t: Peer)
    requires FileOk(s, fs) && s.pos <= t.pos <= s.size && t.totpos == s.totpos + t.pos - s.pos
    requires t == s.(finPos := t.pos, good := t.good, pos := t.pos, totpos := t.totpos,
                     out := s.out + [P6(s.fin[s.pos..t.pos])], more := t.more, status := t.status)
    ensures FileOk(t, fs)
  {
    var m := P6(s.fin[s.pos..t.pos]);
    hide Effect, Sum, LogOk, Append;
    EffectSnoc(s.out, m);
    LogGrows(s.out, fs, m);
    ChunkExtends(fs[..s.curr - 1], s.fin, s.pos, t.pos);
  }

  /** A file of any length goes out a chunk at a time; an empty one as one empty chunk. */
  lemma SendP6Keeps(s: Peer, fs: seq<File>)
    requires InRange(fs) && FileOk(s, fs) && s.status == Active && s.good && s.cont && s.more
    requires s.pos < s.size || s.size == 0
    ensures var t := SendP6(s);
      && SenderOk(t, fs) && t.cont && t.curr == s.curr && t.pos == ChunkEnd(s)
      && t.out == s.out + [P6(s.fin[s.pos..t.pos])]
  {
    SumUpTo(fs, s.curr - 1);
    ReadsChunk(s);
    hide SendP6, Sum, LogOk, Effect, SentFiles;
    var t := SendP6(s);
    ChunkKeepsFile(s, fs, t);
    assert s.queue == [] <==> s.curr == |fs|;
    hide FileOk;
  }

  // ------------------------------------------------------------------
  //  How many packets the sender still has to send
  // ------------------------------------------------------------------

  function Chunks(n: nat): nat { if n == 0 then 1 else (n + CHUNK - 1) / CHUNK }

  function QueueWork(queue: seq<File>): nat {
    if queue == [] then 0 else 1 + Chunks(|queue[0]|) + QueueWork(queue[1..])
  }

  function OpenWork(s: Peer): nat {
    if s.curr == 0 || s.pos > s.size || (s.cont && !s.more) then 0 else Chunks(s.size - s.pos)
  }

  function PacketsLeft(s: Peer): nat {
    (if s.msgqueue then 1 else 0) + QueueWork(s.queue) + OpenWork(s)
  }

  /** One more packet is out, and one fewer is left. */
  ghost predicate Sent(s: Peer, t: Peer) {
    |t.out| == |s.out| + 1 && t.out[..|s.out|] == s.out && PacketsLeft(t) + 1 == PacketsLeft(s)
  }

  lemma SendP2Counts(s: Peer, fs: seq<File>)
    requires InRange(fs) && SenderOk(s, fs) && s.status == Active
    requires if s.curr == 0 then !s.msgqueue else s.cont && !s.more
    ensures Sent(s, SendP2(s).(cont := false, more := false))
  {
    SendP2Keeps(s, fs);
    SumUpTo(fs, s.curr);
    OpensNext(s, fs);
    hide SendP2, LogOk, Effect, Sum;
  }

  lemma SendP6Counts(s: Peer, fs: seq<File>)
    requires InRange(fs) && FileOk(s, fs) && s.status == Active && s.good && s.cont && s.more
    requires s.pos < s.size || s.size == 0
    ensures Sent(s, SendP6(s))
  {
    SendP6Keeps(s, fs);
    var t := SendP6(s);
    assert t.queue == s.queue && t.msgqueue == s.msgqueue && t.size == s.size;
    hide SendP6, LogOk, Effect, Sum;
  }

  // ------------------------------------------------------------------
  //  The sender's steps
  // ------------------------------------------------------------------

  /** The sender waits for the other side: for its go-ahead, or for a resume packet. */
  predicate Waiting(s: Peer) { !s.msgqueue && !s.cont }

  lemma WriteKeeps(s: Peer, fs: seq<File>)
    requires InRange(fs) && SenderOk(s, fs) && s.status == Active
    ensures var t := SendFile(s);
      && SenderOk(t, fs)
      && (if Waiting(s) then t == s else Sent(s, t))
      && ((t.curr == s.curr && t.cont == s.cont) || (t.curr == s.curr + 1 && s.curr > 0 && s.cont && !t.cont))
  {
    var t := SendFile(s);
    if s.msgqueue {
      assert LogOk(t.out, fs);
    } else if s.cont {
      assert s.curr > 0 && FileOk(s, fs);
      if s.more {
        SendP6Keeps(s, fs);
        SendP6Counts(s, fs);
      } else {
        SendP2Keeps(s, fs);
        SendP2Counts(s, fs);
      }
    }
  }

  lemma GoAheadKeeps(s: Peer, fs: seq<File>, speed: uint)
    requires InRange(fs) && SenderOk(s, fs) && s.status == Active && s.curr == 0 && !s.msgqueue
    ensures var t := Handle(s, P1(speed)); SenderOk(t, fs) && Sent(s, t) && t.curr == 1 && !t.cont
  {
    var s1 := s.(speed := speed);
    SendP2Keeps(s1, fs);
    SendP2Counts(s1, fs);
    var t, u := SendP2(s1), SendP2(s1).(cont := false, more := false);
    assert t == u.(more := t.more) by { SumUpTo(fs, 0); OpensNext(s1, fs); }
    assert t.out == u.out && t.curr == 1 && FileOk(u, fs);
  }

  function Resumed(s: Peer): Peer { s.(finPos := 0, more := true, cont := true) }

  lemma ResumeIsChunk(s: Peer, speed: uint)
    requires !s.msgqueue && s.pos == 0 && s.status != Error
    ensures Handle(s, P3(0, speed, s.curr)) == SendP6(Resumed(s))
  {
    hide SendP6;
  }

  lemma ResumeKeeps(s: Peer, fs: seq<File>, speed: uint)
    requires InRange(fs) && SenderOk(s, fs) && s.status == Active && 0 < s.curr && !s.cont
    ensures var t := Handle(s, P3(0, speed, s.curr)); SenderOk(t, fs) && Sent(s, t) && t.curr == s.curr && t.cont
  {
    ResumeIsChunk(s, speed);
    assert FileOk(Resumed(s), fs);
    SendP6Keeps(Resumed(s), fs);
    SendP6Counts(Resumed(s), fs);
    hide SendP6, Handle, FileOk, Effect, Sum, LogOk, Chunks, QueueWork;
  }

  // ------------------------------------------------------------------
  //  The whole system
  // ------------------------------------------------------------------

  ghost predicate HasChunk(log: seq<Packet>) { exists i :: 0 <= i < |log| && log[i].P6? }

  /** The receiver of this log is complete: the last chunk it read, if only an empty one, found the total reached. */
  ghost predicate Done(log: seq<Packet>, fs: seq<File>) { HasChunk(log) && Sum(Effect(log)) == Sum(fs) }

  /** The receiver was not complete before any of the first n packets. */
  ghost predicate NotDoneBefore(out: seq<Packet>, n: nat, fs: seq<File>)
    requires n <= |out|
  {
    forall k :: 0 <= k < n ==> !Done(out[..k], fs)
  }

  ghost predicate ReceiverOk(s: Peer, r: Peer, readR: nat, fs: seq<File>) {
    && r.status != Error && !r.msgqueue && !r.cont
    && readR <= |s.out|
    && r.written == Effect(s.out[..readR])
    && r.curr == |r.written| && r.totpos == Sum(r.written)
    && (readR > 0 ==> r.totalSize == Sum(fs) && r.totalFiles == |fs|)
    && (r.status == Complete <==> Done(s.out[..readR], fs))
    && NotDoneBefore(s.out, readR, fs)
  }

  /** The replies: speed, go-ahead, then one resume packet a file. */
  ghost predicate RepliesOk(q: seq<Packet>, started: bool, curr: uint) {
    && |q| == (if started then 2 + curr else 0)
    && (|q| >= 2 ==> q[0].P5? && q[1].P1?)
    && forall j :: 2 <= j < |q| ==> q[j].P3? && q[j].pos == 0 && q[j].nfiles == j - 1
  }

  /** How far the sender has read the replies. */
  predicate ReadingOk(s: Peer, readS: nat, q: seq<Packet>) {
    && readS <= |q|
    && (if s.curr == 0 then readS <= 1 else readS == s.curr + if s.cont then 2 else 1)
  }

  ghost predicate Inv(y: Sys, fs: seq<File>) {
    && InRange(fs) && SenderOk(y.s, fs) && ReceiverOk(y.s, y.r, y.readR, fs)
    && RepliesOk(y.r.out, y.readR > 0, y.r.curr) && ReadingOk(y.s, y.readS, y.r.out)
  }

  lemma StartInv(fs: seq<File>, speed: uint, offered: uint)
    requires InRange(fs)
    ensures Inv(Start(fs, speed, offered), fs)
  {
  }

  /** The receiver's files are a prefix of the sender's, with no more bytes than were sent. */
  lemma ReceivedIsPrefix(y: Sys, fs: seq<File>)
    requires Inv(y, fs)
    ensures FilePrefix(y.r.written, Effect(y.s.out)) && FilePrefix(Effect(y.s.out), fs)
    ensures FilePrefix(y.r.written, fs)
    ensures y.s.totpos == Sum(Effect(y.s.out)) && |Effect(y.s.out)| == y.s.curr
    ensures y.r.totpos == Sum(y.r.written) <= y.s.totpos <= Sum(fs)
    ensures fs[|fs| - 1] != [] && y.r.totpos == Sum(fs) ==> y.r.written == fs
  {
    EffectPrefix(y.s.out, y.readR);
    if y.s.curr == 0 { OpeningWritesNothing(y.s, fs); } else { SentIsPrefix(y.s, fs); }
    PrefixTransitive(y.r.written, Effect(y.s.out), fs);
    PrefixBytes(y.r.written, Effect(y.s.out));
    PrefixBytes(Effect(y.s.out), fs);
    PrefixBytes(y.r.written, fs);
  }

  // ------------------------------------------------------------------
  //  Every step keeps the invariant and, unless it does nothing, uses up some work
  // ------------------------------------------------------------------

  /** Four for a packet still to be sent, three for one not yet received, one for a reply not yet read. */
  function Work(y: Sys): int {
    4 * PacketsLeft(y.s) + 3 * (|y.s.out| - y.readR) + |y.r.out| - y.readS
  }

  lemma MoreIsSent(s: Peer, t: Peer, r: Peer, readR: nat, fs: seq<File>)
    requires ReceiverOk(s, r, readR, fs) && |s.out| <= |t.out| && t.out[..|s.out|] == s.out
    ensures ReceiverOk(t, r, readR, fs)
  {
    hide Done, Effect, Sum;
    forall n | 0 <= n <= readR ensures t.out[..n] == s.out[..n] {}
  }

  lemma SenderSends(y: Sys, fs: seq<File>, t: Peer, readS: nat)
    requires Inv(y, fs) && SenderOk(t, fs) && Sent(y.s, t) && ReadingOk(t, readS, y.r.out) && readS >= y.readS
    ensures Inv(y.(s := t, readS := readS), fs) && Work(y.(s := t, readS := readS)) < Work(y)
  {
    MoreIsSent(y.s, t, y.r, y.readR, fs);
    hide SenderOk, ReceiverOk, RepliesOk, PacketsLeft, Effect, Sum;
  }

  lemma WriteReadyKeeps(y: Sys, fs: seq<File>)
    requires Inv(y, fs) && Enabled(y, WriteReady)
    ensures var z := Next(y, WriteReady); Inv(z, fs) && if Waiting(y.s) then z == y else Work(z) < Work(y)
  {
    WriteKeeps(y.s, fs);
    if !Waiting(y.s) {
      hide SendFile, SenderOk, ReceiverOk, RepliesOk, Sent;
      SenderSends(y, fs, SendFile(y.s), y.readS);
    }
  }

  lemma SenderReadsKeeps(y: Sys, fs: seq<File>)
    requires Inv(y, fs) && Enabled(y, SenderReads)
    ensures var z := Next(y, SenderReads); Inv(z, fs) && Work(z) < Work(y)
    ensures var m := y.r.out[y.readS]; m.P3? ==> m.nfiles == y.s.curr && m.pos == 0
  {
    var m := y.r.out[y.readS];
    ReceivedIsPrefix(y, fs);
    if y.s.curr == 0 {
      if y.readS == 0 {
        assert y.r.out[0].P5?;
      } else {
        assert !y.s.msgqueue;
        GoAheadKeeps(y.s, fs, m.speed);
        SenderSends(y, fs, Handle(y.s, m), y.readS + 1);
      }
    } else {
      assert !y.s.cont && m == P3(0, m.speed, y.s.curr);
      ResumeKeeps(y.s, fs, m.speed);
      SenderSends(y, fs, Handle(y.s, m), y.readS + 1);
    }
  }

  lemma AnnouncedFirst(out: seq<Packet>, n: nat, fs: seq<File>)
    requires LogOk(out, fs) && 2 <= n <= |out|
    ensures Effect(out[..n]) != []
  {
    EffectPrefix(out[..n], 2);
    assert out[..n][..2] == out[..1] + [out[1]];
    EffectSnoc(out[..1], out[1]);
  }

  lemma InvLog(y: Sys, fs: seq<File>)
    requires Inv(y, fs)
    ensures LogOk(y.s.out, fs) && y.readR <= |y.s.out| && y.r.written == Effect(y.s.out[..y.readR])
    ensures FilePrefix(Effect(y.s.out), fs)
  {
    ReceivedIsPrefix(y, fs);
  }

  lemma ChunkIsThird(out: seq<Packet>, n: nat, fs: seq<File>)
    requires LogOk(out, fs) && n < |out| && out[n].P6?
    ensures n >= 2
  {
  }

  /** What the packet after a prefix of the log writes. */
  lemma NextEffect(out: seq<Packet>, n: nat, fs: seq<File>)
    requires n < |out| && FilePrefix(Effect(out), fs)
    ensures Effect(out[..n + 1]) == OneEffect(Effect(out[..n]), out[n])
    ensures FilePrefix(Effect(out[..n + 1]), fs) && Sum(Effect(out[..n + 1])) <= Sum(fs)
  {
    assert out[..n + 1] == out[..n] + [out[n]];
    EffectSnoc(out[..n], out[n]);
    EffectPrefix(out, n + 1);
    PrefixTransitive(Effect(out[..n + 1]), Effect(out), fs);
    PrefixBytes(Effect(out[..n + 1]), fs);
  }

  ghost predicate Counted(r: Peer) { r.curr == |r.written| && r.totpos == Sum(r.written) && RepliesOk(r.out, true, r.curr) }

  /** A file announcement opens a file, and its number goes back in the reply. */
  lemma ReceiverOpens(r: Peer, size: uint, speed: uint)
    requires Counted(r) && |r.written| < 0x1_0000_0000 - 1
    ensures var t := Handle(r, P2(size, speed));
      && t == r.(written := r.written + [[]], curr := r.curr + 1, pos := 0, speed := speed, size := size, out := t.out)
      && |t.out| == |r.out| + 1 && Counted(t)
  {
    SumSnoc(r.written, []);
    hide Sum, SendFile, SendP2;
  }

  /** A chunk is appended to the open file; the last byte completes the transfer. */
  lemma ReceiverWrites(r: Peer, data: seq<byte>)
    requires Counted(r) && r.written != [] && Sum(r.written) + |data| <= r.totalSize
    ensures var t := ParseP6(r, data);
      && t.written == Append(r.written, data) && |t.written| == |r.written|
      && t.totpos == r.totpos + |data| == Sum(t.written)
      && t.curr == r.curr && t.out == r.out && t.totalSize == r.totalSize && t.totalFiles == r.totalFiles
      && t.msgqueue == r.msgqueue && t.cont == r.cont
      && t.status == (if t.totpos == r.totalSize then Complete else r.status)
  {
    SumAppend(r.written, data);
    var w := Append(r.written, data);
    assert |w| == |r.written|;
    hide Sum, RepliesOk, Append;
  }

  lemma ReceiverGot(y: Sys, fs: seq<File>, t: Peer)
    requires Inv(y, fs) && y.readR < |y.s.out| && ReceiverOk(y.s, t, y.readR + 1, fs) && RepliesOk(t.out, true, t.curr)
    requires |y.r.out| <= |t.out| <= |y.r.out| + 2
    ensures var z := y.(r := t, readR := y.readR + 1); Inv(z, fs) && Work(z) < Work(y)
  {
    hide SenderOk, ReceiverOk, RepliesOk, PacketsLeft;
  }

  lemma ReceiverStarts(y: Sys, fs: seq<File>)
    requires Inv(y, fs) && Enabled(y, ReceiverReads) && y.readR == 0
    ensures var t := Handle(y.r, y.s.out[0]); ReceiverOk(y.s, t, 1, fs) && RepliesOk(t.out, true, t.curr)
    ensures var t := Handle(y.r, y.s.out[0]); |y.r.out| <= |t.out| <= |y.r.out| + 2
  {
    InvLog(y, fs);
    var m := y.s.out[0];
    assert y.s.out[..1] == [] + [m];
    EffectSnoc([], m);
    PrefixBytes([], fs);
    hide SenderOk, FilePrefix;
  }

  lemma OneMoreNotDone(out: seq<Packet>, n: nat, fs: seq<File>)
    requires n < |out| && NotDoneBefore(out, n, fs) && !Done(out[..n], fs)
    ensures NotDoneBefore(out, n + 1, fs)
  {
    hide Done;
  }

  lemma HasChunkSnoc(log: seq<Packet>, m: Packet)
    ensures HasChunk(log + [m]) <==> HasChunk(log) || m.P6?
  {
    if HasChunk(log) {
      var i :| 0 <= i < |log| && log[i].P6?;
      assert (log + [m])[i].P6?;
    }
    if m.P6? { assert (log + [m])[|log|].P6?; }
  }

  /** Opening a file does not complete anything, a chunk does when the total is reached. */
  lemma DoneNext(out: seq<Packet>, n: nat, fs: seq<File>)
    requires n < |out|
    ensures out[n].P2? ==> (Done(out[..n + 1], fs) <==> Done(out[..n], fs))
    ensures out[n].P6? ==> (Done(out[..n + 1], fs) <==> Sum(Effect(out[..n + 1])) == Sum(fs))
  {
    var log := out[..n];
    assert out[..n + 1] == log + [out[n]];
    EffectSnoc(log, out[n]);
    SumSnoc(Effect(log), []);
    HasChunkSnoc(log, out[n]);
    hide Effect, Sum, HasChunk, Append;
  }

  lemma FileFits(out: seq<Packet>, n: nat, fs: seq<File>)
    requires n < |out| && out[n].P2? && FilePrefix(Effect(out), fs)
    ensures Effect(out[..n + 1]) == Effect(out[..n]) + [[]] && Sum(Effect(out[..n + 1])) == Sum(Effect(out[..n]))
    ensures |Effect(out[..n])| + 1 <= |fs|
  {
    NextEffect(out, n, fs);
    SumSnoc(Effect(out[..n]), []);
    assert FilePrefix(Effect(out[..n]) + [[]], fs);
    hide Effect, Sum, FilePrefix;
  }

  lemma ReceiverOpensFile(s: Peer, r: Peer, readR: nat, fs: seq<File>)
    requires InRange(fs) && ReceiverOk(s, r, readR, fs) && RepliesOk(r.out, true, r.curr) && r.status == Active
    requires FilePrefix(Effect(s.out), fs) && 0 < readR < |s.out| && s.out[readR].P2?
    ensures var t := Handle(r, s.out[readR]);
      ReceiverOk(s, t, readR + 1, fs) && RepliesOk(t.out, true, t.curr) && |t.out| == |r.out| + 1
  {
    var m := s.out[readR];
    FileFits(s.out, readR, fs);
    ReceiverOpens(r, m.size, m.speed);
    DoneNext(s.out, readR, fs);
    OneMoreNotDone(s.out, readR, fs);
    hide Handle, RepliesOk, Effect, Sum, FilePrefix, Done, NotDoneBefore;
  }

  lemma ChunkFits(out: seq<Packet>, n: nat, fs: seq<File>)
    requires LogOk(out, fs) && n < |out| && out[n].P6? && FilePrefix(Effect(out), fs)
    ensures Effect(out[..n]) != [] && Sum(Effect(out[..n])) + |out[n].data| <= Sum(fs)
    ensures Effect(out[..n + 1]) == Append(Effect(out[..n]), out[n].data)
  {
    hide Effect, Sum, LogOk, FilePrefix, Append, HasChunk;
    ChunkIsThird(out, n, fs);
    NextEffect(out, n, fs);
    AnnouncedFirst(out, n, fs);
    var w, v := Effect(out[..n]), Effect(out[..n + 1]);
    assert v == Append(w, out[n].data);
    SumAppend(w, out[n].data);
  }

  lemma ReceiverWritesFile(s: Peer, r: Peer, readR: nat, fs: seq<File>)
    requires ReceiverOk(s, r, readR, fs) && RepliesOk(r.out, true, r.curr) && r.status == Active
    requires LogOk(s.out, fs) && FilePrefix(Effect(s.out), fs) && 0 < readR < |s.out| && s.out[readR].P6?
    ensures var t := ParseP6(r, s.out[readR].data); ReceiverOk(s, t, readR + 1, fs) && t.out == r.out && t.curr == r.curr
  {
    ChunkFits(s.out, readR, fs);
    DoneNext(s.out, readR, fs);
    OneMoreNotDone(s.out, readR, fs);
    hide ParseP6, RepliesOk, Effect, Sum, Append, LogOk, FilePrefix, Done, NotDoneBefore;
    ReceiverWrites(r, s.out[readR].data);
  }

  lemma LogKinds(out: seq<Packet>, n: nat, fs: seq<File>)
    requires LogOk(out, fs) && 0 < n < |out|
    ensures out[n].P2? || out[n].P6?
  {
  }

  lemma ReceiverReadsChunk(y: Sys, fs: seq<File>)
    requires Inv(y, fs) && Enabled(y, ReceiverReads) && y.readR > 0 && !y.s.out[y.readR].P2?
    ensures var t := Handle(y.r, y.s.out[y.readR]);
      ReceiverOk(y.s, t, y.readR + 1, fs) && RepliesOk(t.out, true, t.curr) && t.out == y.r.out
  {
    InvLog(y, fs);
    LogKinds(y.s.out, y.readR, fs);
    hide SenderOk, Effect, Sum, FilePrefix, LogOk, Done, NotDoneBefore, ParseP6, RepliesOk, ReceiverOk;
    ReceiverWritesFile(y.s, y.r, y.readR, fs);
  }

  lemma ReceiverReadsKeeps(y: Sys, fs: seq<File>)
    requires Inv(y, fs) && Enabled(y, ReceiverReads)
    ensures var z := Next(y, ReceiverReads); Inv(z, fs) && Work(z) < Work(y)
  {
    InvLog(y, fs);
    hide Handle, SenderOk, Effect, Sum, FilePrefix, Done, NotDoneBefore, PacketsLeft;
    if y.readR == 0 {
      ReceiverStarts(y, fs);
    } else if y.s.out[y.readR].P2? {
      ReceiverOpensFile(y.s, y.r, y.readR, fs);
    } else {
      ReceiverReadsChunk(y, fs);
    }
    hide RepliesOk, ReceiverOk;
    ReceiverGot(y, fs, Handle(y.r, y.s.out[y.readR]));
  }

  lemma StepKeeps(y: Sys, fs: seq<File>, step: Step)
    requires Inv(y, fs) && Enabled(y, step)
    ensures var z := Next(y, step); Inv(z, fs) && (z == y || Work(z) < Work(y))
  {
    hide Inv, Work, Handle, SendFile;
    match step
    case WriteReady => WriteReadyKeeps(y, fs);
    case SenderReads => SenderReadsKeeps(y, fs);
    case ReceiverWriteReady => assert SendFile(y.r) == y.r by { ReceiverIdle(y, fs); }
    case ReceiverReads => ReceiverReadsKeeps(y, fs);
  }

  lemma ReceiverIdle(y: Sys, fs: seq<File>)
    requires Inv(y, fs)
    ensures SendFile(y.r) == y.r
  {
  }

  lemma {:induction false} RunKeeps(y: Sys, fs: seq<File>, steps: seq<Step>)
    requires Inv(y, fs) && ValidRun(y, steps)
    ensures Inv(Run(y, steps), fs)
    decreases |steps|
  {
    if steps != [] {
      StepKeeps(y, fs, steps[0]);
      RunKeeps(Next(y, steps[0]), fs, steps[1..]);
    }
  }

  // ------------------------------------------------------------------
  //  The main results
  // ------------------------------------------------------------------

  /** On every run: what has been written is a file-by-file prefix of what was offered, the counters tell
      the bytes sent and written, and nothing fails; if the last file is not empty, each side is complete exactly
      when it is done. */
  lemma TransferIsSafe(fs: seq<File>, speed: uint, offered: uint, steps: seq<Step>)
    requires InRange(fs) && ValidRun(Start(fs, speed, offered), steps)
    ensures var y := Run(Start(fs, speed, offered), steps);
      && FilePrefix(y.r.written, fs)
      && y.s.totpos == Sum(Effect(y.s.out)) && y.r.totpos == Sum(y.r.written) <= y.s.totpos
      && y.r.curr == |y.r.written| <= y.s.curr
      && y.s.status != Error && y.r.status != Error
      && (y.s.status == Complete ==> Effect(y.s.out) == fs)
      && (fs[|fs| - 1] != [] ==> (y.s.status == Complete <==> Effect(y.s.out) == fs))
      && (fs[|fs| - 1] != [] ==> (y.r.status == Complete <==> y.r.written == fs))
  {
    StartInv(fs, speed, offered);
    RunKeeps(Start(fs, speed, offered), fs, steps);
    DoneIffComplete(Run(Start(fs, speed, offered), steps), fs);
  }

  lemma DoneIffComplete(y: Sys, fs: seq<File>)
    requires Inv(y, fs)
    ensures y.s.status == Complete ==> Effect(y.s.out) == fs
    ensures fs[|fs| - 1] != [] ==> (y.s.status == Complete <==> Effect(y.s.out) == fs)
    ensures fs[|fs| - 1] != [] ==> (y.r.status == Complete <==> y.r.written == fs)
    ensures FilePrefix(y.r.written, fs) && y.r.totpos == Sum(y.r.written) <= y.s.totpos == Sum(Effect(y.s.out))
    ensures y.r.curr == |y.r.written| <= y.s.curr && y.s.status != Error && y.r.status != Error
  {
    ReceivedIsPrefix(y, fs);
    SenderDone(y.s, fs);
    if fs[|fs| - 1] != [] { ReceiverDone(y, fs); }
    hide Effect, Sum, FilePrefix, LogOk, RepliesOk;
  }

  lemma SenderDone(s: Peer, fs: seq<File>)
    requires InRange(fs) && SenderOk(s, fs)
    ensures s.status == Complete ==> Effect(s.out) == fs && |s.out| >= 3
    ensures fs[|fs| - 1] != [] && Effect(s.out) == fs ==> s.status == Complete
  {
    if s.curr > 0 {
      SentIsPrefix(s, fs);
      hide Effect, Sum, FilePrefix, LogOk;
    } else {
      OpeningWritesNothing(s, fs);
    }
  }

  lemma ReceiverDone(y: Sys, fs: seq<File>)
    requires Inv(y, fs) && fs[|fs| - 1] != []
    ensures y.r.status == Complete <==> y.r.written == fs
  {
    ReceivedIsPrefix(y, fs);
    if y.r.written == fs { BytesNeedChunks(y.s.out, y.readR); PrefixBytes([], fs); }
    hide Effect, FilePrefix, LogOk, RepliesOk, SenderOk, HasChunk;
  }

  /** Without a chunk nothing is written. */
  lemma {:induction false} BytesNeedChunks(out: seq<Packet>, n: nat)
    requires n <= |out|
    ensures Sum(Effect(out[..n])) > 0 ==> HasChunk(out[..n])
  {
    if n > 0 {
      var log := out[..n - 1];
      assert out[..n] == log + [out[n - 1]];
      BytesNeedChunks(out, n - 1);
      EffectSnoc(log, out[n - 1]);
      SumSnoc(Effect(log), []);
      HasChunkSnoc(log, out[n - 1]);
      hide Effect, Sum, HasChunk;
    }
  }

  /** When a resume packet is handled, it names the file the sender has open. */
  lemma CountersAgree(fs: seq<File>, speed: uint, offered: uint, steps: seq<Step>)
    requires InRange(fs) && ValidRun(Start(fs, speed, offered), steps)
    requires Enabled(Run(Start(fs, speed, offered), steps), SenderReads)
    ensures var y := Run(Start(fs, speed, offered), steps);
      var m := y.r.out[y.readS];
      m.P3? ==> m.nfiles == y.s.curr && m.pos == 0 && y.s.pos == 0
  {
    StartInv(fs, speed, offered);
    RunKeeps(Start(fs, speed, offered), fs, steps);
    SenderReadsKeeps(Run(Start(fs, speed, offered), steps), fs);
  }

  /** A step that gets something done. */
  function UsefulStep(y: Sys): Step {
    if y.readR < |y.s.out| && y.r.status == Active then ReceiverReads
    else if Waiting(y.s) then SenderReads
    else WriteReady
  }

  /** The total is reached with the last file and not before: it has a byte, or it is the only one. */
  predicate Arrives(fs: seq<File>)
    requires fs != []
  {
    |fs| == 1 || fs[|fs| - 1] != []
  }

  lemma ChunkInLog(log: seq<Packet>, fs: seq<File>)
    requires LogOk(log, fs) && HasChunk(log)
    ensures |log| >= 3
  {
  }

  /** A complete receiver has everything, and so the sender is complete too. */
  lemma CompleteIsWhole(y: Sys, fs: seq<File>)
    requires Inv(y, fs) && Arrives(fs) && y.r.status == Complete
    ensures y.r.written == fs && y.s.status == Complete
  {
    ReceivedIsPrefix(y, fs);
    DoneIffComplete(y, fs);
    if fs[|fs| - 1] != [] {
      assert |Effect(y.s.out)| == |fs| && Effect(y.s.out)[|fs| - 1] == fs[|fs| - 1];
      hide Sum, LogOk, RepliesOk, Done;
      assert Effect(y.s.out) == fs;
    } else {
      OneEmptyFile(y, fs);
    }
  }

  lemma OneEmptyFile(y: Sys, fs: seq<File>)
    requires Inv(y, fs) && |fs| == 1 && fs[0] == [] && y.r.status == Complete
    ensures y.r.written == fs && y.s.status == Complete
  {
    ReceivedIsPrefix(y, fs);
    ChunkInLog(y.s.out[..y.readR], fs);
    AnnouncedFirst(y.s.out, y.readR, fs);
    hide Effect, Sum, HasChunk, RepliesOk, LogOk, SentFiles;
    assert |y.r.written| == 1 && y.r.written[0] == [];
  }

  /** Until both sides are complete, something useful can happen: there is no deadlock. */
  lemma NoDeadlock(y: Sys, fs: seq<File>)
    requires Inv(y, fs) && Arrives(fs) && !(y.s.status == Complete && y.r.status == Complete)
    ensures Enabled(y, UsefulStep(y)) && Inv(Next(y, UsefulStep(y)), fs) && Work(Next(y, UsefulStep(y))) < Work(y)
  {
    Useful(y, fs);
    hide Inv, Work, Handle, SendFile;
    match UsefulStep(y)
    case WriteReady => WriteReadyKeeps(y, fs);
    case SenderReads => SenderReadsKeeps(y, fs);
    case ReceiverReads => ReceiverReadsKeeps(y, fs);
  }

  lemma AllRead(y: Sys, fs: seq<File>)
    requires Inv(y, fs) && y.readR == |y.s.out|
    ensures y.r.written == Effect(y.s.out) && y.r.curr == y.s.curr
    ensures y.s.status == Complete ==> y.r.status == Complete
  {
    assert y.s.out[..y.readR] == y.s.out;
    ReceivedIsPrefix(y, fs);
    SenderDone(y.s, fs);
    if y.s.status == Complete { assert y.s.out[2].P6?; }
  }

  lemma Useful(y: Sys, fs: seq<File>)
    requires Inv(y, fs) && Arrives(fs) && !(y.s.status == Complete && y.r.status == Complete)
    ensures Enabled(y, UsefulStep(y)) && (UsefulStep(y) == WriteReady ==> !Waiting(y.s))
  {
    if y.r.status == Complete { CompleteIsWhole(y, fs); }
    hide Effect, Sum, FilePrefix, LogOk, FileOk, Done, NotDoneBefore;
    assert y.r.status == Active;
    if y.readR == |y.s.out| {
      AllRead(y, fs);
      assert y.s.status == Active;
      assert Waiting(y.s) ==> y.readS < |y.r.out|;
    }
  }

  lemma {:induction false} FinishFrom(y: Sys, fs: seq<File>) returns (steps: seq<Step>)
    requires Inv(y, fs) && Arrives(fs)
    ensures ValidRun(y, steps) && |steps| <= Work(y)
    ensures var z := Run(y, steps); z.s.status == Complete && z.r.status == Complete && z.r.written == fs
    decreases Work(y)
  {
    if y.s.status == Complete && y.r.status == Complete {
      CompleteIsWhole(y, fs);
      steps := [];
    } else {
      NoDeadlock(y, fs);
      var step := UsefulStep(y);
      var rest := FinishFrom(Next(y, step), fs);
      steps := [step] + rest;
      assert steps[1..] == rest;
    }
  }

  /** Whatever has happened so far, the transfer can be finished, every file arriving whole. */
  lemma TransferCompletes(fs: seq<File>, speed: uint, offered: uint, steps: seq<Step>) returns (more: seq<Step>)
    requires InRange(fs) && Arrives(fs) && ValidRun(Start(fs, speed, offered), steps)
    ensures var y := Run(Start(fs, speed, offered), steps);
      && ValidRun(y, more)
      && Run(y, more).s.status == Complete && Run(y, more).r.status == Complete && Run(y, more).r.written == fs
  {
    StartInv(fs, speed, offered);
    RunKeeps(Start(fs, speed, offered), fs, steps);
    more := FinishFrom(Run(Start(fs, speed, offered), steps), fs);
  }

  // ------------------------------------------------------------------
  //  An empty file at the end
  // ------------------------------------------------------------------

  /** Where the last file of a log was announced. */
  lemma {:induction false} LastAnnounced(out: seq<Packet>, n: nat) returns (k: nat)
    requires n <= |out| && Effect(out[..n]) != []
    ensures k < n && out[k].P2? && |Effect(out[..k])| == |Effect(out[..n])| - 1
  {
    assert out[..n] == out[..n - 1] + [out[n - 1]];
    EffectSnoc(out[..n - 1], out[n - 1]);
    if out[n - 1].P2? {
      k := n - 1;
    } else {
      assert |Effect(out[..n])| == |Effect(out[..n - 1])|;
      k := LastAnnounced(out, n - 1);
    }
  }

  /** When a file is announced the ones before it are whole. */
  lemma WholeBefore(out: seq<Packet>, k: nat, fs: seq<File>)
    requires k < |out| && out[k].P2? && FilePrefix(Effect(out), fs)
    ensures |Effect(out[..k])| < |fs| && Effect(out[..k]) == fs[..|Effect(out[..k])|]
  {
    NextEffect(out, k, fs);
    var w, v := Effect(out[..k]), Effect(out[..k + 1]);
    assert v == w + [[]];
    forall i | 0 <= i < |w| ensures w[i] == fs[i] { assert v[i] == w[i]; }
  }

  /** Before the last of several files is announced, a chunk has been sent. */
  lemma LateAnnouncement(out: seq<Packet>, k: nat, fs: seq<File>)
    requires LogOk(out, fs) && k < |out| && out[k].P2? && Effect(out[..k]) != []
    ensures HasChunk(out[..k])
  {
    assert Effect(out[..1]) == [] by { assert out[..1] == [] + [out[0]]; EffectSnoc([], out[0]); }
    assert k > 2;
    assert out[..k][2].P6?;
  }

  /** If the last of several files is empty, a receiver that gets as far as its announcement is complete before. */
  lemma DoneBeforeLast(out: seq<Packet>, n: nat, fs: seq<File>) returns (k: nat)
    requires InRange(fs) && !Arrives(fs) && LogOk(out, fs) && FilePrefix(Effect(out), fs)
    requires n <= |out| && |Effect(out[..n])| == |fs|
    ensures k < n && Done(out[..k], fs)
  {
    k := LastAnnounced(out, n);
    WholeBefore(out, k, fs);
    SumSnoc(fs[..|fs| - 1], []);
    assert fs[..|fs| - 1] + [[]] == fs;
    LateAnnouncement(out, k, fs);
  }

  /** So the last file never arrives and the sender does not complete. */
  lemma NeverArrives(y: Sys, fs: seq<File>)
    requires Inv(y, fs) && !Arrives(fs)
    ensures |y.r.written| < |fs| && y.s.status != Complete
  {
    ReceivedIsPrefix(y, fs);
    hide Effect, Sum, FilePrefix, LogOk, Done;
    if |y.r.written| == |fs| {
      var k := DoneBeforeLast(y.s.out, y.readR, fs);
      assert false;
    }
  }

  /** A run after which both sides are complete and every file has arrived. */
  ghost predicate Delivers(y: Sys, fs: seq<File>, steps: seq<Step>) {
    && ValidRun(y, steps)
    && Run(y, steps).s.status == Complete && Run(y, steps).r.status == Complete && Run(y, steps).r.written == fs
  }

  /** A transfer can be finished if and only if its last file is not empty or is the only one. */
  lemma DeliversIff(fs: seq<File>, speed: uint, offered: uint)
    requires InRange(fs)
    ensures (exists steps :: Delivers(Start(fs, speed, offered), fs, steps)) <==> Arrives(fs)
  {
    hide Run, Inv;
    var y := Start(fs, speed, offered);
    StartInv(fs, speed, offered);
    if Arrives(fs) {
      var steps := FinishFrom(y, fs);
      assert Delivers(y, fs, steps);
    }
    forall steps | Delivers(y, fs, steps) ensures Arrives(fs) {
      RunKeeps(y, fs, steps);
      if !Arrives(fs) { NeverArrives(Run(y, steps), fs); }
    }
  }

  /** On no run of such a list does the last file arrive or the sender complete. */
  lemma EmptyLastFileIsLost(fs: seq<File>, speed: uint, offered: uint, steps: seq<Step>)
    requires InRange(fs) && !Arrives(fs) && ValidRun(Start(fs, speed, offered), steps)
    ensures var y := Run(Start(fs, speed, offered), steps); |y.r.written| < |fs| && y.s.status != Complete
  {
    StartInv(fs, speed, offered);
    RunKeeps(Start(fs, speed, offered), fs, steps);
    NeverArrives(Run(Start(fs, speed, offered), steps), fs);
  }

  // ------------------------------------------------------------------
  //  Runs end
  // ------------------------------------------------------------------

  /** The steps of a run that change anything. */
  ghost function Effective(y: Sys, steps: seq<Step>): nat
    requires ValidRun(y, steps)
    decreases |steps|
  {
    if steps == [] then 0
    else (if Next(y, steps[0]) == y then 0 else 1) + Effective(Next(y, steps[0]), steps[1..])
  }

  /** No run goes on forever: the work bounds the steps that change anything. */
  lemma {:induction false} WorkBoundsRuns(y: Sys, fs: seq<File>, steps: seq<Step>)
    requires Inv(y, fs) && ValidRun(y, steps)
    ensures Effective(y, steps) <= Work(y)
    decreases |steps|
  {
    hide Work, Next, Enabled;
    assert Work(y) >= 0 by { WorkNotNegative(y, fs); }
    if steps != [] {
      StepKeeps(y, fs, steps[0]);
      WorkBoundsRuns(Next(y, steps[0]), fs, steps[1..]);
    }
  }

  lemma WorkNotNegative(y: Sys, fs: seq<File>)
    requires Inv(y, fs)
    ensures Work(y) >= 0
  {
  }
}
