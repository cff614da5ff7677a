/** The file transfer protocol (src/FileTransferClient.cpp), packets 0x00 to 0x06, after the connection
    is up. Files are byte sequences; names and paths are left out. */
module FileTransfer {
  import opened Buffers

  type File = seq<byte>

  datatype Status = Active | Complete | Error

  datatype Packet =
    | P0(files: uint, total: uint, speed: uint)
    | P1(speed: uint)
    | P2(size: uint, speed: uint)
    | P3(pos: uint, speed: uint, nfiles: uint)
    | P5(speed: uint)
    | P6(data: seq<byte>)

  const CHUNK := 2048

  /** A FileTransferClient with its event; the same object plays both parts. */
  datatype Peer = Peer(
    status: Status,
    msgqueue: bool, cont: bool, more: bool,       // m_msgqueue, m_continue, m_more
    queue: seq<File>,                             // the event's files not yet opened
    fin: File, finPos: nat, good: bool,           // the open input file
    written: seq<File>,                           // the output files, the last one open
    totalFiles: uint, curr: uint,
    totalSize: uint, totpos: uint,
    size: uint, pos: uint, speed: uint,
    out: seq<Packet>)                             // everything sent

  function U32(n: nat): uint { n % 0x1_0000_0000 }

  // ------------------------------------------------------------------
  //  Sending
  // ------------------------------------------------------------------

  function Send(p: Peer, m: Packet): Peer { p.(out := p.out + [m]) }

  /** Takes the next file off the list and opens it. */
  function OpenNext(p: Peer): Peer
    requires p.queue != []
  {
    p.(queue := p.queue[1..], fin := p.queue[0], finPos := 0, good := true,
       curr := U32(p.curr + 1), pos := 0, size := U32(|p.queue[0]|))
  }

  /** Opens the next file and announces it. */
  function SendP2(p: Peer): Peer {
    if p.queue == [] then p.(status := Error)
    else var p1 := OpenNext(p); Send(p1, P2(p1.size, p1.speed))
  }

  /** Reading less than a full chunk spoils the stream. */
  function ReadChunk(p: Peer): (r: (Peer, seq<byte>))
    requires p.finPos <= |p.fin|
  {
    var left := |p.fin| - p.finPos;
    var n := if left < CHUNK then left else CHUNK;
    (p.(finPos := p.finPos + n, good := left >= CHUNK, pos := U32(p.pos + n), totpos := U32(p.totpos + n)),
     p.fin[p.finPos..p.finPos + n])
  }

  /** The last chunk of the last file completes the transfer. */
  function AfterChunk(p: Peer): Peer {
    if p.pos < p.size then p.(more := true)
    else p.(more := false, status := if p.queue == [] then Complete else p.status)
  }

  /** Reads and sends a chunk. */
  function SendP6(p: Peer): Peer {
    if !p.good || p.finPos > |p.fin| then p.(status := Error)
    else var r := ReadChunk(p); AfterChunk(Send(r.0, P6(r.1)))
  }

  function SendFile(p: Peer): Peer {
    if p.msgqueue then Send(p, P0(p.totalFiles, p.totalSize, p.speed)).(msgqueue := false)
    else if p.cont then
      if p.more then SendP6(p)
      else if p.curr < p.totalFiles then SendP2(p).(cont := false, more := false)
      else p.(status := Complete)
    else p
  }

  // ------------------------------------------------------------------
  //  Receiving
  // ------------------------------------------------------------------

  /** m_fout: nothing happens when no file is open. */
  function Append(written: seq<File>, data: seq<byte>): seq<File> {
    if written == [] then [] else written[..|written| - 1] + [written[|written| - 1] + data]
  }

  function ParseP2(p: Peer, size: uint, speed: uint): Peer {
    p.(size := size, pos := 0, curr := U32(p.curr + 1), speed := speed, written := p.written + [[]])
  }

  function ParseP3(p: Peer, npos: uint, nfiles: uint): Peer {
    var p1 := p.(pos := npos, totpos := U32(p.totpos + npos), curr := nfiles);
    if npos > p1.size then p1.(status := Error) else p1.(finPos := npos, more := true)
  }

  function ParseP6(p: Peer, data: seq<byte>): Peer {
    var p1 := p.(pos := U32(p.pos + |data|), totpos := U32(p.totpos + |data|), written := Append(p.written, data));
    if p1.totpos >= p1.totalSize then p1.(status := Complete) else p1
  }

  function Handle(p: Peer, m: Packet): Peer {
    match m
    case P0(files, total, speed) =>
      Send(Send(p.(totalSize := total, totalFiles := files, curr := 0, speed := speed), P5(speed)), P1(speed))
    case P1(speed) => SendP2(p.(speed := speed))
    case P2(size, speed) =>
      var p1 := ParseP2(p, size, speed);
      Send(p1, P3(0, speed, p1.curr))
    case P3(npos, _, nfiles) =>
      var p1 := ParseP3(p, npos, nfiles);
      if p1.status == Error then p1 else SendFile(p1.(cont := true))
    case P5(speed) => p.(speed := speed)
    case P6(data) => ParseP6(p, data)
  }

  // ------------------------------------------------------------------
  //  Two peers; a channel is the other side's log, read up to a position
  // ------------------------------------------------------------------

  datatype Sys = Sys(s: Peer, r: Peer, readS: nat, readR: nat)

  /** A write-ready event or a packet arrival, at either end. */
  datatype Step = WriteReady | SenderReads | ReceiverWriteReady | ReceiverReads

  predicate Enabled(y: Sys, step: Step) {
    match step
    case WriteReady => y.s.status == Active
    case SenderReads => y.s.status == Active && y.readS < |y.r.out|
    case ReceiverWriteReady => y.r.status == Active
    case ReceiverReads => y.r.status == Active && y.readR < |y.s.out|
  }

  function Next(y: Sys, step: Step): Sys
    requires Enabled(y, step)
  {
    match step
    case WriteReady => y.(s := SendFile(y.s))
    case SenderReads => y.(s := Handle(y.s, y.r.out[y.readS]), readS := y.readS + 1)
    case ReceiverWriteReady => y.(r := SendFile(y.r))
    case ReceiverReads => y.(r := Handle(y.r, y.s.out[y.readR]), readR := y.readR + 1)
  }

  ghost predicate ValidRun(y: Sys, steps: seq<Step>)
    decreases |steps|
  {
    steps != [] ==> Enabled(y, steps[0]) && ValidRun(Next(y, steps[0]), steps[1..])
  }

  ghost function Run(y: Sys, steps: seq<Step>): Sys
    requires ValidRun(y, steps)
    decreases |steps|
  {
    if steps == [] then y else Run(Next(y, steps[0]), steps[1..])
  }

  function Sum(fs: seq<File>): nat {
    if fs == [] then 0 else Sum(fs[..|fs| - 1]) + |fs[|fs| - 1]|
  }

  /** At least one file, sizes and counts in range. */
  predicate InRange(fs: seq<File>) { fs != [] && Sum(fs) < 0x1_0000_0000 && |fs| < 0x1_0000_0000 }

  /** The sending end as it is set up for any list of files; its counters are 32 bits wide. */
  function NewSender(fs: seq<File>, speed: uint): Peer {
    Peer(Active, true, false, false, fs, [], 0, false, [], U32(|fs|), 0, U32(Sum(fs)), 0, 0, 0, speed, [])
  }

  function Start(fs: seq<File>, speed: uint, offered: uint): Sys
    requires InRange(fs)
  {
    Sys(Peer(Active, true, false, false, fs, [], 0, false, [], |fs|, 0, Sum(fs), 0, 0, 0, speed, []),
        Peer(Active, false, false, false, [], [], 0, false, [], 0, 0, offered, 0, 0, 0, speed, []), 0, 0)
  }
}
