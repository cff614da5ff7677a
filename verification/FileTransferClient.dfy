/** The FileTransferClient object once connected, with the event it carries
    (src/FileTransferClient.cpp), proved against the functions of FileTransfer. */
module FileTransferClients {
  import opened Buffers
  import opened FileTransfer

  const MAX_FILE_CHUNK := 4096

  class FileTransferClient {
    var status: Status
    var msgqueue: bool
    var cont: bool
    var more: bool
    var queue: seq<File>
    var fin: File
    var finPos: nat
    var good: bool
    var written: seq<File>
    var totalFiles: uint
    var curr: uint
    var totalSize: uint
    var totpos: uint
    var size: uint
    var pos: uint
    var speed: uint
    var out: seq<Packet>

    function Abs(): Peer
      reads this
    {
      Peer(status, msgqueue, cont, more, queue, fin, finPos, good, written,
           totalFiles, curr, totalSize, totpos, size, pos, speed, out)
    }

    constructor Sender(files: seq<File>, rate: uint)
      ensures Abs() == NewSender(files, rate)
      ensures InRange(files) ==> Abs() == Start(files, rate, 0).s
    {
      status, msgqueue, cont, more, queue := Active, true, false, false, files;
      fin, finPos, good, written := [], 0, false, [];
      totalFiles, curr, totalSize, totpos := U32(|files|), 0, U32(Sum(files)), 0;
      size, pos, speed, out := 0, 0, rate, [];
    }

    constructor Receiver(offered: uint, rate: uint)
      ensures forall fs :: InRange(fs) ==> Abs() == Start(fs, rate, offered).r
    {
      status, msgqueue, cont, more, queue := Active, false, false, false, [];
      fin, finPos, good, written := [], 0, false, [];
      totalFiles, curr, totalSize, totpos := 0, 0, offered, 0;
      size, pos, speed, out := 0, 0, rate, [];
    }

    method SendPacket(m: Packet)
      modifies this`out
      ensures Abs() == Send(old(Abs()), m)
    {
      out := out + [m];
    }

    method OpenInput(f: File)
      modifies this`fin, this`finPos, this`good
      ensures fin == f && finPos == 0 && good
    {
      fin, finPos, good := f, 0, true;
    }

    method SetFile(number: uint, from: uint, length: uint)
      modifies this`curr, this`pos, this`size
      ensures curr == number && pos == from && size == length
    {
      curr, pos, size := number, from, length;
    }

    method OpenNextFile()
      requires queue != []
      modifies this
      ensures Abs() == OpenNext(old(Abs()))
    {
      hide U32;
      OpenInput(queue[0]);
      SetFile(U32(curr + 1), 0, U32(|queue[0]|));
      queue := queue[1..];
    }

    method SendPacket0x02()
      modifies this
      ensures Abs() == SendP2(old(Abs()))
    {
      hide OpenNext;
      if queue == [] {
        status := Error;
        return;
      }
      OpenNextFile();
      SendPacket(P2(size, speed));
    }

    /** ifstream::read: it stops at the end of the file, which spoils the stream. */
    method ReadChunk() returns (chunk: seq<byte>)
      requires finPos <= |fin|
      modifies this`finPos, this`good
      ensures old(finPos) <= finPos <= |fin| && chunk == fin[old(finPos)..finPos]
      ensures if good then |chunk| == CHUNK else |chunk| < CHUNK && finPos == |fin|
    {
      var length := 0;
      chunk := [];
      while length < CHUNK && finPos + length < |fin|
        invariant 0 <= length <= CHUNK && finPos + length <= |fin|
        invariant chunk == fin[finPos..finPos + length]
      {
        chunk := chunk + [fin[finPos + length]];
        length := length + 1;
      }
      good := length == CHUNK;
      finPos := finPos + length;
    }

    method NextChunk() returns (chunk: seq<byte>)
      requires finPos <= |fin|
      modifies this
      ensures (Abs(), chunk) == FileTransfer.ReadChunk(old(Abs()))
    {
      hide U32;
      chunk := ReadChunk();
      pos := U32(pos + |chunk|);
      totpos := U32(totpos + |chunk|);
    }

    method SendPacket0x06()
      modifies this
      ensures Abs() == SendP6(old(Abs()))
    {
      hide FileTransfer.ReadChunk, U32;
      if !good || finPos > |fin| {
        status := Error;
        return;
      }
      var chunk := NextChunk();
      SendPacket(P6(chunk));
      if pos < size {
        more := true;
      } else {
        more := false;
        if queue == [] { status := Complete; }
      }
    }

    /** The write-ready handler. */
    method SendFile()
      modifies this
      ensures Abs() == FileTransfer.SendFile(old(Abs()))
    {
      if msgqueue {
        SendPacket(P0(totalFiles, totalSize, speed));
        msgqueue := false;
      } else if cont {
        if more {
          SendPacket0x06();
        } else if curr < totalFiles {
          SendPacket0x02();
          cont := false;
          more := false;
        } else {
          status := Complete;
        }
      }
    }

    method ParsePacket0x02(newSize: uint, rate: uint)
      modifies this
      ensures Abs() == ParseP2(old(Abs()), newSize, rate)
    {
      hide U32;
      SetFile(U32(curr + 1), 0, newSize);
      speed := rate;
      written := written + [[]];
    }

    method ParsePacket0x03(npos: uint, nfiles: uint)
      modifies this
      ensures Abs() == ParseP3(old(Abs()), npos, nfiles)
    {
      hide U32;
      pos := npos;
      totpos := U32(totpos + npos);
      curr := nfiles;
      if npos > size {
        status := Error;
        return;
      }
      finPos := npos;
      more := true;
    }

    method WriteOut(piece: seq<byte>)
      modifies this`written
      ensures written == Append(old(written), piece)
    {
      if written != [] {
        written := written[..|written| - 1] + [written[|written| - 1] + piece];
      }
    }

    /** The data is written in pieces of at most 4096 bytes; nothing of it is lost between pieces. */
    method WriteData(data: seq<byte>)
      modifies this`written
      ensures written == Append(old(written), data)
    {
      AppendNothing(written);
      var length := |data|;
      while length > 0
        invariant 0 <= length <= |data|
        invariant written == Append(old(written), data[..|data| - length])
      {
        var done := |data| - length;
        var n := if length < MAX_FILE_CHUNK then length else MAX_FILE_CHUNK;
        AppendTwice(old(written), data[..done], data[done..done + n]);
        assert data[..done] + data[done..done + n] == data[..done + n];
        WriteOut(data[done..done + n]);
        length := if length > MAX_FILE_CHUNK then length - MAX_FILE_CHUNK else 0;
      }
      assert data[..|data|] == data;
    }

    method ParsePacket0x06(data: seq<byte>)
      requires |data| < 0x1_0000
      modifies this
      ensures Abs() == ParseP6(old(Abs()), data)
    {
      hide U32, Append;
      pos := U32(pos + |data|);
      totpos := U32(totpos + |data|);
      WriteData(data);
      if totpos >= totalSize { status := Complete; }
    }

    method ParsePacket(m: Packet)
      requires m.P6? ==> |m.data| < 0x1_0000
      modifies this
      ensures Abs() == Handle(old(Abs()), m)
    {
      hide U32, SendP2, FileTransfer.SendFile, ParseP6;
      match m
      case P0(files, total, rate) =>
        totalSize := total;
        totalFiles := files;
        curr := 0;
        speed := rate;
        SendPacket(P5(speed));
        SendPacket(P1(speed));
      case P1(rate) =>
        speed := rate;
        SendPacket0x02();
      case P2(newSize, rate) =>
        ParsePacket0x02(newSize, rate);
        SendPacket(P3(0, speed, curr));
      case P3(npos, _, nfiles) =>
        ParsePacket0x03(npos, nfiles);
        if status != Error {
          cont := true;
          SendFile();
        }
      case P5(rate) =>
        speed := rate;
      case P6(data) =>
        ParsePacket0x06(data);
    }
  }

  lemma AppendTwice(w: seq<File>, a: seq<byte>, b: seq<byte>)
    ensures Append(Append(w, a), b) == Append(w, a + b)
  {
    if w != [] { assert w[|w| - 1] + (a + b) == w[|w| - 1] + a + b; }
  }

  lemma AppendNothing(w: seq<File>)
    ensures Append(w, []) == w
  {
    if w != [] { assert w[|w| - 1] + [] == w[|w| - 1]; }
  }
}
