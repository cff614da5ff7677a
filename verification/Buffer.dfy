/** The packet buffer (src/buffer.cpp, src/buffer.h). */
module Buffers {

  type byte = x: int | 0 <= x < 0x100
  type ushort = x: int | 0 <= x < 0x1_0000
  type uint = x: int | 0 <= x < 0x1_0000_0000

  datatype Endian = Big | Little

  // ------------------------------------------------------------------
  //  Bytes of an integer, and back
  // ------------------------------------------------------------------

  function Pack16(e: Endian, l: ushort): (d: seq<byte>)
    ensures |d| == 2
  {
    if e.Big? then [l / 0x100, l % 0x100] else [l % 0x100, l / 0x100]
  }

  function Unpack16(e: Endian, d: seq<byte>): ushort
    requires |d| == 2
  {
    var b0: int, b1: int := d[0], d[1];
    if e.Big? then b0 * 0x100 + b1 else b0 + b1 * 0x100
  }

  function Pack32(e: Endian, l: uint): (d: seq<byte>)
    ensures |d| == 4
  {
    var hi, lo := l / 0x1_0000, l % 0x1_0000;
    if e.Big? then Pack16(e, hi) + Pack16(e, lo) else Pack16(e, lo) + Pack16(e, hi)
  }

  function Unpack32(e: Endian, d: seq<byte>): uint
    requires |d| == 4
  {
    if e.Big? then Unpack16(e, d[..2]) * 0x1_0000 + Unpack16(e, d[2..])
    else Unpack16(e, d[..2]) + Unpack16(e, d[2..]) * 0x1_0000
  }

  /** The four bytes as the source shifts them out. */
  lemma Pack32Bytes(e: Endian, l: uint)
    ensures var b3, b2, b1, b0 := l / 0x100_0000, l / 0x1_0000 % 0x100, l / 0x100 % 0x100, l % 0x100;
      Pack32(e, l) == if e.Big? then [b3, b2, b1, b0] else [b0, b1, b2, b3]
  {
    var hi, lo := l / 0x1_0000, l % 0x1_0000;
    assert hi / 0x100 == l / 0x100_0000;
    assert l / 0x100 == hi * 0x100 + lo / 0x100;
    assert lo / 0x100 == l / 0x100 % 0x100;
    assert lo % 0x100 == l % 0x100;
  }

  lemma Unpack16InvertsPack16(e: Endian, l: ushort)
    ensures Unpack16(e, Pack16(e, l)) == l
  {
  }

  lemma Unpack32InvertsPack32(e: Endian, l: uint)
    ensures Unpack32(e, Pack32(e, l)) == l
  {
    var d := Pack32(e, l);
    var hi, lo := l / 0x1_0000, l % 0x1_0000;
    assert d[..2] == if e.Big? then Pack16(e, hi) else Pack16(e, lo);
    assert d[2..] == if e.Big? then Pack16(e, lo) else Pack16(e, hi);
  }

  // ------------------------------------------------------------------
  //  Reading: the value and the new position
  // ------------------------------------------------------------------

  function Read8(d: seq<byte>, pos: nat): (r: (byte, nat)) {
    if pos + 1 > |d| then (0, pos) else (d[pos], pos + 1)
  }

  function Read16(e: Endian, d: seq<byte>, pos: nat): (r: (ushort, nat)) {
    (if pos + 2 > |d| then 0 else Unpack16(e, d[pos..pos + 2]), pos + 2)
  }

  function Read32(e: Endian, d: seq<byte>, pos: nat): (r: (uint, nat)) {
    (if pos + 4 > |d| then 0 else Unpack32(e, d[pos..pos + 4]), pos + 4)
  }

  /** Unpack(string&, size): as much of the request as there is. */
  function ReadBytes(d: seq<byte>, pos: nat, size: nat): (r: (seq<byte>, nat)) {
    if pos >= |d| then ([], pos)
    else
      var n := if pos + size > |d| then |d| - pos else size;
      (d[pos..pos + n], pos + n)
  }

  function ReadString16(e: Endian, d: seq<byte>, pos: nat): (r: (seq<byte>, nat)) {
    var (sh, p) := Read16(e, d, pos);
    if sh == 0 then ([], p)
    else
      var (s, p') := ReadBytes(d, p, sh - 1);
      (s, p' + 1)
  }

  function Write16String(e: Endian, s: seq<byte>): (d: seq<byte>) {
    Pack16(e, (|s| + 1) % 0x1_0000) + s + [0]
  }

  /** A length-prefixed, zero-terminated string comes back whole when its length fits in 16 bits. */
  lemma ReadInvertsWriteString(e: Endian, pre: seq<byte>, s: seq<byte>, post: seq<byte>)
    requires |s| <= 65534
    ensures ReadString16(e, pre + Write16String(e, s) + post, |pre|) == (s, |pre + Write16String(e, s)|)
  {
    var d, p := pre + Write16String(e, s) + post, |pre|;
    Unpack16InvertsPack16(e, |s| + 1);
    hide Pack16, Unpack16;
    assert d == pre + Pack16(e, |s| + 1) + s + [0] + post;
    assert d[p..p + 2] == Pack16(e, |s| + 1);
    assert d[p + 2..p + 2 + |s|] == s;
    assert Read16(e, d, p) == (|s| + 1, p + 2);
    assert ReadBytes(d, p + 2, |s|) == (s, p + 2 + |s|);
  }

  lemma ReadInvertsWrite16(e: Endian, pre: seq<byte>, l: ushort, post: seq<byte>)
    ensures Read16(e, pre + Pack16(e, l) + post, |pre|) == (l, |pre| + 2)
  {
    var d := pre + Pack16(e, l) + post;
    assert d[|pre|..|pre| + 2] == Pack16(e, l);
    Unpack16InvertsPack16(e, l);
  }

  lemma ReadInvertsWrite32(e: Endian, pre: seq<byte>, l: uint, post: seq<byte>)
    ensures Read32(e, pre + Pack32(e, l) + post, |pre|) == (l, |pre| + 4)
  {
    var d := pre + Pack32(e, l) + post;
    assert d[|pre|..|pre| + 4] == Pack32(e, l);
    Unpack32InvertsPack32(e, l);
  }

  // ------------------------------------------------------------------
  //  The class
  // ------------------------------------------------------------------

  /** A reserved length field: the position just after it, its byte order and its size. */
  datatype Marker = Marker(position: nat, endianness: Endian, size: nat)

  lemma AutosizeBytes(e: Endian, n: nat)
    ensures var low, high := n % 0x100, n / 0x100 % 0x100;
      Pack16(e, n % 0x1_0000) == if e.Big? then [high, low] else [low, high]
  {
    var q, r := n / 0x1_0000, n % 0x1_0000;
    assert n / 0x100 == 0x100 * q + r / 0x100;
    assert n == 0x100 * (0x100 * q + r / 0x100) + r % 0x100;
  }

  lemma OverwriteTwo(d: seq<byte>, p: nat, a: byte, b: byte)
    requires 2 <= p <= |d|
    ensures d[p - 2 := a][p - 1 := b] == d[..p - 2] + [a, b] + d[p..]
  {
  }

  class Buffer {
    var data: seq<byte>
    var endn: Endian
    var pos: nat

    constructor ()
      ensures data == [] && endn == Big && pos == 0
    {
      data := [];
      endn := Big;
      pos := 0;
    }

    /** size() - pos() in 32-bit unsigned arithmetic: huge once pos has passed the end. */
    function Remains(): uint
      reads this
    {
      (|data| - pos) % 0x1_0000_0000
    }

    method Clear()
      modifies `data, `pos
      ensures data == [] && pos == 0
    {
      data := [];
      pos := 0;
    }

    method Advance(n: nat)
      modifies `pos
      ensures pos == old(pos) + n
    {
      pos := pos + n;
    }

    method SetPos(p: nat)
      modifies `pos
      ensures pos == p
    {
      pos := p;
    }

    method SetEndianness(e: Endian)
      modifies `endn
      ensures endn == e
    {
      endn := e;
    }

    /** Moves the first sz bytes to the end of b. */
    method ChopOff(b: Buffer, sz: nat)
      requires sz <= |data| && b != this
      modifies `data, `pos, b`data
      ensures data == old(data)[sz..] && pos == 0
      ensures b.data == old(b.data) + old(data)[..sz]
    {
      b.data := b.data + data[..sz];
      data := data[sz..];
      pos := 0;
    }

    method PutBytes(d: seq<byte>)
      modifies `data
      ensures data == old(data) + d
    {
      data := data + d;
    }

    method Put8(l: byte)
      modifies `data
      ensures data == old(data) + [l]
    {
      data := data + [l];
    }

    method Put16(l: ushort)
      modifies `data
      ensures data == old(data) + Pack16(endn, l)
    {
      if endn == Big {
        data := data + [l / 0x100];
        data := data + [l % 0x100];
      } else {
        data := data + [l % 0x100];
        data := data + [l / 0x100];
      }
    }

    method Put32(l: uint)
      modifies `data
      ensures data == old(data) + Pack32(endn, l)
    {
      var b3, b2, b1, b0 := l / 0x100_0000, l / 0x1_0000 % 0x100, l / 0x100 % 0x100, l % 0x100;
      Pack32Bytes(endn, l);
      if endn == Big {
        data := data + [b3, b2, b1, b0];
      } else {
        data := data + [b0, b1, b2, b3];
      }
    }

    /** The length field is 16 bits wide, so a longer string is announced modulo 2^16. */
    method PutString16(s: seq<byte>)
      modifies `data
      ensures data == old(data) + Write16String(endn, s)
    {
      Put16((|s| + 1) % 0x1_0000);
      PutBytes(s);
      Put8(0);
    }

    method Get8() returns (l: byte)
      modifies `pos
      ensures (l, pos) == Read8(data, old(pos))
    {
      if pos + 1 > |data| {
        l := 0;
      } else {
        l := data[pos];
        pos := pos + 1;
      }
    }

    method Get16() returns (l: ushort)
      modifies `pos
      ensures (l, pos) == Read16(endn, data, old(pos))
    {
      if pos + 2 > |data| {
        l := 0;
      } else {
        var b0: int, b1: int := data[pos], data[pos + 1];
        l := if endn == Big then b0 * 0x100 + b1 else b0 + b1 * 0x100;
      }
      pos := pos + 2;
    }

    method Get32() returns (l: uint)
      modifies `pos
      ensures (l, pos) == Read32(endn, data, old(pos))
    {
      if pos + 4 > |data| {
        l := 0;
      } else {
        var b0: int, b1: int := data[pos], data[pos + 1];
        var b2: int, b3: int := data[pos + 2], data[pos + 3];
        l := if endn == Big then b0 * 0x100_0000 + b1 * 0x1_0000 + b2 * 0x100 + b3
             else b0 + b1 * 0x100 + b2 * 0x1_0000 + b3 * 0x100_0000;
        assert data[pos..pos + 4][..2] == data[pos..pos + 2];
        assert data[pos..pos + 4][2..] == data[pos + 2..pos + 4];
      }
      pos := pos + 4;
    }

    method GetBytes(size: nat) returns (s: seq<byte>)
      modifies `pos
      ensures (s, pos) == ReadBytes(data, old(pos), size)
    {
      s := [];
      if pos >= |data| { return; }
      var n := if pos + size > |data| then |data| - pos else size;
      var i := pos;
      while i != pos + n
        invariant pos <= i <= pos + n
        invariant s == data[pos..i]
      {
        s := s + [data[i]];
        i := i + 1;
      }
      pos := pos + n;
    }

    method GetString16() returns (s: seq<byte>)
      modifies `pos
      ensures (s, pos) == ReadString16(endn, data, old(pos))
    {
      var sh := Get16();
      s := [];
      if sh > 0 {
        s := GetBytes(sh - 1);
        Advance(1);
      }
    }

    method AutoSizeShortMarker() returns (m: Marker)
      modifies `data
      ensures data == old(data) + [0, 0] && m == Marker(|data|, endn, 2)
    {
      Put16(0);
      m := Marker(|data|, endn, 2);
    }

    /** Filling a marker writes the number of bytes after it into its own bytes, in the byte
        order the marker was made in and modulo its width, and changes nothing else. */
    method SetAutoSizeMarker(m: Marker)
      requires m.size == 2 <= m.position <= |data|
      modifies `data
      ensures data == old(data)[..m.position - 2]
                      + Pack16(m.endianness, (|old(data)| - m.position) % 0x1_0000)
                      + old(data)[m.position..]
    {
      var autosize := |data| - m.position;
      var low, high := autosize % 0x100, autosize / 0x100 % 0x100;
      AutosizeBytes(m.endianness, autosize);
      hide Pack16;
      ghost var before := data;
      if m.endianness == Big {
        data := data[m.position - 2 := high];
        data := data[m.position - 1 := low];
        OverwriteTwo(before, m.position, high, low);
      } else {
        data := data[m.position - 2 := low];
        data := data[m.position - 1 := high];
        OverwriteTwo(before, m.position, low, high);
      }
    }
  }
}
