/** Reading at and past the end of a buffer (src/buffer.cpp:120-156, 276-328): nothing is read that is not there. */
module BufferEnds {
  import opened Buffers

  /** A number that is not all there is 0. A byte past the end is not stepped over, a longer number is. */
  lemma ShortNumbers(e: Endian, d: seq<byte>, pos: nat)
    ensures pos >= |d| ==> Read8(d, pos) == (0, pos)
    ensures pos + 2 > |d| ==> Read16(e, d, pos) == (0, pos + 2)
    ensures pos + 4 > |d| ==> Read32(e, d, pos) == (0, pos + 4)
  {
  }

  /** Of a string that was cut off as much is read as there is, and a length of zero is no string at all. */
  lemma ShortString(e: Endian, pre: seq<byte>, s: seq<byte>, n: ushort)
    requires n == 0 || |s| < n
    ensures var d := pre + Pack16(e, n) + s;
      ReadString16(e, d, |pre|) == if n == 0 then ([], |pre| + 2)
                                   else (if |s| == n - 1 then s else s, |pre| + 3 + |s|)
  {
    var d := pre + Pack16(e, n) + s;
    Unpack16InvertsPack16(e, n);
    hide Pack16, Unpack16;
    assert d[|pre|..|pre| + 2] == Pack16(e, n);
    assert d[|pre| + 2..] == s;
    if |s| > 0 { assert d[|pre| + 2..|pre| + 2 + |s|] == s; }
  }
}
