/** What a scrambled packet looks like byte by byte, and which packets are refused (src/DirectClient.cpp:526-663). */
module CipherFormat {
  import opened Wrappers
  import opened Buffers
  import opened Cipher

  /** The four key bytes for the block that starts at this position. */
  function KeyWord(size: nat, check: uint, start: nat): nat {
    (1734701672 * size + check) % 4294967296 + CheckByte(start % 256)
  }

  /** The k-th of the four, lowest first. */
  function ByteOf(word: nat, k: nat): byte
    requires k < 4
  {
    match k
    case 0 => word % 256
    case 1 => word / 256 % 256
    case 2 => word / 65536 % 256
    case _ => word / 16777216 % 256
  }

  /** The key byte for position p of a packet of this size; blocks of four start at multiples of four. */
  function KeyByte(size: nat, check: uint, p: nat): byte { ByteOf(KeyWord(size, check, p - p % 4), p % 4) }

  /** What becomes of a byte at position p: only the blocks that begin in the first quarter of the packet are scrambled. */
  function Scrambled(b: byte, size: nat, check: uint, p: nat): byte {
    if p - p % 4 < (size + 3) / 4 then Xor8(b, KeyByte(size, check, p)) else b
  }

  lemma BlockAt(d: seq<byte>, i: nat, size: nat, check: uint, j: nat)
    requires |d| == 4 && j < 4 && i % 4 == 0 && i < (size + 3) / 4
    ensures XorWord(d, Key(size, check) + CheckByte(i % 256))[j] == Scrambled(d[j], size, check, i + j)
  {
    assert (i + j) % 4 == j && i + j - (i + j) % 4 == i;
    KeyWordIs(size, check, i);
    hide Xor8, CheckByte, Key, KeyWord;
    WordAt(d, KeyWord(size, check, i), j);
    hide ByteOf, XorWord;
  }

  lemma KeyWordIs(size: nat, check: uint, start: nat)
    ensures KeyWord(size, check, start) == Key(size, check) + CheckByte(start % 256)
  {
    hide CheckByte;
  }

  lemma WordAt(d: seq<byte>, hex: nat, j: nat)
    requires |d| == 4 && j < 4
    ensures XorWord(d, hex)[j] == Xor8(d[j], ByteOf(hex, j))
  {
    hide Xor8;
  }

  lemma BlockIsLeft(b: byte, i: nat, size: nat, check: uint, j: nat)
    requires i % 4 == 0 && i >= (size + 3) / 4
    ensures Scrambled(b, size, check, i + j) == b
  {
    assert i + j - (i + j) % 4 >= i;
  }

  lemma {:induction false} ScrambledFrom(d: seq<byte>, i: nat, size: nat, check: uint, j: nat)
    requires 4 <= i <= size && |d| == size - i && i % 4 == 0 && j < |d|
    ensures Scramble(d, i, size, Key(size, check))[j] == Scrambled(d[j], size, check, i + j)
    decreases |d|
  {
    hide XorWord, CheckByte, Scrambled, Key;
    if i < (size + 3) / 4 {
      if j < 4 {
        BlockAt(d[..4], i, size, check, j);
      } else {
        ScrambledFrom(d[4..], i + 4, size, check, j - 4);
      }
    } else {
      BlockIsLeft(d[j], i, size, check, j);
    }
  }

  /** Behind c bytes and the check word comes the plaintext from byte 4 on, scrambled. */
  ghost predicate Carries(packet: seq<byte>, c: nat, plain: seq<byte>, check: uint)
    requires |packet| == c + |plain|
  {
    forall p :: 4 <= p < |plain| ==> packet[c + p] == Scrambled(plain[p], |plain|, check, p)
  }

  lemma Parts(h: seq<byte>, w: seq<byte>, s: seq<byte>)
    requires |h| >= 2 && |w| == 4
    ensures var packet, c := h + w + s, |h|;
      packet[0..2] == h[0..2] && packet[..c] == h && packet[c..c + 4] == w && packet[c + 4..] == s
  {
  }

  lemma BodyCarries(packet: seq<byte>, c: nat, plain: seq<byte>, check: uint)
    requires |packet| == c + |plain| && |plain| > 10
    requires packet[c + 4..] == Scramble(plain[4..], 4, |plain|, Key(|plain|, check))
    ensures Carries(packet, c, plain, check)
  {
    hide Scramble, Key, Scrambled;
    forall p | 4 <= p < |plain| ensures packet[c + p] == Scrambled(plain[p], |plain|, check, p) {
      ScrambledFrom(plain[4..], 4, |plain|, check, p - 4);
      assert packet[c + 4..][p - 4] == packet[c + p];
    }
  }

  /** A packet as it goes out: its first two bytes are the length of the rest, a 2 follows in version 7, then the check word
      and the scrambled plaintext. */
  lemma EncryptedBytes(version: nat, plain: seq<byte>, m1: byte, x2: byte)
    requires version == 6 || version == 7
    requires 10 < |plain| < 0xFFFF && m1 < |plain| && x2 < 220
    ensures var packet, c, check := Encrypt(version, plain, m1, x2), if version == 7 then 3 else 2, CheckWord(plain, m1, x2);
      && |packet| == c + |plain| && Unpack16(Little, packet[0..2]) == |packet| - 2 && (version == 7 ==> packet[2] == 2)
      && Unpack32(Little, packet[c..c + 4]) == check && Carries(packet, c, plain, check)
  {
    var size, check := |plain|, CheckWord(plain, m1, x2);
    var h, w := Header(version, size), Pack32(Little, check);
    var s := Scramble(plain[4..], 4, size, Key(size, check));
    Unpack32InvertsPack32(Little, check);
    HeaderBytes(version, size);
    Parts(h, w, s);
    BodyCarries(h + w + s, |h|, plain, check);
    hide Scramble, Key, CheckWord, Pack16, Pack32, Unpack16, Unpack32, Header, Carries;
    assert Encrypt(version, plain, m1, x2) == h + w + s;
    if version == 7 { assert h[2] == (h + w + s)[..|h|][2]; }
  }

  lemma HeaderBytes(version: nat, size: nat)
    requires (version == 6 || version == 7) && size < 0xFFFF
    ensures var h := Header(version, size);
      && |h| == (if version == 7 then 3 else 2) && (version == 7 ==> h[2] == 2)
      && Unpack16(Little, h[0..2]) == size + |h| - 2
  {
    Unpack16InvertsPack16(Little, (size + 1) % 0x1_0000);
    Unpack16InvertsPack16(Little, size % 0x1_0000);
    hide Pack16, Unpack16;
    assert Header(version, size)[0..2] == Pack16(Little, if version == 7 then size + 1 else size);
  }

  // ------------------------------------------------------------------
  //  Which packets are refused
  // ------------------------------------------------------------------

  /** The check word that claims byte x at position m and byte x3 at table position x2. */
  function Claim(out: seq<byte>, c: nat, m: byte, x: byte, x2: byte, x3: byte): uint
    requires |out| > c + 6
  {
    Xor32(Word(m, x, x2, x3), Word(out[c + 4], out[c + 6], out[c + 4], out[c + 6]))
  }

  /** Every check word is a claim. */
  lemma CheckIsClaim(out: seq<byte>, c: nat, check: uint) returns (m: byte, x: byte, x2: byte, x3: byte)
    requires |out| > c + 6
    ensures check == Claim(out, c, m, x, x2, x3)
  {
    var k := Word(out[c + 4], out[c + 6], out[c + 4], out[c + 6]);
    var b := Xor32(check, k);
    m, x, x2, x3 := Byte3(b), Byte2(b), Byte1(b), Byte0(b);
    WordOfBytes(b);
    XorTwice(check, k);
    hide Xor, Word;
  }

  lemma WordOfBytes(b: uint)
    ensures Word(Byte3(b), Byte2(b), Byte1(b), Byte0(b)) == b
  {
    assert b / 0x1_0000 == b / 0x100 / 0x100 && b / 0x100_0000 == b / 0x1_0000 / 0x100;
  }

  /** A packet is taken exactly if its check word claims a position behind the first ten bytes and inside the packet, the
      complement of the byte found there, and, for a position in the first 220 of the table, the complement of its byte. */
  lemma AcceptsIff(out: seq<byte>, c: nat, m: byte, x: byte, x2: byte, x3: byte)
    requires |out| > c + 6
    ensures Accepts(out, c, Claim(out, c, m, x, x2, x3)) <==>
      && 10 <= m < |out| - c && x == Xor8(out[c + m], 255) && (x2 < 220 ==> x3 == Xor8(CheckByte(x2), 255))
  {
    ClaimIsRead(out, c, m, x, x2, x3);
    WordBytes(m, x, x2, x3);
    hide Word, Xor8, Byte3, Byte2, Byte1, Byte0, CheckByte, Claim, Verification;
  }

  lemma ClaimIsRead(out: seq<byte>, c: nat, m: byte, x: byte, x2: byte, x3: byte)
    requires |out| > c + 6
    ensures Verification(out, c, Claim(out, c, m, x, x2, x3)) == Word(m, x, x2, x3)
  {
    var w, k := Word(m, x, x2, x3), Word(out[c + 4], out[c + 6], out[c + 4], out[c + 6]);
    XorTwice(w, k);
    XorCommutes(k, Xor(w, k));
    hide Word, Xor;
  }

  lemma XorCancels(a: nat, b: nat, k: nat)
    requires Xor(a, k) == Xor(b, k)
    ensures a == b
  {
    XorTwice(a, k);
    XorTwice(b, k);
    hide Xor;
  }

  /** So a packet whose hidden byte has been changed on the way is refused. */
  lemma ChangedByteIsRefused(out: seq<byte>, c: nat, check: uint, b: byte)
    requires |out| > c + 6 && Accepts(out, c, check)
    ensures var m := Byte3(Verification(out, c, check));
      && 10 <= m < |out| - c
      && (b != out[c + m] ==> !Accepts(out[c + m := b], c, check))
  {
    hide Xor, CheckByte;
    var m := Byte3(Verification(out, c, check));
    var forged := out[c + m := b];
    assert forged[c + 4] == out[c + 4] && forged[c + 6] == out[c + 6];
    if b != out[c + m] && Accepts(forged, c, check) { XorCancels(b, out[c + m], 255); }
  }

  /** What comes in, with its first quarter unscrambled by the key its check word makes. */
  function Unscrambled(version: nat, packet: seq<byte>): seq<byte>
    requires |packet| > Correction(version) + 6
  {
    var c := Correction(version);
    packet[..c + 4] + Scramble(packet[c + 4..], 4, |packet| - c, Key(|packet| - c, Unpack32(Little, packet[c..c + 4])))
  }

  lemma DecryptIs(version: nat, packet: seq<byte>)
    requires |packet| > Correction(version) + 6
    ensures var c, out := Correction(version), Unscrambled(version, packet);
      && |out| == |packet|
      && Decrypt(version, packet) == if Accepts(out, c, Unpack32(Little, packet[c..c + 4])) then Some(out) else None
  {
    hide Scramble, Key, Accepts, Unpack32;
  }

  /** A packet as it comes in is given out unscrambled if its check word makes a true claim about it, and refused if not. */
  lemma DecryptIff(version: nat, packet: seq<byte>, m: byte, x: byte, x2: byte, x3: byte)
    requires (version == 6 || version == 7) && |packet| > Correction(version) + 6
    requires var c := Correction(version);
      Unpack32(Little, packet[c..c + 4]) == Claim(Unscrambled(version, packet), c, m, x, x2, x3)
    ensures var c, out := if version == 7 then 3 else 2, Unscrambled(version, packet);
      Decrypt(version, packet) ==
        if 10 <= m < |packet| - c && x == Xor8(out[c + m], 255) && (x2 < 220 ==> x3 == Xor8(CheckByte(x2), 255)) then Some(out)
        else None
  {
    DecryptIs(version, packet);
    AcceptsIff(Unscrambled(version, packet), Correction(version), m, x, x2, x3);
    hide Decrypt, Accepts, Unscrambled, Claim, Xor8, CheckByte, Unpack32;
  }

  /** Every position from the tenth byte on, up to the 254th, may be picked to be hidden, and no other. */
  lemma PicksAnyPosition(size: nat, m: nat)
    requires size > 10
    ensures (exists r1: nat :: PickPosition(r1, size) == m) <==> 10 <= m < size && m < 255
  {
    if 10 <= m < size && m < 255 { assert PickPosition(m - 10, size) == m; }
  }
}
