/** The direct-connection scrambler (src/DirectClient.cpp: Encrypt and Decrypt). */
module Cipher {
  import opened Wrappers
  import opened Buffers

  // ------------------------------------------------------------------
  //  Exclusive or on unsigned integers
  // ------------------------------------------------------------------

  function Xor(a: nat, b: nat): nat
    decreases a + b
  {
    if a == 0 && b == 0 then 0 else 2 * Xor(a / 2, b / 2) + (a + b) % 2
  }

  lemma {:induction false} XorCommutes(a: nat, b: nat)
    ensures Xor(a, b) == Xor(b, a)
    decreases a + b
  {
    if a + b != 0 { XorCommutes(a / 2, b / 2); }
  }

  lemma {:induction false} XorTwice(a: nat, b: nat)
    ensures Xor(Xor(a, b), b) == a
    decreases a + b
  {
    if a + b != 0 {
      XorTwice(a / 2, b / 2);
      var x := Xor(a, b);
      assert x / 2 == Xor(a / 2, b / 2) && x % 2 == (a + b) % 2;
      Parity(a, b, x);
      assert Xor(x, b) == 2 * Xor(x / 2, b / 2) + (x + b) % 2;
    }
  }

  lemma Parity(a: nat, b: nat, x: nat)
    requires x % 2 == (a + b) % 2
    ensures (x + b) % 2 == a % 2
  {
  }

  function Pow2(n: nat): nat { if n == 0 then 1 else 2 * Pow2(n - 1) }

  lemma {:induction false} XorBound(a: nat, b: nat, n: nat)
    requires a < Pow2(n) && b < Pow2(n)
    ensures Xor(a, b) < Pow2(n)
    decreases n
  {
    if n > 0 && a + b != 0 { XorBound(a / 2, b / 2, n - 1); }
  }

  lemma Pow2Values()
    ensures Pow2(8) == 0x100 && Pow2(32) == 0x1_0000_0000
  {
    assert Pow2(4) == 0x10;
    assert Pow2(8) == 0x10 * Pow2(4);
    assert Pow2(12) == 0x10 * Pow2(8);
    assert Pow2(16) == 0x10 * Pow2(12);
    assert Pow2(20) == 0x10 * Pow2(16);
    assert Pow2(24) == 0x10 * Pow2(20);
    assert Pow2(28) == 0x10 * Pow2(24);
    assert Pow2(32) == 0x10 * Pow2(28);
  }

  function Xor8(a: byte, b: byte): byte {
    Pow2Values();
    XorBound(a, b, 8);
    Xor(a, b)
  }

  function Xor32(a: uint, b: uint): uint {
    Pow2Values();
    XorBound(a, b, 32);
    Xor(a, b)
  }

  /** b3 << 24 | b2 << 16 | b1 << 8 | b0 */
  function Word(b3: byte, b2: byte, b1: byte, b0: byte): uint {
    var c3: int, c2: int, c1: int, c0: int := b3, b2, b1, b0;
    c3 * 0x100_0000 + c2 * 0x1_0000 + c1 * 0x100 + c0
  }

  // ------------------------------------------------------------------
  //  The check table
  // ------------------------------------------------------------------

  const LINE1 := "As part of this software beta version Mirabilis is "
  const LINE2 := "granting a limited access to the ICQ network, "
  const LINE3 := "servers, directories, listings, information and databases (\""
  const LINE4 := "ICQ Services and Information\"). The "
  const LINE5 := "ICQ Service and Information may databases (\""
  const LINE6 := "ICQ Services and Information\"). The "
  const LINE7 := "ICQ Service and Information may\0\0"

  const CLIENT_CHECK_DATA := LINE1 + LINE2 + LINE3 + LINE4 + LINE5 + LINE6 + LINE7

  lemma CheckDataLength()
    ensures |CLIENT_CHECK_DATA| == 306
  {
    assert |LINE1| == 51 && |LINE2| == 46 && |LINE3| == 60 && |LINE4| == 36;
    assert |LINE5| == 44 && |LINE6| == 36 && |LINE7| == 33;
  }

  /** The table is ASCII text, so each character is its own byte. */
  function CheckByte(i: nat): byte
    requires i <= 0xFF
  {
    CheckDataLength();
    CLIENT_CHECK_DATA[i] as int % 0x100
  }

  // ------------------------------------------------------------------
  //  The XOR loop
  // ------------------------------------------------------------------

  /** Four bytes against the low 32 bits of hex, lowest first. */
  function XorWord(d: seq<byte>, hex: nat): (r: seq<byte>)
    requires |d| == 4
    ensures |r| == 4
  {
    [Xor8(d[0], hex % 0x100), Xor8(d[1], hex / 0x100 % 0x100),
     Xor8(d[2], hex / 0x1_0000 % 0x100), Xor8(d[3], hex / 0x100_0000 % 0x100)]
  }

  /** d is what is left to process when the loop variable is i, in a packet of size bytes. */
  function Scramble(d: seq<byte>, i: nat, size: nat, key: nat): (r: seq<byte>)
    requires 4 <= i <= size && |d| == size - i
    ensures |r| == |d|
    decreases |d|
  {
    if i < (size + 3) / 4 then
      XorWord(d[..4], key + CheckByte(i % 0x100)) + Scramble(d[4..], i + 4, size, key)
    else d
  }

  lemma XorWordTwice(d: seq<byte>, hex: nat)
    requires |d| == 4
    ensures XorWord(XorWord(d, hex), hex) == d
  {
    XorTwice(d[0], hex % 0x100);
    XorTwice(d[1], hex / 0x100 % 0x100);
    XorTwice(d[2], hex / 0x1_0000 % 0x100);
    XorTwice(d[3], hex / 0x100_0000 % 0x100);
  }

  lemma {:induction false} ScrambleTwice(d: seq<byte>, i: nat, size: nat, key: nat)
    requires 4 <= i <= size && |d| == size - i
    ensures Scramble(Scramble(d, i, size, key), i, size, key) == d
    decreases |d|
  {
    hide XorWord, CheckByte;
    if i < (size + 3) / 4 {
      var hex := key + CheckByte(i % 0x100);
      var w, rest := XorWord(d[..4], hex), Scramble(d[4..], i + 4, size, key);
      assert (w + rest)[..4] == w && (w + rest)[4..] == rest;
      XorWordTwice(d[..4], hex);
      ScrambleTwice(d[4..], i + 4, size, key);
      assert d[..4] + d[4..] == d;
    }
  }

  // ------------------------------------------------------------------
  //  Packets
  // ------------------------------------------------------------------

  function Header(version: nat, size: nat): (h: seq<byte>) {
    if version == 7 then Pack16(Little, (size + 1) % 0x1_0000) + [2] else Pack16(Little, size % 0x1_0000)
  }

  /** The header bytes before the check word: 3 in version 7, 2 in version 6. */
  function Correction(version: nat): nat { if version == 7 then 3 else 2 }

  function Key(size: nat, check: uint): uint { (0x67657268 * size + check) % 0x1_0000_0000 }

  /** The check word hides a position m1, the byte found there, and a table position x2. */
  function CheckWord(plain: seq<byte>, m1: byte, x2: byte): uint
    requires |plain| > 6 && m1 < |plain| && x2 < 220
  {
    Xor32(Word(m1, Xor8(plain[m1], 0xFF), x2, Xor8(CheckByte(x2), 0xFF)),
          Word(plain[4], plain[6], plain[4], plain[6]))
  }

  /** plain starts with four bytes reserved for the check word. */
  function Encrypt(version: nat, plain: seq<byte>, m1: byte, x2: byte): seq<byte>
    requires |plain| > 10 && m1 < |plain| && x2 < 220
  {
    var size := |plain|;
    var check := CheckWord(plain, m1, x2);
    Header(version, size) + Pack32(Little, check) + Scramble(plain[4..], 4, size, Key(size, check))
  }

  /** The verification bytes B1 of an unscrambled packet whose body starts at offset c. */
  function Verification(out: seq<byte>, c: nat, check: uint): uint
    requires |out| > c + 6
  {
    Xor32(Word(out[4 + c], out[6 + c], out[4 + c], out[6 + c]), check)
  }

  /** The bytes of a word, highest first. */
  function Byte3(w: uint): byte { w / 0x100_0000 }
  function Byte2(w: uint): byte { w / 0x1_0000 % 0x100 }
  function Byte1(w: uint): byte { w / 0x100 % 0x100 }
  function Byte0(w: uint): byte { w % 0x100 }

  predicate Accepts(out: seq<byte>, c: nat, check: uint)
    requires |out| > c + 6
  {
    var b1 := Verification(out, c, check);
    var m1, x1, x2, x3 := Byte3(b1), Byte2(b1), Byte1(b1), Byte0(b1);
    && 10 <= m1 < |out| - c
    && x1 == Xor8(out[m1 + c], 0xFF)
    && (x2 < 220 ==> x3 == Xor8(CheckByte(x2), 0xFF))
  }

  /** Decrypt on a packet with at least seven bytes after the header. */
  function Decrypt(version: nat, packet: seq<byte>): Option<seq<byte>>
    requires |packet| > Correction(version) + 6
  {
    var c := Correction(version);
    var size := |packet| - c;
    var check := Unpack32(Little, packet[c..c + 4]);
    var out := packet[..c + 4] + Scramble(packet[c + 4..], 4, size, Key(size, check));
    if Accepts(out, c, check) then Some(out) else None
  }

  /** The check word gives back exactly what was hidden in it. */
  lemma VerificationOfCheckWord(plain: seq<byte>, m1: byte, x2: byte)
    requires |plain| > 6 && m1 < |plain| && x2 < 220
    ensures Xor32(Word(plain[4], plain[6], plain[4], plain[6]), CheckWord(plain, m1, x2))
         == Word(m1, Xor8(plain[m1], 0xFF), x2, Xor8(CheckByte(x2), 0xFF))
  {
    var w := Word(m1, Xor8(plain[m1], 0xFF), x2, Xor8(CheckByte(x2), 0xFF));
    var b := Word(plain[4], plain[6], plain[4], plain[6]);
    XorTwice(w, b);
    XorCommutes(b, Xor(w, b));
  }

  lemma WordBytes(b3: byte, b2: byte, b1: byte, b0: byte)
    ensures var w := Word(b3, b2, b1, b0); Byte3(w) == b3 && Byte2(w) == b2 && Byte1(w) == b1 && Byte0(w) == b0
  {
    var w := Word(b3, b2, b1, b0);
    var c3: int, c2: int, c1: int := b3, b2, b1;
    DivMod256(c3 * 0x1_0000 + c2 * 0x100 + c1, b0, w);
    DivMod256(c3 * 0x100 + c2, b1, w / 0x100);
    DivMod256(c3, b2, w / 0x1_0000) by { assert w / 0x1_0000 == w / 0x100 / 0x100; }
    assert w / 0x100_0000 == w / 0x1_0000 / 0x100;
  }

  lemma DivMod256(q: int, r: byte, w: int)
    requires w == q * 0x100 + r
    ensures w / 0x100 == q && w % 0x100 == r
  {
  }

  lemma HeaderLength(version: nat, size: nat)
    ensures |Header(version, size)| == Correction(version)
  {
  }

  /** Unscrambling gives back the plaintext from byte 4 on, under the check word. */
  lemma Unscrambles(version: nat, plain: seq<byte>, m1: byte, x2: byte)
    requires |plain| > 10 && m1 < |plain| && x2 < 220
    ensures var c, check, packet := Correction(version), CheckWord(plain, m1, x2), Encrypt(version, plain, m1, x2);
      && |packet| == c + |plain| && Unpack32(Little, packet[c..c + 4]) == check
      && packet[..c + 4] + Scramble(packet[c + 4..], 4, |plain|, Key(|plain|, check))
         == Header(version, |plain|) + Pack32(Little, check) + plain[4..]
  {
    var c, size, check := Correction(version), |plain|, CheckWord(plain, m1, x2);
    var h, w, packet := Header(version, size), Pack32(Little, check), Encrypt(version, plain, m1, x2);
    var s := Scramble(plain[4..], 4, size, Key(size, check));
    HeaderLength(version, size);
    Unpack32InvertsPack32(Little, check);
    ScrambleTwice(plain[4..], 4, size, Key(size, check));
    hide Header, Pack32, Unpack32, Scramble, Key, CheckWord, Correction;
    assert packet == h + w + s;
    assert packet[c..c + 4] == w && packet[..c + 4] == h + w && packet[c + 4..] == s;
  }

  lemma PlainIsAccepted(head: seq<byte>, plain: seq<byte>, c: nat, m1: byte, x2: byte)
    requires |plain| > 10 && 10 <= m1 < |plain| && x2 < 220 && |head| == c + 4
    ensures Accepts(head + plain[4..], c, CheckWord(plain, m1, x2))
  {
    var out := head + plain[4..];
    assert out[4 + c] == plain[4] && out[6 + c] == plain[6] && out[m1 + c] == plain[m1];
    VerificationOfCheckWord(plain, m1, x2);
    WordBytes(m1, Xor8(plain[m1], 0xFF), x2, Xor8(CheckByte(x2), 0xFF));
    hide Xor32, Xor8, Word, CheckByte, CheckWord, Byte3, Byte2, Byte1, Byte0;
    VerificationUnfolds(out, c, CheckWord(plain, m1, x2));
  }

  lemma VerificationUnfolds(out: seq<byte>, c: nat, check: uint)
    requires |out| > c + 6
    ensures Verification(out, c, check) == Xor32(Word(out[4 + c], out[6 + c], out[4 + c], out[6 + c]), check)
  {
  }

  /** For both versions, every plaintext longer than ten bytes and every random choice, Decrypt
      accepts what Encrypt made and gives back the header, the check word and the plaintext from byte 4 on. */
  lemma DecryptInvertsEncrypt(version: nat, plain: seq<byte>, m1: byte, x2: byte)
    requires version == 6 || version == 7
    requires |plain| > 10 && 10 <= m1 < |plain| && x2 < 220
    ensures |Encrypt(version, plain, m1, x2)| > Correction(version) + 6
    ensures Decrypt(version, Encrypt(version, plain, m1, x2))
         == Some(Header(version, |plain|) + Pack32(Little, CheckWord(plain, m1, x2)) + plain[4..])
  {
    var check := CheckWord(plain, m1, x2);
    Unscrambles(version, plain, m1, x2);
    HeaderLength(version, |plain|);
    hide Encrypt, Header, Pack32, Unpack32, Scramble, Key, CheckWord, Accepts, Correction;
    PlainIsAccepted(Header(version, |plain|) + Pack32(Little, check), plain, Correction(version), m1, x2);
  }

  // ------------------------------------------------------------------
  //  The methods; r1 and r2 are what rand() returned
  // ------------------------------------------------------------------

  /** The random position that Encrypt hides. */
  function PickPosition(r1: nat, size: nat): (m1: byte)
    requires size > 10
    ensures 10 <= m1 < size
  {
    r1 % ((if size < 255 then size else 255) - 10) + 10
  }

  method XorFour(input: Buffer, output: Buffer, hex: nat)
    requires input != output && input.pos + 4 <= |input.data|
    modifies input`pos, output`data
    ensures input.pos == old(input.pos) + 4
    ensures output.data == old(output.data) + XorWord(input.data[old(input.pos)..input.pos], hex)
  {
    var c0 := input.Get8();
    output.Put8(Xor8(c0, hex % 0x100));
    var c1 := input.Get8();
    output.Put8(Xor8(c1, hex / 0x100 % 0x100));
    var c2 := input.Get8();
    output.Put8(Xor8(c2, hex / 0x1_0000 % 0x100));
    var c3 := input.Get8();
    output.Put8(Xor8(c3, hex / 0x100_0000 % 0x100));
    assert input.data[old(input.pos)..input.pos] == [c0, c1, c2, c3];
  }

  method CopyRest(input: Buffer, output: Buffer)
    requires input != output && input.pos <= |input.data|
    modifies input`pos, output`data
    ensures output.data == old(output.data) + input.data[old(input.pos)..]
  {
    ghost var start := input.pos;
    while input.pos < |input.data|
      invariant start <= input.pos <= |input.data|
      invariant output.data == old(output.data) + input.data[start..input.pos]
      decreases |input.data| - input.pos
    {
      var c := input.Get8();
      output.Put8(c);
    }
  }

  /** The loop reads four bytes a turn and never runs past the end of the input. */
  method XorLoop(input: Buffer, output: Buffer, size: nat, key: nat)
    requires input != output && 4 <= size && input.pos + (size - 4) == |input.data|
    modifies input`pos, output`data
    ensures output.data == old(output.data) + Scramble(input.data[old(input.pos)..], 4, size, key)
  {
    hide XorWord, CheckByte;
    ghost var scrambled := Scramble(input.data[input.pos..], 4, size, key);
    var i := 4;
    while i < (size + 3) / 4
      invariant 4 <= i <= size && input.pos + (size - i) == |input.data|
      invariant output.data + Scramble(input.data[input.pos..], i, size, key) == old(output.data) + scrambled
      decreases size - i
    {
      ghost var d := input.data[input.pos..];
      ghost var before := output.data;
      XorFour(input, output, key + CheckByte(i % 0x100));
      assert d[4..] == input.data[input.pos..] && d[..4] == input.data[input.pos - 4..input.pos];
      ghost var w := XorWord(d[..4], key + CheckByte(i % 0x100));
      assert before + (w + Scramble(d[4..], i + 4, size, key)) == (before + w) + Scramble(d[4..], i + 4, size, key);
      i := i + 4;
    }
    CopyRest(input, output);
  }

  method EncryptMethod(version: nat, input: Buffer, output: Buffer, r1: nat, r2: nat)
    requires version == 6 || version == 7
    requires input != output && input.pos == 0 && |input.data| > 10 && output.data == []
    modifies input`pos, input`endn, output`data, output`endn
    ensures output.data == Encrypt(version, input.data, PickPosition(r1, |input.data|), r2 % 220)
  {
    hide Xor8, Xor32, Word, CheckByte, Pack16, Pack32, Scramble, Key;
    var size := |input.data|;
    input.SetEndianness(Little);
    output.SetEndianness(Little);
    if version == 7 {
      output.Put16((size + 1) % 0x1_0000);
      output.Put8(2);
    } else {
      output.Put16(size % 0x1_0000);
    }
    var m1 := PickPosition(r1, size);
    var x1 := Xor8(input.data[m1], 0xFF);
    var x2 := r2 % 220;
    var x3 := Xor8(CheckByte(x2), 0xFF);
    var b1 := Word(input.data[4], input.data[6], input.data[4], input.data[6]);
    var check := Xor32(Word(m1, x1, x2, x3), b1);
    output.Put32(check);
    input.Advance(4);
    XorLoop(input, output, size, Key(size, check));
    assert output.data == Header(version, size) + Pack32(Little, check)
                          + Scramble(input.data[4..], 4, size, Key(size, check));
  }

  /** Copies the header and the check word over, byte for byte. */
  method DecryptHead(version: nat, input: Buffer, output: Buffer) returns (check: uint)
    requires version == 6 || version == 7
    requires input != output && input.pos == 0 && output.data == []
    requires |input.data| > Correction(version) + 6
    modifies input`pos, input`endn, output`data, output`endn
    ensures input.pos == Correction(version) + 4
    ensures output.data == input.data[..input.pos]
    ensures check == Unpack32(Little, input.data[Correction(version)..Correction(version) + 4])
  {
    input.SetEndianness(Little);
    output.SetEndianness(Little);
    var length := input.Get16();
    output.Put16(length);
    RepackShort(input.data);
    if version == 7 {
      var startByte := input.Get8();
      output.Put8(startByte);
    }
    ghost var c := input.pos;
    assert output.data == input.data[..c];
    check := input.Get32();
    output.Put32(check);
    RepackInt(input.data[c..c + 4]);
    assert input.data[..c + 4] == input.data[..c] + input.data[c..c + 4];
  }

  method Validate(out: Buffer, c: nat, size: nat, check: uint) returns (ok: bool)
    requires |out.data| == c + size && size > 6
    ensures ok == Accepts(out.data, c, check)
  {
    hide Xor8, Xor32, Word, CheckByte, Byte3, Byte2, Byte1, Byte0;
    var o := out.data;
    var b1 := Xor32(Word(o[4 + c], o[6 + c], o[4 + c], o[6 + c]), check);
    var m1 := Byte3(b1);
    if m1 < 10 || m1 >= size { return false; }
    var x1 := Xor8(o[m1 + c], 0xFF);
    if Byte2(b1) != x1 { return false; }
    var x2 := Byte1(b1);
    if x2 < 220 {
      var x3 := Xor8(CheckByte(x2), 0xFF);
      if Byte0(b1) != x3 { return false; }
    }
    ok := true;
  }

  method DecryptMethod(version: nat, input: Buffer, output: Buffer) returns (ok: bool)
    requires version == 6 || version == 7
    requires input != output && input.pos == 0 && output.data == []
    requires |input.data| > Correction(version) + 6
    modifies input`pos, input`endn, output`data, output`endn
    ensures |output.data| == |input.data|
    ensures Decrypt(version, input.data) == if ok then Some(output.data) else None
  {
    var c := if version == 7 then 3 else 2;
    var size := |input.data| - c;
    var check := DecryptHead(version, input, output);
    XorLoop(input, output, size, Key(size, check));
    ok := Validate(output, c, size, check);
  }

  lemma RepackShort(d: seq<byte>)
    requires |d| >= 2
    ensures Pack16(Little, Unpack16(Little, d[0..2])) == d[..2]
  {
  }

  lemma RepackInt(d: seq<byte>)
    requires |d| == 4
    ensures Pack32(Little, Unpack32(Little, d)) == d
  {
    var lo, hi := Unpack16(Little, d[..2]), Unpack16(Little, d[2..]);
    var l := Unpack32(Little, d);
    assert l / 0x1_0000 == hi && l % 0x1_0000 == lo;
    assert Pack16(Little, lo) == d[..2] && Pack16(Little, hi) == d[2..];
  }
}
