/** One block, worked: the sixteen round keys of the key 133457799bbcdff1, and the sixteen rounds that take the block
    0123456789abcdef under it to 85e813540f0ab405, as every implementation of FIPS 46 has them. */
module DesExample {
  import opened Bits
  import opened DesTables
  import opened DesKeys
  import opened DesPermutation
  import opened DesRound
  import opened DesCipher
  import opened DesLoginKey

  // ---- Bits of the round function in closed form

  function Six(a: bool, b: bool, c: bool, d: bool, e: bool, f: bool): byte {
    Append(Append(Append(Append(Append(Append(0, a), b), c), d), e), f)
  }

  lemma ExpandedSix(half: bv32, i: nat)
    requires i < 8
    ensures var e := Expansion(i);
      Expanded(half, i, 6) == Six(WordBit(half, 32 - e[0]), WordBit(half, 32 - e[1]), WordBit(half, 32 - e[2]),
                                  WordBit(half, 32 - e[3]), WordBit(half, 32 - e[4]), WordBit(half, 32 - e[5]))
  {
    hide Expansion, Append, WordBit, Expanded;
    ExpandedZero(half, i);
    ExpandedNext(half, i, 0);
    ExpandedNext(half, i, 1);
    ExpandedNext(half, i, 2);
    ExpandedNext(half, i, 3);
    ExpandedNext(half, i, 4);
    ExpandedNext(half, i, 5);
  }

  /** The last six bits of a half turned left by `4 * i + 5` places. */
  function Turned(half: bv32, i: nat): byte
    requires i < 8
  {
    var t := match i
      case 0 => (half << 5) | (half >> 27)
      case 1 => half >> 23
      case 2 => half >> 19
      case 3 => half >> 15
      case 4 => half >> 11
      case 5 => half >> 7
      case 6 => half >> 3
      case _ => (half << 1) | (half >> 31);
    (t & 0x3f) as bv8
  }

  /** The expansion takes each chunk from the half turned by four places more. */
  lemma ExpandedIs(half: bv32, i: nat)
    requires i < 8
    ensures Expanded(half, i, 6) == Turned(half, i)
  {
    hide *;
    if i < 4 {
      if i == 0 { Expanded0(half); } else if i == 1 { Expanded1(half); } else if i == 2 { Expanded2(half); } else { Expanded3(half); }
    } else {
      if i == 4 { Expanded4(half); } else if i == 5 { Expanded5(half); } else if i == 6 { Expanded6(half); } else { Expanded7(half); }
    }
  }

  lemma Expanded0(half: bv32)
    ensures Expanded(half, 0, 6) == Turned(half, 0)
  {
    hide Expanded;
    ExpandedSix(half, 0);
  }

  lemma Expanded1(half: bv32)
    ensures Expanded(half, 1, 6) == Turned(half, 1)
  {
    hide Expanded;
    ExpandedSix(half, 1);
  }

  lemma Expanded2(half: bv32)
    ensures Expanded(half, 2, 6) == Turned(half, 2)
  {
    hide Expanded;
    ExpandedSix(half, 2);
  }

  lemma Expanded3(half: bv32)
    ensures Expanded(half, 3, 6) == Turned(half, 3)
  {
    hide Expanded;
    ExpandedSix(half, 3);
  }

  lemma Expanded4(half: bv32)
    ensures Expanded(half, 4, 6) == Turned(half, 4)
  {
    hide Expanded;
    ExpandedSix(half, 4);
  }

  lemma Expanded5(half: bv32)
    ensures Expanded(half, 5, 6) == Turned(half, 5)
  {
    hide Expanded;
    ExpandedSix(half, 5);
  }

  lemma Expanded6(half: bv32)
    ensures Expanded(half, 6, 6) == Turned(half, 6)
  {
    hide Expanded;
    ExpandedSix(half, 6);
  }

  lemma Expanded7(half: bv32)
    ensures Expanded(half, 7, 6) == Turned(half, 7)
  {
    hide Expanded;
    ExpandedSix(half, 7);
  }

  lemma Append32Bits(x: bv32, bit: bool, m: nat)
    requires m < 32
    ensures WordBit(Append32(x, bit), m) == if m == 0 then bit else WordBit(x, m - 1)
  {
    hide *;
    if m < 16 { if m < 8 { AppendA(x, bit, m); } else { AppendB(x, bit, m); } }
    else { if m < 24 { AppendC(x, bit, m); } else { AppendD(x, bit, m); } }
  }

  lemma AppendA(x: bv32, bit: bool, m: nat)
    requires m < 8
    ensures WordBit(Append32(x, bit), m) == if m == 0 then bit else WordBit(x, m - 1)
  {
    assert m in {0, 1, 2, 3, 4, 5, 6, 7};
  }

  lemma AppendB(x: bv32, bit: bool, m: nat)
    requires 8 <= m < 16
    ensures WordBit(Append32(x, bit), m) == WordBit(x, m - 1)
  {
    assert m in {8, 9, 10, 11, 12, 13, 14, 15};
  }

  lemma AppendC(x: bv32, bit: bool, m: nat)
    requires 16 <= m < 24
    ensures WordBit(Append32(x, bit), m) == WordBit(x, m - 1)
  {
    assert m in {16, 17, 18, 19, 20, 21, 22, 23};
  }

  lemma AppendD(x: bv32, bit: bool, m: nat)
    requires 24 <= m < 32
    ensures WordBit(Append32(x, bit), m) == WordBit(x, m - 1)
  {
    assert m in {24, 25, 26, 27, 28, 29, 30, 31};
  }

  /** Bit `j` from the top of the permuted word is the bit that the table names. */
  lemma {:induction false} PermuteBit(w: bv32, n: nat, j: nat)
    requires j < n <= 32
    ensures WordBit(Permute(w, n), n - 1 - j) == WordBit(w, 32 - Permuted(j))
  {
    hide WordBit, Append32, Permuted;
    if j < n - 1 {
      PermuteBit(w, n - 1, j);
    }
    Append32Bits(Permute(w, n - 1), WordBit(w, 32 - Permuted(n - 1)), n - 1 - j);
  }

  /** Eight of the permuted bits. */
  function Eight(w: bv32, n: nat): byte
    requires n <= 24
  {
    Append(Append(Six(WordBit(w, 32 - Permuted(n)), WordBit(w, 32 - Permuted(n + 1)), WordBit(w, 32 - Permuted(n + 2)),
      WordBit(w, 32 - Permuted(n + 3)), WordBit(w, 32 - Permuted(n + 4)), WordBit(w, 32 - Permuted(n + 5))),
      WordBit(w, 32 - Permuted(n + 6))), WordBit(w, 32 - Permuted(n + 7)))
  }

  lemma EightBits(w: bv32, n: nat, j: nat)
    requires n <= 24 && j < 8
    ensures Has(Eight(w, n), 7 - j) == WordBit(w, 32 - Permuted(n + j))
  {
    hide WordBit, Permuted;
  }

  lemma PermuteIs(w: bv32)
    ensures Permute(w, 32) == Word(Eight(w, 0), Eight(w, 8), Eight(w, 16), Eight(w, 24))
  {
    hide Permute, Eight, Has, Word, B0, B1, B2, B3, Permuted;
    var p := Permute(w, 32);
    ByteIs(w, B0(p), 0);
    ByteIs(w, B1(p), 8);
    ByteIs(w, B2(p), 16);
    ByteIs(w, B3(p), 24);
    WordOfBytes(p);
  }

  lemma ByteIs(w: bv32, b: byte, n: nat)
    requires n in {0, 8, 16, 24}
    requires b == var p := Permute(w, 32); if n == 0 then B0(p) else if n == 8 then B1(p) else if n == 16 then B2(p) else B3(p)
    ensures b == Eight(w, n)
  {
    hide Permute, Eight, Has, B0, B1, B2, B3, Permuted;
    forall m | 0 <= m < 8
      ensures Has(b, m) == Has(Eight(w, n), m)
    {
      EightBits(w, n, 7 - m);
      PermuteBit(w, 32, n + 7 - m);
    }
    SameBits(b, Eight(w, n));
  }

  // ---- Registers

  /** One left move of both registers, or two. */
  lemma NextRegister(x: bv32, i: nat)
    requires Fits(x) && i < 15
    ensures var r := RotN(x, Position(false, i));
      RotN(x, Position(false, i + 1)) == if Step(LEFT_MASK, i + 1) == 1 then RotL(r) else RotL(RotL(r))
  {
    hide RotN, RotL, Step;
    var p := Position(false, i);
    RotFits(x, p);
    Move(RotN(x, p));
    RotAdd(x, p, 27);
    RotFits(x, p + 27);
    Move(RotN(x, p + 27));
    RotAdd(x, p + 27, 27);
  }

  lemma Move(x: bv32)
    requires Fits(x)
    ensures RotL(x) == RotN(x, 27) && Fits(RotL(x))
  {
    hide RotN, RotL;
    LeftIsRight27(x);
    RotFits(x, 27);
  }

  // ---- What a round computes

  lemma RoundIs(left: bv32, right: bv32, l: bv32, r: bv32, core: bv32, out: bv32)
    requires Core(r, RoundKey(left, right)) == core && Permute(core, 32) == out
    ensures Round(left, right, Halves(l, r), 0, false) == Halves(r, l ^ out)
  {
    hide Core, RoundKey, Permute, Word, B0, B1, B2, B3, Twist;
    NoTwist(B0(r));
    WordOfBytes(r);
  }

  lemma CoreIs(left: bv32, right: bv32, r: bv32, n0: byte, n1: byte, n2: byte, n3: byte, n4: byte, n5: byte, n6: byte, n7: byte)
    requires var k := RoundKey(left, right);
      && Nibble(r, k[0], 0) == n0 && Nibble(r, k[1], 1) == n1 && Nibble(r, k[2], 2) == n2 && Nibble(r, k[3], 3) == n3
      && Nibble(r, k[4], 4) == n4 && Nibble(r, k[5], 5) == n5 && Nibble(r, k[6], 6) == n6 && Nibble(r, k[7], 7) == n7
    ensures Core(r, RoundKey(left, right)) == Word((n0 << 4) | n1, (n2 << 4) | n3, (n4 << 4) | n5, (n6 << 4) | n7)
  {
    hide Nibble, RoundKey, Word;
  }

  lemma NibbleIs(r: bv32, k: byte, i: nat, six: byte, out: byte)
    requires i < 8 && k < 64 && six < 64 && Turned(r, i) ^ k == six && Select(i, six) == out
    ensures Nibble(r, k, i) == out
  {
    hide Turned, Expanded, Select;
    ExpandedIs(r, i);
  }

  // ---- The example

  lemma Registers0()
    ensures RotN(0x0f0ccaaf, Position(false, 0)) == 0x0e19955f && RotN(0x0556678f, Position(false, 0)) == 0x0aaccf1e
  {
    hide RotN;
    Steps(0);
    LeftIsRight27(0x0f0ccaaf);
    LeftIsRight27(0x0556678f);
    assert Total(LEFT_MASK, 1) == 1;
  }

  lemma Key0Low()
    ensures Chunk(0x0e19955f, 0x0aaccf1e, 0, 6) == 0x06 && Chunk(0x0e19955f, 0x0aaccf1e, 1, 6) == 0x30
    ensures Chunk(0x0e19955f, 0x0aaccf1e, 2, 6) == 0x0b && Chunk(0x0e19955f, 0x0aaccf1e, 3, 6) == 0x2f
  {}

  lemma Key0High()
    ensures Chunk(0x0e19955f, 0x0aaccf1e, 4, 6) == 0x3f && Chunk(0x0e19955f, 0x0aaccf1e, 5, 6) == 0x07
    ensures Chunk(0x0e19955f, 0x0aaccf1e, 6, 6) == 0x01 && Chunk(0x0e19955f, 0x0aaccf1e, 7, 6) == 0x32
  {}

  lemma Key0()
    ensures RoundKey(0x0e19955f, 0x0aaccf1e) == [0x06, 0x30, 0x0b, 0x2f, 0x3f, 0x07, 0x01, 0x32]
  {
    hide Chunk;
    Key0Low();
    Key0High();
  }

  lemma Round0()
    ensures Round(0x0e19955f, 0x0aaccf1e, Halves(0xcc00ccff, 0xf0aaf0aa), 0, false) == Halves(0xf0aaf0aa, 0xef4a6544)
  {
    hide RoundKey, Chunk, Nibble, Core, Permute, Round;
    Key0();
    NibbleIs(0xf0aaf0aa, 0x06, 0, 0x18, 0x5); NibbleIs(0xf0aaf0aa, 0x30, 1, 0x11, 0xc);
    NibbleIs(0xf0aaf0aa, 0x0b, 2, 0x1e, 0x8); NibbleIs(0xf0aaf0aa, 0x2f, 3, 0x3a, 0x2);
    NibbleIs(0xf0aaf0aa, 0x3f, 4, 0x21, 0xb); NibbleIs(0xf0aaf0aa, 0x07, 5, 0x26, 0x5);
    NibbleIs(0xf0aaf0aa, 0x01, 6, 0x14, 0x9); NibbleIs(0xf0aaf0aa, 0x32, 7, 0x27, 0x7);
    CoreIs(0x0e19955f, 0x0aaccf1e, 0xf0aaf0aa, 0x5, 0xc, 0x8, 0x2, 0xb, 0x5, 0x9, 0x7);
    PermuteIs(0x5c82b597);
    RoundIs(0x0e19955f, 0x0aaccf1e, 0xcc00ccff, 0xf0aaf0aa, 0x5c82b597, 0x234aa9bb);
  }

  lemma Registers1()
    ensures RotN(0x0f0ccaaf, Position(false, 1)) == 0x0c332abf && RotN(0x0556678f, Position(false, 1)) == 0x05599e3d
  {
    hide RotN, Position, Step;
    Registers0();
    Steps(1);
    NextRegister(0x0f0ccaaf, 0);
    NextRegister(0x0556678f, 0);
  }

  lemma Key1Low()
    ensures Chunk(0x0c332abf, 0x05599e3d, 0, 6) == 0x1e && Chunk(0x0c332abf, 0x05599e3d, 1, 6) == 0x1a
    ensures Chunk(0x0c332abf, 0x05599e3d, 2, 6) == 0x3b && Chunk(0x0c332abf, 0x05599e3d, 3, 6) == 0x19
  {}

  lemma Key1High()
    ensures Chunk(0x0c332abf, 0x05599e3d, 4, 6) == 0x36 && Chunk(0x0c332abf, 0x05599e3d, 5, 6) == 0x3c
    ensures Chunk(0x0c332abf, 0x05599e3d, 6, 6) == 0x27 && Chunk(0x0c332abf, 0x05599e3d, 7, 6) == 0x25
  {}

  lemma Key1()
    ensures RoundKey(0x0c332abf, 0x05599e3d) == [0x1e, 0x1a, 0x3b, 0x19, 0x36, 0x3c, 0x27, 0x25]
  {
    hide Chunk;
    Key1Low();
    Key1High();
  }

  lemma Round1()
    ensures Round(0x0c332abf, 0x05599e3d, Halves(0xf0aaf0aa, 0xef4a6544), 0, false) == Halves(0xef4a6544, 0xcc017709)
  {
    hide RoundKey, Chunk, Nibble, Core, Permute, Round;
    Key1();
    NibbleIs(0xef4a6544, 0x1e, 0, 0x03, 0xf); NibbleIs(0xef4a6544, 0x1a, 1, 0x04, 0x8);
    NibbleIs(0xef4a6544, 0x3b, 2, 0x12, 0xd); NibbleIs(0xef4a6544, 0x19, 3, 0x0d, 0x0);
    NibbleIs(0xef4a6544, 0x36, 4, 0x3a, 0x3); NibbleIs(0xef4a6544, 0x3c, 5, 0x36, 0xa);
    NibbleIs(0xef4a6544, 0x27, 6, 0x0f, 0xa); NibbleIs(0xef4a6544, 0x25, 7, 0x2c, 0xe);
    CoreIs(0x0c332abf, 0x05599e3d, 0xef4a6544, 0xf, 0x8, 0xd, 0x0, 0x3, 0xa, 0xa, 0xe);
    PermuteIs(0xf8d03aae);
    RoundIs(0x0c332abf, 0x05599e3d, 0xf0aaf0aa, 0xef4a6544, 0xf8d03aae, 0x3cab87a3);
  }

  lemma Registers2()
    ensures RotN(0x0f0ccaaf, Position(false, 2)) == 0x00ccaaff && RotN(0x0556678f, Position(false, 2)) == 0x056678f5
  {
    hide RotN, Position, Step;
    Registers1();
    Steps(2);
    NextRegister(0x0f0ccaaf, 1);
    NextRegister(0x0556678f, 1);
  }

  lemma Key2Low()
    ensures Chunk(0x00ccaaff, 0x056678f5, 0, 6) == 0x15 && Chunk(0x00ccaaff, 0x056678f5, 1, 6) == 0x1f
    ensures Chunk(0x00ccaaff, 0x056678f5, 2, 6) == 0x32 && Chunk(0x00ccaaff, 0x056678f5, 3, 6) == 0x0a
  {}

  lemma Key2High()
    ensures Chunk(0x00ccaaff, 0x056678f5, 4, 6) == 0x10 && Chunk(0x00ccaaff, 0x056678f5, 5, 6) == 0x2c
    ensures Chunk(0x00ccaaff, 0x056678f5, 6, 6) == 0x3e && Chunk(0x00ccaaff, 0x056678f5, 7, 6) == 0x19
  {}

  lemma Key2()
    ensures RoundKey(0x00ccaaff, 0x056678f5) == [0x15, 0x1f, 0x32, 0x0a, 0x10, 0x2c, 0x3e, 0x19]
  {
    hide Chunk;
    Key2Low();
    Key2High();
  }

  lemma Round2()
    ensures Round(0x00ccaaff, 0x056678f5, Halves(0xef4a6544, 0xcc017709), 0, false) == Halves(0xcc017709, 0xa25c0bf4)
  {
    hide RoundKey, Chunk, Nibble, Core, Permute, Round;
    Key2();
    NibbleIs(0xcc017709, 0x15, 0, 0x2c, 0x2); NibbleIs(0xcc017709, 0x1f, 1, 0x07, 0x7);
    NibbleIs(0xcc017709, 0x32, 2, 0x32, 0x1); NibbleIs(0xcc017709, 0x0a, 3, 0x08, 0x0);
    NibbleIs(0xcc017709, 0x10, 4, 0x3e, 0xe); NibbleIs(0xcc017709, 0x2c, 5, 0x02, 0x1);
    NibbleIs(0xcc017709, 0x3e, 6, 0x1f, 0x6); NibbleIs(0xcc017709, 0x19, 7, 0x0a, 0xf);
    CoreIs(0x00ccaaff, 0x056678f5, 0xcc017709, 0x2, 0x7, 0x1, 0x0, 0xe, 0x1, 0x6, 0xf);
    PermuteIs(0x2710e16f);
    RoundIs(0x00ccaaff, 0x056678f5, 0xef4a6544, 0xcc017709, 0x2710e16f, 0x4d166eb0);
  }

  lemma Registers3()
    ensures RotN(0x0f0ccaaf, Position(false, 3)) == 0x0332abfc && RotN(0x0556678f, Position(false, 3)) == 0x0599e3d5
  {
    hide RotN, Position, Step;
    Registers2();
    Steps(3);
    NextRegister(0x0f0ccaaf, 2);
    NextRegister(0x0556678f, 2);
  }

  lemma Key3Low()
    ensures Chunk(0x0332abfc, 0x0599e3d5, 0, 6) == 0x1c && Chunk(0x0332abfc, 0x0599e3d5, 1, 6) == 0x2a
    ensures Chunk(0x0332abfc, 0x0599e3d5, 2, 6) == 0x37 && Chunk(0x0332abfc, 0x0599e3d5, 3, 6) == 0x16
  {}

  lemma Key3High()
    ensures Chunk(0x0332abfc, 0x0599e3d5, 4, 6) == 0x36 && Chunk(0x0332abfc, 0x0599e3d5, 5, 6) == 0x33
    ensures Chunk(0x0332abfc, 0x0599e3d5, 6, 6) == 0x14 && Chunk(0x0332abfc, 0x0599e3d5, 7, 6) == 0x1d
  {}

  lemma Key3()
    ensures RoundKey(0x0332abfc, 0x0599e3d5) == [0x1c, 0x2a, 0x37, 0x16, 0x36, 0x33, 0x14, 0x1d]
  {
    hide Chunk;
    Key3Low();
    Key3High();
  }

  lemma Round3()
    ensures Round(0x0332abfc, 0x0599e3d5, Halves(0xcc017709, 0xa25c0bf4), 0, false) == Halves(0xa25c0bf4, 0x77220045)
  {
    hide RoundKey, Chunk, Nibble, Core, Permute, Round;
    Key3();
    NibbleIs(0xa25c0bf4, 0x1c, 0, 0x08, 0x2); NibbleIs(0xa25c0bf4, 0x2a, 1, 0x2e, 0x1);
    NibbleIs(0xa25c0bf4, 0x37, 2, 0x3c, 0xe); NibbleIs(0xa25c0bf4, 0x16, 3, 0x2e, 0xd);
    NibbleIs(0xa25c0bf4, 0x36, 4, 0x37, 0x9); NibbleIs(0xa25c0bf4, 0x33, 5, 0x24, 0xf);
    NibbleIs(0xa25c0bf4, 0x14, 6, 0x2a, 0x3); NibbleIs(0xa25c0bf4, 0x1d, 7, 0x34, 0xa);
    CoreIs(0x0332abfc, 0x0599e3d5, 0xa25c0bf4, 0x2, 0x1, 0xe, 0xd, 0x9, 0xf, 0x3, 0xa);
    PermuteIs(0x21ed9f3a);
    RoundIs(0x0332abfc, 0x0599e3d5, 0xcc017709, 0xa25c0bf4, 0x21ed9f3a, 0xbb23774c);
  }

  lemma Registers4()
    ensures RotN(0x0f0ccaaf, Position(false, 4)) == 0x0ccaaff0 && RotN(0x0556678f, Position(false, 4)) == 0x06678f55
  {
    hide RotN, Position, Step;
    Registers3();
    Steps(4);
    NextRegister(0x0f0ccaaf, 3);
    NextRegister(0x0556678f, 3);
  }

  lemma Key4Low()
    ensures Chunk(0x0ccaaff0, 0x06678f55, 0, 6) == 0x1f && Chunk(0x0ccaaff0, 0x06678f55, 1, 6) == 0x0e
    ensures Chunk(0x0ccaaff0, 0x06678f55, 2, 6) == 0x30 && Chunk(0x0ccaaff0, 0x06678f55, 3, 6) == 0x07
  {}

  lemma Key4High()
    ensures Chunk(0x0ccaaff0, 0x06678f55, 4, 6) == 0x3a && Chunk(0x0ccaaff0, 0x06678f55, 5, 6) == 0x35
    ensures Chunk(0x0ccaaff0, 0x06678f55, 6, 6) == 0x0e && Chunk(0x0ccaaff0, 0x06678f55, 7, 6) == 0x28
  {}

  lemma Key4()
    ensures RoundKey(0x0ccaaff0, 0x06678f55) == [0x1f, 0x0e, 0x30, 0x07, 0x3a, 0x35, 0x0e, 0x28]
  {
    hide Chunk;
    Key4Low();
    Key4High();
  }

  lemma Round4()
    ensures Round(0x0ccaaff0, 0x06678f55, Halves(0xa25c0bf4, 0x77220045), 0, false) == Halves(0x77220045, 0x8a4fa637)
  {
    hide RoundKey, Chunk, Nibble, Core, Permute, Round;
    Key4();
    NibbleIs(0x77220045, 0x1f, 0, 0x31, 0x5); NibbleIs(0x77220045, 0x0e, 1, 0x20, 0x0);
    NibbleIs(0x77220045, 0x30, 2, 0x14, 0xc); NibbleIs(0x77220045, 0x07, 3, 0x03, 0x8);
    NibbleIs(0x77220045, 0x3a, 4, 0x3a, 0x3); NibbleIs(0x77220045, 0x35, 5, 0x35, 0x1);
    NibbleIs(0x77220045, 0x0e, 6, 0x06, 0xe); NibbleIs(0x77220045, 0x28, 7, 0x22, 0xb);
    CoreIs(0x0ccaaff0, 0x06678f55, 0x77220045, 0x5, 0x0, 0xc, 0x8, 0x3, 0x1, 0xe, 0xb);
    PermuteIs(0x50c831eb);
    RoundIs(0x0ccaaff0, 0x06678f55, 0xa25c0bf4, 0x77220045, 0x50c831eb, 0x2813adc3);
  }

  lemma Registers5()
    ensures RotN(0x0f0ccaaf, Position(false, 5)) == 0x032abfc3 && RotN(0x0556678f, Position(false, 5)) == 0x099e3d55
  {
    hide RotN, Position, Step;
    Registers4();
    Steps(5);
    NextRegister(0x0f0ccaaf, 4);
    NextRegister(0x0556678f, 4);
  }

  lemma Key5Low()
    ensures Chunk(0x032abfc3, 0x099e3d55, 0, 6) == 0x18 && Chunk(0x032abfc3, 0x099e3d55, 1, 6) == 0x3a
    ensures Chunk(0x032abfc3, 0x099e3d55, 2, 6) == 0x14 && Chunk(0x032abfc3, 0x099e3d55, 3, 6) == 0x3e
  {}

  lemma Key5High()
    ensures Chunk(0x032abfc3, 0x099e3d55, 4, 6) == 0x14 && Chunk(0x032abfc3, 0x099e3d55, 5, 6) == 0x07
    ensures Chunk(0x032abfc3, 0x099e3d55, 6, 6) == 0x2c && Chunk(0x032abfc3, 0x099e3d55, 7, 6) == 0x2f
  {}

  lemma Key5()
    ensures RoundKey(0x032abfc3, 0x099e3d55) == [0x18, 0x3a, 0x14, 0x3e, 0x14, 0x07, 0x2c, 0x2f]
  {
    hide Chunk;
    Key5Low();
    Key5High();
  }

  lemma Round5()
    ensures Round(0x032abfc3, 0x099e3d55, Halves(0x77220045, 0x8a4fa637), 0, false) == Halves(0x8a4fa637, 0xe967cd69)
  {
    hide RoundKey, Chunk, Nibble, Core, Permute, Round;
    Key5();
    NibbleIs(0x8a4fa637, 0x18, 0, 0x29, 0x4); NibbleIs(0x8a4fa637, 0x3a, 1, 0x2e, 0x1);
    NibbleIs(0x8a4fa637, 0x14, 2, 0x1d, 0xf); NibbleIs(0x8a4fa637, 0x3e, 3, 0x21, 0x3);
    NibbleIs(0x8a4fa637, 0x14, 4, 0x20, 0x4); NibbleIs(0x8a4fa637, 0x07, 5, 0x0b, 0xc);
    NibbleIs(0x8a4fa637, 0x2c, 6, 0x2a, 0x3); NibbleIs(0x8a4fa637, 0x2f, 7, 0x00, 0xd);
    CoreIs(0x032abfc3, 0x099e3d55, 0x8a4fa637, 0x4, 0x1, 0xf, 0x3, 0x4, 0xc, 0x3, 0xd);
    PermuteIs(0x41f34c3d);
    RoundIs(0x032abfc3, 0x099e3d55, 0x77220045, 0x8a4fa637, 0x41f34c3d, 0x9e45cd2c);
  }

  lemma Registers6()
    ensures RotN(0x0f0ccaaf, Position(false, 6)) == 0x0caaff0c && RotN(0x0556678f, Position(false, 6)) == 0x0678f556
  {
    hide RotN, Position, Step;
    Registers5();
    Steps(6);
    NextRegister(0x0f0ccaaf, 5);
    NextRegister(0x0556678f, 5);
  }

  lemma Key6Low()
    ensures Chunk(0x0caaff0c, 0x0678f556, 0, 6) == 0x3b && Chunk(0x0caaff0c, 0x0678f556, 1, 6) == 0x08
    ensures Chunk(0x0caaff0c, 0x0678f556, 2, 6) == 0x12 && Chunk(0x0caaff0c, 0x0678f556, 3, 6) == 0x37
  {}

  lemma Key6High()
    ensures Chunk(0x0caaff0c, 0x0678f556, 4, 6) == 0x3d && Chunk(0x0caaff0c, 0x0678f556, 5, 6) == 0x21
    ensures Chunk(0x0caaff0c, 0x0678f556, 6, 6) == 0x22 && Chunk(0x0caaff0c, 0x0678f556, 7, 6) == 0x3c
  {}

  lemma Key6()
    ensures RoundKey(0x0caaff0c, 0x0678f556) == [0x3b, 0x08, 0x12, 0x37, 0x3d, 0x21, 0x22, 0x3c]
  {
    hide Chunk;
    Key6Low();
    Key6High();
  }

  lemma Round6()
    ensures Round(0x0caaff0c, 0x0678f556, Halves(0x8a4fa637, 0xe967cd69), 0, false) == Halves(0xe967cd69, 0x064aba10)
  {
    hide RoundKey, Chunk, Nibble, Core, Permute, Round;
    Key6();
    NibbleIs(0xe967cd69, 0x3b, 0, 0x06, 0x1); NibbleIs(0xe967cd69, 0x08, 1, 0x1a, 0x0);
    NibbleIs(0xe967cd69, 0x12, 2, 0x3e, 0x7); NibbleIs(0xe967cd69, 0x37, 3, 0x38, 0x5);
    NibbleIs(0xe967cd69, 0x3d, 4, 0x04, 0x4); NibbleIs(0xe967cd69, 0x21, 5, 0x3b, 0x0);
    NibbleIs(0xe967cd69, 0x22, 6, 0x0f, 0xa); NibbleIs(0xe967cd69, 0x3c, 7, 0x2f, 0xd);
    CoreIs(0x0caaff0c, 0x0678f556, 0xe967cd69, 0x1, 0x0, 0x7, 0x5, 0x4, 0x0, 0xa, 0xd);
    PermuteIs(0x107540ad);
    RoundIs(0x0caaff0c, 0x0678f556, 0x8a4fa637, 0xe967cd69, 0x107540ad, 0x8c051c27);
  }

  lemma Registers7()
    ensures RotN(0x0f0ccaaf, Position(false, 7)) == 0x02abfc33 && RotN(0x0556678f, Position(false, 7)) == 0x09e3d559
  {
    hide RotN, Position, Step;
    Registers6();
    Steps(7);
    NextRegister(0x0f0ccaaf, 6);
    NextRegister(0x0556678f, 6);
  }

  lemma Key7Low()
    ensures Chunk(0x02abfc33, 0x09e3d559, 0, 6) == 0x3d && Chunk(0x02abfc33, 0x09e3d559, 1, 6) == 0x38
    ensures Chunk(0x02abfc33, 0x09e3d559, 2, 6) == 0x28 && Chunk(0x02abfc33, 0x09e3d559, 3, 6) == 0x3a
  {}

  lemma Key7High()
    ensures Chunk(0x02abfc33, 0x09e3d559, 4, 6) == 0x30 && Chunk(0x02abfc33, 0x09e3d559, 5, 6) == 0x13
    ensures Chunk(0x02abfc33, 0x09e3d559, 6, 6) == 0x2f && Chunk(0x02abfc33, 0x09e3d559, 7, 6) == 0x3b
  {}

  lemma Key7()
    ensures RoundKey(0x02abfc33, 0x09e3d559) == [0x3d, 0x38, 0x28, 0x3a, 0x30, 0x13, 0x2f, 0x3b]
  {
    hide Chunk;
    Key7Low();
    Key7High();
  }

  lemma Round7()
    ensures Round(0x02abfc33, 0x09e3d559, Halves(0xe967cd69, 0x064aba10), 0, false) == Halves(0x064aba10, 0xd5694b90)
  {
    hide RoundKey, Chunk, Nibble, Core, Permute, Round;
    Key7();
    NibbleIs(0x064aba10, 0x3d, 0, 0x3d, 0x6); NibbleIs(0x064aba10, 0x38, 1, 0x34, 0xc);
    NibbleIs(0x064aba10, 0x28, 2, 0x21, 0x1); NibbleIs(0x064aba10, 0x3a, 3, 0x2f, 0x8);
    NibbleIs(0x064aba10, 0x30, 4, 0x27, 0x7); NibbleIs(0x064aba10, 0x13, 5, 0x27, 0xc);
    NibbleIs(0x064aba10, 0x2f, 6, 0x2d, 0xa); NibbleIs(0x064aba10, 0x3b, 7, 0x1b, 0xe);
    CoreIs(0x02abfc33, 0x09e3d559, 0x064aba10, 0x6, 0xc, 0x1, 0x8, 0x7, 0xc, 0xa, 0xe);
    PermuteIs(0x6c187cae);
    RoundIs(0x02abfc33, 0x09e3d559, 0xe967cd69, 0x064aba10, 0x6c187cae, 0x3c0e86f9);
  }

  lemma Registers8()
    ensures RotN(0x0f0ccaaf, Position(false, 8)) == 0x0557f866 && RotN(0x0556678f, Position(false, 8)) == 0x03c7aab3
  {
    hide RotN, Position, Step;
    Registers7();
    Steps(8);
    NextRegister(0x0f0ccaaf, 7);
    NextRegister(0x0556678f, 7);
  }

  lemma Key8Low()
    ensures Chunk(0x0557f866, 0x03c7aab3, 0, 6) == 0x38 && Chunk(0x0557f866, 0x03c7aab3, 1, 6) == 0x0d
    ensures Chunk(0x0557f866, 0x03c7aab3, 2, 6) == 0x2f && Chunk(0x0557f866, 0x03c7aab3, 3, 6) == 0x2b
  {}

  lemma Key8High()
    ensures Chunk(0x0557f866, 0x03c7aab3, 4, 6) == 0x3b && Chunk(0x0557f866, 0x03c7aab3, 5, 6) == 0x1e
    ensures Chunk(0x0557f866, 0x03c7aab3, 6, 6) == 0x1e && Chunk(0x0557f866, 0x03c7aab3, 7, 6) == 0x01
  {}

  lemma Key8()
    ensures RoundKey(0x0557f866, 0x03c7aab3) == [0x38, 0x0d, 0x2f, 0x2b, 0x3b, 0x1e, 0x1e, 0x01]
  {
    hide Chunk;
    Key8Low();
    Key8High();
  }

  lemma Round8()
    ensures Round(0x0557f866, 0x03c7aab3, Halves(0x064aba10, 0xd5694b90), 0, false) == Halves(0xd5694b90, 0x247cc67a)
  {
    hide RoundKey, Chunk, Nibble, Core, Permute, Round;
    Key8();
    NibbleIs(0xd5694b90, 0x38, 0, 0x22, 0x1); NibbleIs(0xd5694b90, 0x0d, 1, 0x27, 0x1);
    NibbleIs(0xd5694b90, 0x2f, 2, 0x02, 0x0); NibbleIs(0xd5694b90, 0x2b, 3, 0x39, 0xc);
    NibbleIs(0xd5694b90, 0x3b, 4, 0x12, 0x5); NibbleIs(0xd5694b90, 0x1e, 5, 0x09, 0x7);
    NibbleIs(0xd5694b90, 0x1e, 6, 0x2c, 0x7); NibbleIs(0xd5694b90, 0x01, 7, 0x20, 0x7);
    CoreIs(0x0557f866, 0x03c7aab3, 0xd5694b90, 0x1, 0x1, 0x0, 0xc, 0x5, 0x7, 0x7, 0x7);
    PermuteIs(0x110c5777);
    RoundIs(0x0557f866, 0x03c7aab3, 0x064aba10, 0xd5694b90, 0x110c5777, 0x22367c6a);
  }

  lemma Registers9()
    ensures RotN(0x0f0ccaaf, Position(false, 9)) == 0x055fe199 && RotN(0x0556678f, Position(false, 9)) == 0x0f1eaacc
  {
    hide RotN, Position, Step;
    Registers8();
    Steps(9);
    NextRegister(0x0f0ccaaf, 8);
    NextRegister(0x0556678f, 8);
  }

  lemma Key9Low()
    ensures Chunk(0x055fe199, 0x0f1eaacc, 0, 6) == 0x2c && Chunk(0x055fe199, 0x0f1eaacc, 1, 6) == 0x1f
    ensures Chunk(0x055fe199, 0x0f1eaacc, 2, 6) == 0x0d && Chunk(0x055fe199, 0x0f1eaacc, 3, 6) == 0x07
  {}

  lemma Key9High()
    ensures Chunk(0x055fe199, 0x0f1eaacc, 4, 6) == 0x2e && Chunk(0x055fe199, 0x0f1eaacc, 5, 6) == 0x24
    ensures Chunk(0x055fe199, 0x0f1eaacc, 6, 6) == 0x19 && Chunk(0x055fe199, 0x0f1eaacc, 7, 6) == 0x0f
  {}

  lemma Key9()
    ensures RoundKey(0x055fe199, 0x0f1eaacc) == [0x2c, 0x1f, 0x0d, 0x07, 0x2e, 0x24, 0x19, 0x0f]
  {
    hide Chunk;
    Key9Low();
    Key9High();
  }

  lemma Round9()
    ensures Round(0x055fe199, 0x0f1eaacc, Halves(0xd5694b90, 0x247cc67a), 0, false) == Halves(0x247cc67a, 0xb7d5d7b2)
  {
    hide RoundKey, Chunk, Nibble, Core, Permute, Round;
    Key9();
    NibbleIs(0x247cc67a, 0x2c, 0, 0x28, 0xd); NibbleIs(0x247cc67a, 0x1f, 1, 0x17, 0xa);
    NibbleIs(0x247cc67a, 0x0d, 2, 0x02, 0x0); NibbleIs(0x247cc67a, 0x07, 3, 0x3e, 0x4);
    NibbleIs(0x247cc67a, 0x2e, 4, 0x36, 0x5); NibbleIs(0x247cc67a, 0x24, 5, 0x28, 0x2);
    NibbleIs(0x247cc67a, 0x19, 6, 0x16, 0x7); NibbleIs(0x247cc67a, 0x0f, 7, 0x3b, 0x5);
    CoreIs(0x055fe199, 0x0f1eaacc, 0x247cc67a, 0xd, 0xa, 0x0, 0x4, 0x5, 0x2, 0x7, 0x5);
    PermuteIs(0xda045275);
    RoundIs(0x055fe199, 0x0f1eaacc, 0xd5694b90, 0x247cc67a, 0xda045275, 0x62bc9c22);
  }

  lemma Registers10()
    ensures RotN(0x0f0ccaaf, Position(false, 10)) == 0x057f8665 && RotN(0x0556678f, Position(false, 10)) == 0x0c7aab33
  {
    hide RotN, Position, Step;
    Registers9();
    Steps(10);
    NextRegister(0x0f0ccaaf, 9);
    NextRegister(0x0556678f, 9);
  }

  lemma Key10Low()
    ensures Chunk(0x057f8665, 0x0c7aab33, 0, 6) == 0x08 && Chunk(0x057f8665, 0x0c7aab33, 1, 6) == 0x15
    ensures Chunk(0x057f8665, 0x0c7aab33, 2, 6) == 0x3f && Chunk(0x057f8665, 0x0c7aab33, 3, 6) == 0x13
  {}

  lemma Key10High()
    ensures Chunk(0x057f8665, 0x0c7aab33, 4, 6) == 0x37 && Chunk(0x057f8665, 0x0c7aab33, 5, 6) == 0x2d
    ensures Chunk(0x057f8665, 0x0c7aab33, 6, 6) == 0x0e && Chunk(0x057f8665, 0x0c7aab33, 7, 6) == 0x06
  {}

  lemma Key10()
    ensures RoundKey(0x057f8665, 0x0c7aab33) == [0x08, 0x15, 0x3f, 0x13, 0x37, 0x2d, 0x0e, 0x06]
  {
    hide Chunk;
    Key10Low();
    Key10High();
  }

  lemma Round10()
    ensures Round(0x057f8665, 0x0c7aab33, Halves(0x247cc67a, 0xb7d5d7b2), 0, false) == Halves(0xb7d5d7b2, 0xc5783c78)
  {
    hide RoundKey, Chunk, Nibble, Core, Permute, Round;
    Key10();
    NibbleIs(0xb7d5d7b2, 0x08, 0, 0x1e, 0x7); NibbleIs(0xb7d5d7b2, 0x15, 1, 0x3a, 0x3);
    NibbleIs(0xb7d5d7b2, 0x3f, 2, 0x05, 0x0); NibbleIs(0xb7d5d7b2, 0x13, 3, 0x38, 0x5);
    NibbleIs(0xb7d5d7b2, 0x37, 4, 0x0d, 0xd); NibbleIs(0xb7d5d7b2, 0x2d, 5, 0x02, 0x1);
    NibbleIs(0xb7d5d7b2, 0x0e, 6, 0x38, 0x0); NibbleIs(0xb7d5d7b2, 0x06, 7, 0x23, 0x1);
    CoreIs(0x057f8665, 0x0c7aab33, 0xb7d5d7b2, 0x7, 0x3, 0x0, 0x5, 0xd, 0x1, 0x0, 0x1);
    PermuteIs(0x7305d101);
    RoundIs(0x057f8665, 0x0c7aab33, 0x247cc67a, 0xb7d5d7b2, 0x7305d101, 0xe104fa02);
  }

  lemma Registers11()
    ensures RotN(0x0f0ccaaf, Position(false, 11)) == 0x05fe1995 && RotN(0x0556678f, Position(false, 11)) == 0x01eaaccf
  {
    hide RotN, Position, Step;
    Registers10();
    Steps(11);
    NextRegister(0x0f0ccaaf, 10);
    NextRegister(0x0556678f, 10);
  }

  lemma Key11Low()
    ensures Chunk(0x05fe1995, 0x01eaaccf, 0, 6) == 0x1d && Chunk(0x05fe1995, 0x01eaaccf, 1, 6) == 0x17
    ensures Chunk(0x05fe1995, 0x01eaaccf, 2, 6) == 0x07 && Chunk(0x05fe1995, 0x01eaaccf, 3, 6) == 0x35
  {}

  lemma Key11High()
    ensures Chunk(0x05fe1995, 0x01eaaccf, 4, 6) == 0x25 && Chunk(0x05fe1995, 0x01eaaccf, 5, 6) == 0x06
    ensures Chunk(0x05fe1995, 0x01eaaccf, 6, 6) == 0x1f && Chunk(0x05fe1995, 0x01eaaccf, 7, 6) == 0x29
  {}

  lemma Key11()
    ensures RoundKey(0x05fe1995, 0x01eaaccf) == [0x1d, 0x17, 0x07, 0x35, 0x25, 0x06, 0x1f, 0x29]
  {
    hide Chunk;
    Key11Low();
    Key11High();
  }

  lemma Round11()
    ensures Round(0x05fe1995, 0x01eaaccf, Halves(0xb7d5d7b2, 0xc5783c78), 0, false) == Halves(0xc5783c78, 0x75bd1858)
  {
    hide RoundKey, Chunk, Nibble, Core, Permute, Round;
    Key11();
    NibbleIs(0xc5783c78, 0x1d, 0, 0x05, 0x7); NibbleIs(0xc5783c78, 0x17, 1, 0x1d, 0xb);
    NibbleIs(0xc5783c78, 0x07, 2, 0x28, 0x8); NibbleIs(0xc5783c78, 0x35, 3, 0x05, 0xb);
    NibbleIs(0xc5783c78, 0x25, 4, 0x22, 0x2); NibbleIs(0xc5783c78, 0x06, 5, 0x3e, 0x6);
    NibbleIs(0xc5783c78, 0x1f, 6, 0x10, 0x3); NibbleIs(0xc5783c78, 0x29, 7, 0x18, 0x5);
    CoreIs(0x05fe1995, 0x01eaaccf, 0xc5783c78, 0x7, 0xb, 0x8, 0xb, 0x2, 0x6, 0x3, 0x5);
    PermuteIs(0x7b8b2635);
    RoundIs(0x05fe1995, 0x01eaaccf, 0xb7d5d7b2, 0xc5783c78, 0x7b8b2635, 0xc268cfea);
  }

  lemma Registers12()
    ensures RotN(0x0f0ccaaf, Position(false, 12)) == 0x07f86655 && RotN(0x0556678f, Position(false, 12)) == 0x07aab33c
  {
    hide RotN, Position, Step;
    Registers11();
    Steps(12);
    NextRegister(0x0f0ccaaf, 11);
    NextRegister(0x0556678f, 11);
  }

  lemma Key12Low()
    ensures Chunk(0x07f86655, 0x07aab33c, 0, 6) == 0x25 && Chunk(0x07f86655, 0x07aab33c, 1, 6) == 0x3c
    ensures Chunk(0x07f86655, 0x07aab33c, 2, 6) == 0x17 && Chunk(0x07f86655, 0x07aab33c, 3, 6) == 0x11
  {}

  lemma Key12High()
    ensures Chunk(0x07f86655, 0x07aab33c, 4, 6) == 0x3e && Chunk(0x07f86655, 0x07aab33c, 5, 6) == 0x2b
    ensures Chunk(0x07f86655, 0x07aab33c, 6, 6) == 0x29 && Chunk(0x07f86655, 0x07aab33c, 7, 6) == 0x01
  {}

  lemma Key12()
    ensures RoundKey(0x07f86655, 0x07aab33c) == [0x25, 0x3c, 0x17, 0x11, 0x3e, 0x2b, 0x29, 0x01]
  {
    hide Chunk;
    Key12Low();
    Key12High();
  }

  lemma Round12()
    ensures Round(0x07f86655, 0x07aab33c, Halves(0xc5783c78, 0x75bd1858), 0, false) == Halves(0x75bd1858, 0x18c3155a)
  {
    hide RoundKey, Chunk, Nibble, Core, Permute, Round;
    Key12();
    NibbleIs(0x75bd1858, 0x25, 0, 0x2b, 0x9); NibbleIs(0x75bd1858, 0x3c, 1, 0x17, 0xa);
    NibbleIs(0x75bd1858, 0x17, 2, 0x20, 0xd); NibbleIs(0x75bd1858, 0x11, 3, 0x2b, 0x1);
    NibbleIs(0x75bd1858, 0x3e, 4, 0x1d, 0x8); NibbleIs(0x75bd1858, 0x2b, 5, 0x1b, 0xb);
    NibbleIs(0x75bd1858, 0x29, 6, 0x22, 0x4); NibbleIs(0x75bd1858, 0x01, 7, 0x31, 0xf);
    CoreIs(0x07f86655, 0x07aab33c, 0x75bd1858, 0x9, 0xa, 0xd, 0x1, 0x8, 0xb, 0x4, 0xf);
    PermuteIs(0x9ad18b4f);
    RoundIs(0x07f86655, 0x07aab33c, 0xc5783c78, 0x75bd1858, 0x9ad18b4f, 0xddbb2922);
  }

  lemma Registers13()
    ensures RotN(0x0f0ccaaf, Position(false, 13)) == 0x0fe19955 && RotN(0x0556678f, Position(false, 13)) == 0x0eaaccf1
  {
    hide RotN, Position, Step;
    Registers12();
    Steps(13);
    NextRegister(0x0f0ccaaf, 12);
    NextRegister(0x0556678f, 12);
  }

  lemma Key13Low()
    ensures Chunk(0x0fe19955, 0x0eaaccf1, 0, 6) == 0x17 && Chunk(0x0fe19955, 0x0eaaccf1, 1, 6) == 0x34
    ensures Chunk(0x0fe19955, 0x0eaaccf1, 2, 6) == 0x0e && Chunk(0x0fe19955, 0x0eaaccf1, 3, 6) == 0x37
  {}

  lemma Key13High()
    ensures Chunk(0x0fe19955, 0x0eaaccf1, 4, 6) == 0x3c && Chunk(0x0fe19955, 0x0eaaccf1, 5, 6) == 0x2e
    ensures Chunk(0x0fe19955, 0x0eaaccf1, 6, 6) == 0x1c && Chunk(0x0fe19955, 0x0eaaccf1, 7, 6) == 0x3a
  {}

  lemma Key13()
    ensures RoundKey(0x0fe19955, 0x0eaaccf1) == [0x17, 0x34, 0x0e, 0x37, 0x3c, 0x2e, 0x1c, 0x3a]
  {
    hide Chunk;
    Key13Low();
    Key13High();
  }

  lemma Round13()
    ensures Round(0x0fe19955, 0x0eaaccf1, Halves(0x75bd1858, 0x18c3155a), 0, false) == Halves(0x18c3155a, 0xc28c960d)
  {
    hide RoundKey, Chunk, Nibble, Core, Permute, Round;
    Key13();
    NibbleIs(0x18c3155a, 0x17, 0, 0x14, 0x6); NibbleIs(0x18c3155a, 0x34, 1, 0x05, 0x4);
    NibbleIs(0x18c3155a, 0x0e, 2, 0x16, 0x7); NibbleIs(0x18c3155a, 0x37, 3, 0x31, 0x9);
    NibbleIs(0x18c3155a, 0x3c, 4, 0x1e, 0x9); NibbleIs(0x18c3155a, 0x2e, 5, 0x04, 0xa);
    NibbleIs(0x18c3155a, 0x1c, 6, 0x37, 0xf); NibbleIs(0x18c3155a, 0x3a, 7, 0x0e, 0x1);
    CoreIs(0x0fe19955, 0x0eaaccf1, 0x18c3155a, 0x6, 0x4, 0x7, 0x9, 0x9, 0xa, 0xf, 0x1);
    PermuteIs(0x64799af1);
    RoundIs(0x0fe19955, 0x0eaaccf1, 0x75bd1858, 0x18c3155a, 0x64799af1, 0xb7318e55);
  }

  lemma Registers14()
    ensures RotN(0x0f0ccaaf, Position(false, 14)) == 0x0f866557 && RotN(0x0556678f, Position(false, 14)) == 0x0aab33c7
  {
    hide RotN, Position, Step;
    Registers13();
    Steps(14);
    NextRegister(0x0f0ccaaf, 13);
    NextRegister(0x0556678f, 13);
  }

  lemma Key14Low()
    ensures Chunk(0x0f866557, 0x0aab33c7, 0, 6) == 0x2f && Chunk(0x0f866557, 0x0aab33c7, 1, 6) == 0x39
    ensures Chunk(0x0f866557, 0x0aab33c7, 2, 6) == 0x06 && Chunk(0x0f866557, 0x0aab33c7, 3, 6) == 0x0d
  {}

  lemma Key14High()
    ensures Chunk(0x0f866557, 0x0aab33c7, 4, 6) == 0x0f && Chunk(0x0f866557, 0x0aab33c7, 5, 6) == 0x13
    ensures Chunk(0x0f866557, 0x0aab33c7, 6, 6) == 0x3c && Chunk(0x0f866557, 0x0aab33c7, 7, 6) == 0x0a
  {}

  lemma Key14()
    ensures RoundKey(0x0f866557, 0x0aab33c7) == [0x2f, 0x39, 0x06, 0x0d, 0x0f, 0x13, 0x3c, 0x0a]
  {
    hide Chunk;
    Key14Low();
    Key14High();
  }

  lemma Round14()
    ensures Round(0x0f866557, 0x0aab33c7, Halves(0x18c3155a, 0xc28c960d), 0, false) == Halves(0xc28c960d, 0x43423234)
  {
    hide RoundKey, Chunk, Nibble, Core, Permute, Round;
    Key14();
    NibbleIs(0xc28c960d, 0x2f, 0, 0x17, 0xb); NibbleIs(0xc28c960d, 0x39, 1, 0x3c, 0x2);
    NibbleIs(0xc28c960d, 0x06, 2, 0x17, 0xe); NibbleIs(0xc28c960d, 0x0d, 3, 0x14, 0x8);
    NibbleIs(0xc28c960d, 0x0f, 4, 0x1d, 0x8); NibbleIs(0xc28c960d, 0x13, 5, 0x3f, 0xd);
    NibbleIs(0xc28c960d, 0x3c, 6, 0x3d, 0x3); NibbleIs(0xc28c960d, 0x0a, 7, 0x11, 0xc);
    CoreIs(0x0f866557, 0x0aab33c7, 0xc28c960d, 0xb, 0x2, 0xe, 0x8, 0x8, 0xd, 0x3, 0xc);
    PermuteIs(0xb2e88d3c);
    RoundIs(0x0f866557, 0x0aab33c7, 0x18c3155a, 0xc28c960d, 0xb2e88d3c, 0x5b81276e);
  }

  lemma Registers15()
    ensures RotN(0x0f0ccaaf, Position(false, 15)) == 0x0f0ccaaf && RotN(0x0556678f, Position(false, 15)) == 0x0556678f
  {
    hide RotN, Position, Step;
    Registers14();
    Steps(15);
    NextRegister(0x0f0ccaaf, 14);
    NextRegister(0x0556678f, 14);
  }

  lemma Key15Low()
    ensures Chunk(0x0f0ccaaf, 0x0556678f, 0, 6) == 0x32 && Chunk(0x0f0ccaaf, 0x0556678f, 1, 6) == 0x33
    ensures Chunk(0x0f0ccaaf, 0x0556678f, 2, 6) == 0x36 && Chunk(0x0f0ccaaf, 0x0556678f, 3, 6) == 0x0b
  {}

  lemma Key15High()
    ensures Chunk(0x0f0ccaaf, 0x0556678f, 4, 6) == 0x03 && Chunk(0x0f0ccaaf, 0x0556678f, 5, 6) == 0x21
    ensures Chunk(0x0f0ccaaf, 0x0556678f, 6, 6) == 0x1f && Chunk(0x0f0ccaaf, 0x0556678f, 7, 6) == 0x35
  {}

  lemma Key15()
    ensures RoundKey(0x0f0ccaaf, 0x0556678f) == [0x32, 0x33, 0x36, 0x0b, 0x03, 0x21, 0x1f, 0x35]
  {
    hide Chunk;
    Key15Low();
    Key15High();
  }

  lemma Round15()
    ensures Round(0x0f0ccaaf, 0x0556678f, Halves(0xc28c960d, 0x43423234), 0, false) == Halves(0x43423234, 0x0a4cd995)
  {
    hide RoundKey, Chunk, Nibble, Core, Permute, Round;
    Key15();
    NibbleIs(0x43423234, 0x32, 0, 0x3a, 0xa); NibbleIs(0x43423234, 0x33, 1, 0x35, 0x7);
    NibbleIs(0x43423234, 0x36, 2, 0x1e, 0x8); NibbleIs(0x43423234, 0x0b, 3, 0x0f, 0x3);
    NibbleIs(0x43423234, 0x03, 4, 0x05, 0x2); NibbleIs(0x43423234, 0x21, 5, 0x05, 0x4);
    NibbleIs(0x43423234, 0x1f, 6, 0x19, 0x2); NibbleIs(0x43423234, 0x35, 7, 0x1d, 0x9);
    CoreIs(0x0f0ccaaf, 0x0556678f, 0x43423234, 0xa, 0x7, 0x8, 0x3, 0x2, 0x4, 0x2, 0x9);
    PermuteIs(0xa7832429);
    RoundIs(0x0f0ccaaf, 0x0556678f, 0xc28c960d, 0x43423234, 0xa7832429, 0xc8c04f98);
  }

  const KEY: Key := Key(0x0f0ccaaf, 0x0556678f, 0, false)

  lemma RoundAtIs(left: bv32, right: bv32, i: nat, h: Halves)
    requires RotN(0x0f0ccaaf, Position(false, i)) == left && RotN(0x0556678f, Position(false, i)) == right
    ensures RoundAt(KEY, false, i, h) == Round(left, right, h, 0, false)
  {
    hide RotN, Position, Round;
  }

  lemma AllRounds()
    ensures Cipher(KEY, false, Halves(0xcc00ccff, 0xf0aaf0aa)) == Halves(0x0a4cd995, 0x43423234)
  {
    hide *;
    var h := Halves(0xcc00ccff, 0xf0aaf0aa);
    RoundsZero(KEY, false, h);
    RoundsNext(KEY, false, 0, h);
    Registers0();
    Round0();
    RoundAtIs(0x0e19955f, 0x0aaccf1e, 0, Halves(0xcc00ccff, 0xf0aaf0aa));
    RoundsNext(KEY, false, 1, h);
    Registers1();
    Round1();
    RoundAtIs(0x0c332abf, 0x05599e3d, 1, Halves(0xf0aaf0aa, 0xef4a6544));
    RoundsNext(KEY, false, 2, h);
    Registers2();
    Round2();
    RoundAtIs(0x00ccaaff, 0x056678f5, 2, Halves(0xef4a6544, 0xcc017709));
    RoundsNext(KEY, false, 3, h);
    Registers3();
    Round3();
    RoundAtIs(0x0332abfc, 0x0599e3d5, 3, Halves(0xcc017709, 0xa25c0bf4));
    RoundsNext(KEY, false, 4, h);
    Registers4();
    Round4();
    RoundAtIs(0x0ccaaff0, 0x06678f55, 4, Halves(0xa25c0bf4, 0x77220045));
    RoundsNext(KEY, false, 5, h);
    Registers5();
    Round5();
    RoundAtIs(0x032abfc3, 0x099e3d55, 5, Halves(0x77220045, 0x8a4fa637));
    RoundsNext(KEY, false, 6, h);
    Registers6();
    Round6();
    RoundAtIs(0x0caaff0c, 0x0678f556, 6, Halves(0x8a4fa637, 0xe967cd69));
    RoundsNext(KEY, false, 7, h);
    Registers7();
    Round7();
    RoundAtIs(0x02abfc33, 0x09e3d559, 7, Halves(0xe967cd69, 0x064aba10));
    RoundsNext(KEY, false, 8, h);
    Registers8();
    Round8();
    RoundAtIs(0x0557f866, 0x03c7aab3, 8, Halves(0x064aba10, 0xd5694b90));
    RoundsNext(KEY, false, 9, h);
    Registers9();
    Round9();
    RoundAtIs(0x055fe199, 0x0f1eaacc, 9, Halves(0xd5694b90, 0x247cc67a));
    RoundsNext(KEY, false, 10, h);
    Registers10();
    Round10();
    RoundAtIs(0x057f8665, 0x0c7aab33, 10, Halves(0x247cc67a, 0xb7d5d7b2));
    RoundsNext(KEY, false, 11, h);
    Registers11();
    Round11();
    RoundAtIs(0x05fe1995, 0x01eaaccf, 11, Halves(0xb7d5d7b2, 0xc5783c78));
    RoundsNext(KEY, false, 12, h);
    Registers12();
    Round12();
    RoundAtIs(0x07f86655, 0x07aab33c, 12, Halves(0xc5783c78, 0x75bd1858));
    RoundsNext(KEY, false, 13, h);
    Registers13();
    Round13();
    RoundAtIs(0x0fe19955, 0x0eaaccf1, 13, Halves(0x75bd1858, 0x18c3155a));
    RoundsNext(KEY, false, 14, h);
    Registers14();
    Round14();
    RoundAtIs(0x0f866557, 0x0aab33c7, 14, Halves(0x18c3155a, 0xc28c960d));
    RoundsNext(KEY, false, 15, h);
    Registers15();
    Round15();
    RoundAtIs(0x0f0ccaaf, 0x0556678f, 15, Halves(0xc28c960d, 0x43423234));
    CipherIs(h);
  }

  lemma CipherIs(h: Halves)
    ensures Cipher(KEY, false, h) == Halves(Rounds(KEY, false, 16, h).r, Rounds(KEY, false, 16, h).l)
  {
    hide Rounds;
  }

  // ---- The key and the block as bytes

  lemma KeyBytes()
    ensures Pc1([0x13, 0x34, 0x57, 0x79, 0x9b, 0xbc, 0xdf, 0xf1]) == [0xf0, 0xcc, 0xaa, 0xf5, 0x56, 0x67, 0x8f, 0x00]
  {
    var d: seq<byte> := [0x13, 0x34, 0x57, 0x79, 0x9b, 0xbc, 0xdf, 0xf1];
    assert PcBits(d, 0, 8) == 0xf0;
    assert PcBits(d, 1, 8) == 0xcc;
    assert PcBits(d, 2, 8) == 0xaa;
    assert PcBits(d, 3, 8) == 0xf5;
    assert PcBits(d, 4, 8) == 0x56;
    assert PcBits(d, 5, 8) == 0x67;
    assert PcBits(d, 6, 8) == 0x8f;
  }

  lemma BlockBytes()
    ensures Ip([0x01, 0x23, 0x45, 0x67, 0x89, 0xab, 0xcd, 0xef]) == [0xcc, 0x00, 0xcc, 0xff, 0xf0, 0xaa, 0xf0, 0xaa]
  {
    var d: seq<byte> := [0x01, 0x23, 0x45, 0x67, 0x89, 0xab, 0xcd, 0xef];
    assert Column(d, 6, 8) == 0xcc;
    assert Column(d, 4, 8) == 0x00;
    assert Column(d, 2, 8) == 0xcc;
    assert Column(d, 0, 8) == 0xff;
    assert Column(d, 7, 8) == 0xf0;
    assert Column(d, 5, 8) == 0xaa;
    assert Column(d, 3, 8) == 0xf0;
    assert Column(d, 1, 8) == 0xaa;
  }

  lemma ResultBytes()
    ensures Ip([0x85, 0xe8, 0x13, 0x54, 0x0f, 0x0a, 0xb4, 0x05]) == [0x0a, 0x4c, 0xd9, 0x95, 0x43, 0x42, 0x32, 0x34]
  {
    var d: seq<byte> := [0x85, 0xe8, 0x13, 0x54, 0x0f, 0x0a, 0xb4, 0x05];
    assert Column(d, 6, 8) == 0x0a;
    assert Column(d, 4, 8) == 0x4c;
    assert Column(d, 2, 8) == 0xd9;
    assert Column(d, 0, 8) == 0x95;
    assert Column(d, 7, 8) == 0x43;
    assert Column(d, 5, 8) == 0x42;
    assert Column(d, 3, 8) == 0x32;
    assert Column(d, 1, 8) == 0x34;
  }

  lemma Parts()
    ensures KeyOf([0xf0, 0xcc, 0xaa, 0xf5, 0x56, 0x67, 0x8f, 0x00], DES_IP | DES_IP_1) == KEY
    ensures ToHalves([0xcc, 0x00, 0xcc, 0xff, 0xf0, 0xaa, 0xf0, 0xaa]) == Halves(0xcc00ccff, 0xf0aaf0aa)
    ensures FromHalves(Halves(0x0a4cd995, 0x43423234)) == [0x0a, 0x4c, 0xd9, 0x95, 0x43, 0x42, 0x32, 0x34]
  {
  }

  lemma BlockIs(key: seq<byte>, data: seq<byte>)
    requires |key| == 8 && |data| == 8
    ensures DesBlock(key, DES_IP | DES_IP_1, data)
         == IpInverse(FromHalves(Cipher(KeyOf(key, DES_IP | DES_IP_1), false, ToHalves(Ip(data)))))
  {
    hide Cipher, KeyOf, ToHalves, FromHalves, Ip, IpInverse;
  }

  /** The block comes out as the standard has it. */
  lemma Example()
    ensures DesBlock(Pc1([0x13, 0x34, 0x57, 0x79, 0x9b, 0xbc, 0xdf, 0xf1]), DES_IP | DES_IP_1,
                     [0x01, 0x23, 0x45, 0x67, 0x89, 0xab, 0xcd, 0xef])
         == [0x85, 0xe8, 0x13, 0x54, 0x0f, 0x0a, 0xb4, 0x05]
  {
    hide *;
    var key: seq<byte> := [0xf0, 0xcc, 0xaa, 0xf5, 0x56, 0x67, 0x8f, 0x00];
    KeyBytes();
    BlockBytes();
    ResultBytes();
    Parts();
    AllRounds();
    BlockIs(key, [0x01, 0x23, 0x45, 0x67, 0x89, 0xab, 0xcd, 0xef]);
    IpRoundTrip([0x85, 0xe8, 0x13, 0x54, 0x0f, 0x0a, 0xb4, 0x05]);
  }
}
