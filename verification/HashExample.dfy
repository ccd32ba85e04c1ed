/** One message, worked: the digests of the three bytes of "abc", as FIPS 180-4 has them. The lemmas take some numbers as
    parameters, since a recursion on a literal would be unrolled at once. */
module HashExample {
  import opened Bits
  import opened HashSpec
  import opened HashConstants

  /** The message. */
  function Abc(): seq<byte> {
    [0x61, 0x62, 0x63]
  }

  /** The only block of the padded message. */
  function Block(): (b: seq<byte>)
    ensures |b| == 64
  {
    Abc() + [0x80] + Zeros(52) + [0, 0, 0, 0, 0, 0, 0, 0x18]
  }

  lemma BlockIsPadded()
    ensures Padded(Abc()) == Block() && Blocks(|Abc()|) == 1
  {
    hide BigEndian, Zeros;
    Length(8 * |Abc()|);
  }

  lemma Length(n: nat)
    requires n == 24
    ensures BigEndian(n, 8) == [0, 0, 0, 0, 0, 0, 0, 0x18]
  {
    hide Zeros;
    BigEndianZero(7);
    assert Zeros(7) == [0, 0, 0, 0, 0, 0, 0] by { Zero7(); }
    assert ToByte(24) == 0x18;
  }

  lemma Zero7()
    ensures Zeros(7) == [0, 0, 0, 0, 0, 0, 0]
  {
  }

  lemma {:induction false} BigEndianZero(k: nat)
    ensures BigEndian(0, k) == Zeros(k)
  {
    if k > 0 {
      BigEndianZero(k - 1);
      assert ToByte(0) == 0;
    }
  }

  lemma FirstWords()
    ensures BlockWord(Block(), 0) == 0x61626380 && BlockWord(Block(), 15) == 0x18
    ensures forall t :: 1 <= t < 15 ==> BlockWord(Block(), t) == 0
  {
    assert Word(0x61, 0x62, 0x63, 0x80) == 0x61626380 && Word(0, 0, 0, 0) == 0 && Word(0, 0, 0, 0x18) == 0x18;
  }

  // ---- SHA-256

  lemma Ror2(w: bv32)
    ensures (w >> 2) | (w << 30) == Ror(w, 2)
  {
    var n: nat := 2;
    assert Ror(w, 2) == (w >> n) | (w << (32 - n));
  }

  lemma Ror6(w: bv32)
    ensures (w >> 6) | (w << 26) == Ror(w, 6)
  {
    var n: nat := 6;
    assert Ror(w, 6) == (w >> n) | (w << (32 - n));
  }

  lemma Ror7(w: bv32)
    ensures (w >> 7) | (w << 25) == Ror(w, 7)
  {
    var n: nat := 7;
    assert Ror(w, 7) == (w >> n) | (w << (32 - n));
  }

  lemma Ror11(w: bv32)
    ensures (w >> 11) | (w << 21) == Ror(w, 11)
  {
    var n: nat := 11;
    assert Ror(w, 11) == (w >> n) | (w << (32 - n));
  }

  lemma Ror13(w: bv32)
    ensures (w >> 13) | (w << 19) == Ror(w, 13)
  {
    var n: nat := 13;
    assert Ror(w, 13) == (w >> n) | (w << (32 - n));
  }

  lemma Ror17(w: bv32)
    ensures (w >> 17) | (w << 15) == Ror(w, 17)
  {
    var n: nat := 17;
    assert Ror(w, 17) == (w >> n) | (w << (32 - n));
  }

  lemma Ror18(w: bv32)
    ensures (w >> 18) | (w << 14) == Ror(w, 18)
  {
    var n: nat := 18;
    assert Ror(w, 18) == (w >> n) | (w << (32 - n));
  }

  lemma Ror19(w: bv32)
    ensures (w >> 19) | (w << 13) == Ror(w, 19)
  {
    var n: nat := 19;
    assert Ror(w, 19) == (w >> n) | (w << (32 - n));
  }

  lemma Ror22(w: bv32)
    ensures (w >> 22) | (w << 10) == Ror(w, 22)
  {
    var n: nat := 22;
    assert Ror(w, 22) == (w >> n) | (w << (32 - n));
  }

  lemma Ror25(w: bv32)
    ensures (w >> 25) | (w << 7) == Ror(w, 25)
  {
    var n: nat := 25;
    assert Ror(w, 25) == (w >> n) | (w << (32 - n));
  }

  lemma Turned(a: bv32, e: bv32)
    ensures Ror(a, 2) == (a >> 2) | (a << 30) && Ror(a, 13) == (a >> 13) | (a << 19) && Ror(a, 22) == (a >> 22) | (a << 10)
    ensures Ror(e, 6) == (e >> 6) | (e << 26) && Ror(e, 11) == (e >> 11) | (e << 21) && Ror(e, 25) == (e >> 25) | (e << 7)
  {
    hide Ror;
    Ror2(a);
    Ror13(a);
    Ror22(a);
    Ror6(e);
    Ror11(e);
    Ror25(e);
  }

  lemma TurnedLow(x: bv32, y: bv32)
    ensures Ror(x, 7) == (x >> 7) | (x << 25) && Ror(x, 18) == (x >> 18) | (x << 14)
    ensures Ror(y, 17) == (y >> 17) | (y << 15) && Ror(y, 19) == (y >> 19) | (y << 13)
  {
    hide Ror;
    Ror7(x);
    Ror18(x);
    Ror17(y);
    Ror19(y);
  }

  lemma NextWord256(t: nat)
    requires t >= 16
    ensures Sha256Word(Block(), t) ==
      Plus(Plus(Plus(Sha256Word(Block(), t - 16), Low0(Sha256Word(Block(), t - 15))), Sha256Word(Block(), t - 7)), Low1(Sha256Word(Block(), t - 2)))
  {
    hide Low0, Low1, Plus, Block;
  }

  lemma EarlyWord256(t: nat)
    requires t < 16
    ensures Sha256Word(Block(), t) == BlockWord(Block(), t)
  {
    hide Block;
  }

  lemma NextRound256(h: Eight, t: nat)
    requires t < 64
    ensures Sha256Rounds(h, Block(), t + 1) == Sha256Round(Sha256Rounds(h, Block(), t), t, Sha256Word(Block(), t))
  {
    hide Sha256Round, Sha256Word, Block;
  }

  lemma NoRound256(h: Eight)
    ensures Sha256Rounds(h, Block(), 0) == h
  {
  }

  lemma Words256To7(b: seq<byte>)
    requires b == Block()
    ensures Sha256Word(b, 0) == 0x61626380 && Sha256Word(b, 1) == 0x00000000
    ensures Sha256Word(b, 2) == 0x00000000 && Sha256Word(b, 3) == 0x00000000
    ensures Sha256Word(b, 4) == 0x00000000 && Sha256Word(b, 5) == 0x00000000
    ensures Sha256Word(b, 6) == 0x00000000 && Sha256Word(b, 7) == 0x00000000
  {
    hide Sha256Word, Block, BlockWord, Ror;
    FirstWords();
    EarlyWord256(0); EarlyWord256(1); EarlyWord256(2); EarlyWord256(3); EarlyWord256(4); EarlyWord256(5); EarlyWord256(6); EarlyWord256(7);
  }

  lemma Words256To15(b: seq<byte>)
    requires b == Block()
    ensures Sha256Word(b, 8) == 0x00000000 && Sha256Word(b, 9) == 0x00000000
    ensures Sha256Word(b, 10) == 0x00000000 && Sha256Word(b, 11) == 0x00000000
    ensures Sha256Word(b, 12) == 0x00000000 && Sha256Word(b, 13) == 0x00000000
    ensures Sha256Word(b, 14) == 0x00000000 && Sha256Word(b, 15) == 0x00000018
  {
    hide Sha256Word, Block, BlockWord, Ror;
    FirstWords();
    EarlyWord256(8); EarlyWord256(9); EarlyWord256(10); EarlyWord256(11); EarlyWord256(12); EarlyWord256(13); EarlyWord256(14); EarlyWord256(15);
  }

  lemma Words256To23(b: seq<byte>)
    requires b == Block()
    ensures Sha256Word(b, 16) == 0x61626380 && Sha256Word(b, 17) == 0x000f0000
    ensures Sha256Word(b, 18) == 0x7da86405 && Sha256Word(b, 19) == 0x600003c6
    ensures Sha256Word(b, 20) == 0x3e9d7b78 && Sha256Word(b, 21) == 0x0183fc00
    ensures Sha256Word(b, 22) == 0x12dcbfdb && Sha256Word(b, 23) == 0xe2e2c38e
  {
    hide Sha256Word, Block, BlockWord, Ror;
    Words256To7(b); Words256To15(b);
    NextWord256(16);
    TurnedLow(0x00000000, 0x00000000);
    NextWord256(17);
    TurnedLow(0x00000000, 0x00000018);
    NextWord256(18);
    TurnedLow(0x00000000, 0x61626380);
    NextWord256(19);
    TurnedLow(0x00000000, 0x000f0000);
    NextWord256(20);
    TurnedLow(0x00000000, 0x7da86405);
    NextWord256(21);
    TurnedLow(0x00000000, 0x600003c6);
    NextWord256(22);
    TurnedLow(0x00000000, 0x3e9d7b78);
    NextWord256(23);
    TurnedLow(0x00000000, 0x0183fc00);
  }

  lemma Words256To31(b: seq<byte>)
    requires b == Block()
    ensures Sha256Word(b, 24) == 0xc8215c1a && Sha256Word(b, 25) == 0xb73679a2
    ensures Sha256Word(b, 26) == 0xe5bc3909 && Sha256Word(b, 27) == 0x32663c5b
    ensures Sha256Word(b, 28) == 0x9d209d67 && Sha256Word(b, 29) == 0xec8726cb
    ensures Sha256Word(b, 30) == 0x702138a4 && Sha256Word(b, 31) == 0xd3b7973b
  {
    hide Sha256Word, Block, BlockWord, Ror;
    Words256To15(b); Words256To23(b);
    NextWord256(24);
    TurnedLow(0x00000000, 0x12dcbfdb);
    NextWord256(25);
    TurnedLow(0x00000000, 0xe2e2c38e);
    NextWord256(26);
    TurnedLow(0x00000000, 0xc8215c1a);
    NextWord256(27);
    TurnedLow(0x00000000, 0xb73679a2);
    NextWord256(28);
    TurnedLow(0x00000000, 0xe5bc3909);
    NextWord256(29);
    TurnedLow(0x00000000, 0x32663c5b);
    NextWord256(30);
    TurnedLow(0x00000018, 0x9d209d67);
    NextWord256(31);
    TurnedLow(0x61626380, 0xec8726cb);
  }

  lemma Words256To39(b: seq<byte>)
    requires b == Block()
    ensures Sha256Word(b, 32) == 0x93f5997f && Sha256Word(b, 33) == 0x3b68ba73
    ensures Sha256Word(b, 34) == 0xaff4ffc1 && Sha256Word(b, 35) == 0xf10a5c62
    ensures Sha256Word(b, 36) == 0x0a8b3996 && Sha256Word(b, 37) == 0x72af830a
    ensures Sha256Word(b, 38) == 0x9409e33e && Sha256Word(b, 39) == 0x24641522
  {
    hide Sha256Word, Block, BlockWord, Ror;
    Words256To23(b); Words256To31(b);
    NextWord256(32);
    TurnedLow(0x000f0000, 0x702138a4);
    NextWord256(33);
    TurnedLow(0x7da86405, 0xd3b7973b);
    NextWord256(34);
    TurnedLow(0x600003c6, 0x93f5997f);
    NextWord256(35);
    TurnedLow(0x3e9d7b78, 0x3b68ba73);
    NextWord256(36);
    TurnedLow(0x0183fc00, 0xaff4ffc1);
    NextWord256(37);
    TurnedLow(0x12dcbfdb, 0xf10a5c62);
    NextWord256(38);
    TurnedLow(0xe2e2c38e, 0x0a8b3996);
    NextWord256(39);
    TurnedLow(0xc8215c1a, 0x72af830a);
  }

  lemma Words256To47(b: seq<byte>)
    requires b == Block()
    ensures Sha256Word(b, 40) == 0x9f47bf94 && Sha256Word(b, 41) == 0xf0a64f5a
    ensures Sha256Word(b, 42) == 0x3e246a79 && Sha256Word(b, 43) == 0x27333ba3
    ensures Sha256Word(b, 44) == 0x0c4763f2 && Sha256Word(b, 45) == 0x840abf27
    ensures Sha256Word(b, 46) == 0x7a290d5d && Sha256Word(b, 47) == 0x065c43da
  {
    hide Sha256Word, Block, BlockWord, Ror;
    Words256To31(b); Words256To39(b);
    NextWord256(40);
    TurnedLow(0xb73679a2, 0x9409e33e);
    NextWord256(41);
    TurnedLow(0xe5bc3909, 0x24641522);
    NextWord256(42);
    TurnedLow(0x32663c5b, 0x9f47bf94);
    NextWord256(43);
    TurnedLow(0x9d209d67, 0xf0a64f5a);
    NextWord256(44);
    TurnedLow(0xec8726cb, 0x3e246a79);
    NextWord256(45);
    TurnedLow(0x702138a4, 0x27333ba3);
    NextWord256(46);
    TurnedLow(0xd3b7973b, 0x0c4763f2);
    NextWord256(47);
    TurnedLow(0x93f5997f, 0x840abf27);
  }

  lemma Words256To55(b: seq<byte>)
    requires b == Block()
    ensures Sha256Word(b, 48) == 0xfb3e89cb && Sha256Word(b, 49) == 0xcc7617db
    ensures Sha256Word(b, 50) == 0xb9e66c34 && Sha256Word(b, 51) == 0xa9993667
    ensures Sha256Word(b, 52) == 0x84badedd && Sha256Word(b, 53) == 0xc21462bc
    ensures Sha256Word(b, 54) == 0x1487472c && Sha256Word(b, 55) == 0xb20f7a99
  {
    hide Sha256Word, Block, BlockWord, Ror;
    Words256To39(b); Words256To47(b);
    NextWord256(48);
    TurnedLow(0x3b68ba73, 0x7a290d5d);
    NextWord256(49);
    TurnedLow(0xaff4ffc1, 0x065c43da);
    NextWord256(50);
    TurnedLow(0xf10a5c62, 0xfb3e89cb);
    NextWord256(51);
    TurnedLow(0x0a8b3996, 0xcc7617db);
    NextWord256(52);
    TurnedLow(0x72af830a, 0xb9e66c34);
    NextWord256(53);
    TurnedLow(0x9409e33e, 0xa9993667);
    NextWord256(54);
    TurnedLow(0x24641522, 0x84badedd);
    NextWord256(55);
    TurnedLow(0x9f47bf94, 0xc21462bc);
  }

  lemma Words256To63(b: seq<byte>)
    requires b == Block()
    ensures Sha256Word(b, 56) == 0xef57b9cd && Sha256Word(b, 57) == 0xebe6b238
    ensures Sha256Word(b, 58) == 0x9fe3095e && Sha256Word(b, 59) == 0x78bc8d4b
    ensures Sha256Word(b, 60) == 0xa43fcf15 && Sha256Word(b, 61) == 0x668b2ff8
    ensures Sha256Word(b, 62) == 0xeeaba2cc && Sha256Word(b, 63) == 0x12b1edeb
  {
    hide Sha256Word, Block, BlockWord, Ror;
    Words256To47(b); Words256To55(b);
    NextWord256(56);
    TurnedLow(0xf0a64f5a, 0x1487472c);
    NextWord256(57);
    TurnedLow(0x3e246a79, 0xb20f7a99);
    NextWord256(58);
    TurnedLow(0x27333ba3, 0xef57b9cd);
    NextWord256(59);
    TurnedLow(0x0c4763f2, 0xebe6b238);
    NextWord256(60);
    TurnedLow(0x840abf27, 0x9fe3095e);
    NextWord256(61);
    TurnedLow(0x7a290d5d, 0x78bc8d4b);
    NextWord256(62);
    TurnedLow(0x065c43da, 0xa43fcf15);
    NextWord256(63);
    TurnedLow(0xfb3e89cb, 0x668b2ff8);
  }

  lemma Rounds256To16(n: nat)
    requires n == 16
    ensures Sha256Rounds(Start256(), Block(), n) ==
      Eight(0xb0fa238e, 0xc0645fde, 0xd932eb16, 0x87912990, 0x07590dcd, 0x0b92f20c, 0x745a48de, 0x1e578218)
  {
    hide Sha256Rounds, Sha256Word, Sha256K, Block, Start256, Ror;
    Words256To7(Block()); Words256To15(Block());
    Constants0(); Constants4(); Constants8(); Constants12();
    NoRound256(Start256());
    StartIs256();
    NextRound256(Start256(), 0);
    Turned(0x6a09e667, 0x510e527f);
    assert Sha256Rounds(Start256(), Block(), 1) ==
      Eight(0x5d6aebcd, 0x6a09e667, 0xbb67ae85, 0x3c6ef372, 0xfa2a4622, 0x510e527f, 0x9b05688c, 0x1f83d9ab);
    NextRound256(Start256(), 1);
    Turned(0x5d6aebcd, 0xfa2a4622);
    assert Sha256Rounds(Start256(), Block(), 2) ==
      Eight(0x5a6ad9ad, 0x5d6aebcd, 0x6a09e667, 0xbb67ae85, 0x78ce7989, 0xfa2a4622, 0x510e527f, 0x9b05688c);
    NextRound256(Start256(), 2);
    Turned(0x5a6ad9ad, 0x78ce7989);
    assert Sha256Rounds(Start256(), Block(), 3) ==
      Eight(0xc8c347a7, 0x5a6ad9ad, 0x5d6aebcd, 0x6a09e667, 0xf92939eb, 0x78ce7989, 0xfa2a4622, 0x510e527f);
    NextRound256(Start256(), 3);
    Turned(0xc8c347a7, 0xf92939eb);
    assert Sha256Rounds(Start256(), Block(), 4) ==
      Eight(0xd550f666, 0xc8c347a7, 0x5a6ad9ad, 0x5d6aebcd, 0x24e00850, 0xf92939eb, 0x78ce7989, 0xfa2a4622);
    NextRound256(Start256(), 4);
    Turned(0xd550f666, 0x24e00850);
    assert Sha256Rounds(Start256(), Block(), 5) ==
      Eight(0x04409a6a, 0xd550f666, 0xc8c347a7, 0x5a6ad9ad, 0x43ada245, 0x24e00850, 0xf92939eb, 0x78ce7989);
    NextRound256(Start256(), 5);
    Turned(0x04409a6a, 0x43ada245);
    assert Sha256Rounds(Start256(), Block(), 6) ==
      Eight(0x2b4209f5, 0x04409a6a, 0xd550f666, 0xc8c347a7, 0x714260ad, 0x43ada245, 0x24e00850, 0xf92939eb);
    NextRound256(Start256(), 6);
    Turned(0x2b4209f5, 0x714260ad);
    assert Sha256Rounds(Start256(), Block(), 7) ==
      Eight(0xe5030380, 0x2b4209f5, 0x04409a6a, 0xd550f666, 0x9b27a401, 0x714260ad, 0x43ada245, 0x24e00850);
    NextRound256(Start256(), 7);
    Turned(0xe5030380, 0x9b27a401);
    assert Sha256Rounds(Start256(), Block(), 8) ==
      Eight(0x85a07b5f, 0xe5030380, 0x2b4209f5, 0x04409a6a, 0x0c657a79, 0x9b27a401, 0x714260ad, 0x43ada245);
    NextRound256(Start256(), 8);
    Turned(0x85a07b5f, 0x0c657a79);
    assert Sha256Rounds(Start256(), Block(), 9) ==
      Eight(0x8e04ecb9, 0x85a07b5f, 0xe5030380, 0x2b4209f5, 0x32ca2d8c, 0x0c657a79, 0x9b27a401, 0x714260ad);
    NextRound256(Start256(), 9);
    Turned(0x8e04ecb9, 0x32ca2d8c);
    assert Sha256Rounds(Start256(), Block(), 10) ==
      Eight(0x8c87346b, 0x8e04ecb9, 0x85a07b5f, 0xe5030380, 0x1cc92596, 0x32ca2d8c, 0x0c657a79, 0x9b27a401);
    NextRound256(Start256(), 10);
    Turned(0x8c87346b, 0x1cc92596);
    assert Sha256Rounds(Start256(), Block(), 11) ==
      Eight(0x4798a3f4, 0x8c87346b, 0x8e04ecb9, 0x85a07b5f, 0x436b23e8, 0x1cc92596, 0x32ca2d8c, 0x0c657a79);
    NextRound256(Start256(), 11);
    Turned(0x4798a3f4, 0x436b23e8);
    assert Sha256Rounds(Start256(), Block(), 12) ==
      Eight(0xf71fc5a9, 0x4798a3f4, 0x8c87346b, 0x8e04ecb9, 0x816fd6e9, 0x436b23e8, 0x1cc92596, 0x32ca2d8c);
    NextRound256(Start256(), 12);
    Turned(0xf71fc5a9, 0x816fd6e9);
    assert Sha256Rounds(Start256(), Block(), 13) ==
      Eight(0x87912990, 0xf71fc5a9, 0x4798a3f4, 0x8c87346b, 0x1e578218, 0x816fd6e9, 0x436b23e8, 0x1cc92596);
    NextRound256(Start256(), 13);
    Turned(0x87912990, 0x1e578218);
    assert Sha256Rounds(Start256(), Block(), 14) ==
      Eight(0xd932eb16, 0x87912990, 0xf71fc5a9, 0x4798a3f4, 0x745a48de, 0x1e578218, 0x816fd6e9, 0x436b23e8);
    NextRound256(Start256(), 14);
    Turned(0xd932eb16, 0x745a48de);
    assert Sha256Rounds(Start256(), Block(), 15) ==
      Eight(0xc0645fde, 0xd932eb16, 0x87912990, 0xf71fc5a9, 0x0b92f20c, 0x745a48de, 0x1e578218, 0x816fd6e9);
    NextRound256(Start256(), 15);
    Turned(0xc0645fde, 0x0b92f20c);
  }

  lemma Rounds256To32(n: nat)
    requires n == 32
    ensures Sha256Rounds(Start256(), Block(), n) ==
      Eight(0x73b33bf5, 0xea992a22, 0xa0060b30, 0x363482c9, 0xba591112, 0x0109ab3a, 0xade79437, 0x6112a3b7)
  {
    hide Sha256Rounds, Sha256Word, Sha256K, Block, Start256, Ror;
    Words256To23(Block()); Words256To31(Block());
    Constants16(); Constants20(); Constants24(); Constants28();
    Rounds256To16(16);
    NextRound256(Start256(), 16);
    Turned(0xb0fa238e, 0x07590dcd);
    assert Sha256Rounds(Start256(), Block(), 17) ==
      Eight(0x21da9a9b, 0xb0fa238e, 0xc0645fde, 0xd932eb16, 0x8034229c, 0x07590dcd, 0x0b92f20c, 0x745a48de);
    NextRound256(Start256(), 17);
    Turned(0x21da9a9b, 0x8034229c);
    assert Sha256Rounds(Start256(), Block(), 18) ==
      Eight(0xc2fbd9d1, 0x21da9a9b, 0xb0fa238e, 0xc0645fde, 0x846ee454, 0x8034229c, 0x07590dcd, 0x0b92f20c);
    NextRound256(Start256(), 18);
    Turned(0xc2fbd9d1, 0x846ee454);
    assert Sha256Rounds(Start256(), Block(), 19) ==
      Eight(0xfe777bbf, 0xc2fbd9d1, 0x21da9a9b, 0xb0fa238e, 0xcc899961, 0x846ee454, 0x8034229c, 0x07590dcd);
    NextRound256(Start256(), 19);
    Turned(0xfe777bbf, 0xcc899961);
    assert Sha256Rounds(Start256(), Block(), 20) ==
      Eight(0xe1f20c33, 0xfe777bbf, 0xc2fbd9d1, 0x21da9a9b, 0xb0638179, 0xcc899961, 0x846ee454, 0x8034229c);
    NextRound256(Start256(), 20);
    Turned(0xe1f20c33, 0xb0638179);
    assert Sha256Rounds(Start256(), Block(), 21) ==
      Eight(0x9dc68b63, 0xe1f20c33, 0xfe777bbf, 0xc2fbd9d1, 0x8ada8930, 0xb0638179, 0xcc899961, 0x846ee454);
    NextRound256(Start256(), 21);
    Turned(0x9dc68b63, 0x8ada8930);
    assert Sha256Rounds(Start256(), Block(), 22) ==
      Eight(0xc2606d6d, 0x9dc68b63, 0xe1f20c33, 0xfe777bbf, 0xe1257970, 0x8ada8930, 0xb0638179, 0xcc899961);
    NextRound256(Start256(), 22);
    Turned(0xc2606d6d, 0xe1257970);
    assert Sha256Rounds(Start256(), Block(), 23) ==
      Eight(0xa7a3623f, 0xc2606d6d, 0x9dc68b63, 0xe1f20c33, 0x49f5114a, 0xe1257970, 0x8ada8930, 0xb0638179);
    NextRound256(Start256(), 23);
    Turned(0xa7a3623f, 0x49f5114a);
    assert Sha256Rounds(Start256(), Block(), 24) ==
      Eight(0xc5d53d8d, 0xa7a3623f, 0xc2606d6d, 0x9dc68b63, 0xaa47c347, 0x49f5114a, 0xe1257970, 0x8ada8930);
    NextRound256(Start256(), 24);
    Turned(0xc5d53d8d, 0xaa47c347);
    assert Sha256Rounds(Start256(), Block(), 25) ==
      Eight(0x1c2c2838, 0xc5d53d8d, 0xa7a3623f, 0xc2606d6d, 0x2823ef91, 0xaa47c347, 0x49f5114a, 0xe1257970);
    NextRound256(Start256(), 25);
    Turned(0x1c2c2838, 0x2823ef91);
    assert Sha256Rounds(Start256(), Block(), 26) ==
      Eight(0xcde8037d, 0x1c2c2838, 0xc5d53d8d, 0xa7a3623f, 0x14383d8e, 0x2823ef91, 0xaa47c347, 0x49f5114a);
    NextRound256(Start256(), 26);
    Turned(0xcde8037d, 0x14383d8e);
    assert Sha256Rounds(Start256(), Block(), 27) ==
      Eight(0xb62ec4bc, 0xcde8037d, 0x1c2c2838, 0xc5d53d8d, 0xc74c6516, 0x14383d8e, 0x2823ef91, 0xaa47c347);
    NextRound256(Start256(), 27);
    Turned(0xb62ec4bc, 0xc74c6516);
    assert Sha256Rounds(Start256(), Block(), 28) ==
      Eight(0x77d37528, 0xb62ec4bc, 0xcde8037d, 0x1c2c2838, 0xedffbff8, 0xc74c6516, 0x14383d8e, 0x2823ef91);
    NextRound256(Start256(), 28);
    Turned(0x77d37528, 0xedffbff8);
    assert Sha256Rounds(Start256(), Block(), 29) ==
      Eight(0x363482c9, 0x77d37528, 0xb62ec4bc, 0xcde8037d, 0x6112a3b7, 0xedffbff8, 0xc74c6516, 0x14383d8e);
    NextRound256(Start256(), 29);
    Turned(0x363482c9, 0x6112a3b7);
    assert Sha256Rounds(Start256(), Block(), 30) ==
      Eight(0xa0060b30, 0x363482c9, 0x77d37528, 0xb62ec4bc, 0xade79437, 0x6112a3b7, 0xedffbff8, 0xc74c6516);
    NextRound256(Start256(), 30);
    Turned(0xa0060b30, 0xade79437);
    assert Sha256Rounds(Start256(), Block(), 31) ==
      Eight(0xea992a22, 0xa0060b30, 0x363482c9, 0x77d37528, 0x0109ab3a, 0xade79437, 0x6112a3b7, 0xedffbff8);
    NextRound256(Start256(), 31);
    Turned(0xea992a22, 0x0109ab3a);
  }

  lemma Rounds256To48(n: nat)
    requires n == 48
    ensures Sha256Rounds(Start256(), Block(), n) ==
      Eight(0x4172328d, 0xa14c14b0, 0x72ab4b91, 0x26628815, 0xfecf0bc6, 0xd57b94a9, 0xb7755da1, 0xa80f11f0)
  {
    hide Sha256Rounds, Sha256Word, Sha256K, Block, Start256, Ror;
    Words256To39(Block()); Words256To47(Block());
    Constants32(); Constants36(); Constants40(); Constants44();
    Rounds256To32(32);
    NextRound256(Start256(), 32);
    Turned(0x73b33bf5, 0xba591112);
    assert Sha256Rounds(Start256(), Block(), 33) ==
      Eight(0x98e12507, 0x73b33bf5, 0xea992a22, 0xa0060b30, 0x9cd9f5f6, 0xba591112, 0x0109ab3a, 0xade79437);
    NextRound256(Start256(), 33);
    Turned(0x98e12507, 0x9cd9f5f6);
    assert Sha256Rounds(Start256(), Block(), 34) ==
      Eight(0xfe604df5, 0x98e12507, 0x73b33bf5, 0xea992a22, 0x59249dd3, 0x9cd9f5f6, 0xba591112, 0x0109ab3a);
    NextRound256(Start256(), 34);
    Turned(0xfe604df5, 0x59249dd3);
    assert Sha256Rounds(Start256(), Block(), 35) ==
      Eight(0xa9a7738c, 0xfe604df5, 0x98e12507, 0x73b33bf5, 0x085f3833, 0x59249dd3, 0x9cd9f5f6, 0xba591112);
    NextRound256(Start256(), 35);
    Turned(0xa9a7738c, 0x085f3833);
    assert Sha256Rounds(Start256(), Block(), 36) ==
      Eight(0x65a0cfe4, 0xa9a7738c, 0xfe604df5, 0x98e12507, 0xf4b002d6, 0x085f3833, 0x59249dd3, 0x9cd9f5f6);
    NextRound256(Start256(), 36);
    Turned(0x65a0cfe4, 0xf4b002d6);
    assert Sha256Rounds(Start256(), Block(), 37) ==
      Eight(0x41a65cb1, 0x65a0cfe4, 0xa9a7738c, 0xfe604df5, 0x0772a26b, 0xf4b002d6, 0x085f3833, 0x59249dd3);
    NextRound256(Start256(), 37);
    Turned(0x41a65cb1, 0x0772a26b);
    assert Sha256Rounds(Start256(), Block(), 38) ==
      Eight(0x34df1604, 0x41a65cb1, 0x65a0cfe4, 0xa9a7738c, 0xa507a53d, 0x0772a26b, 0xf4b002d6, 0x085f3833);
    NextRound256(Start256(), 38);
    Turned(0x34df1604, 0xa507a53d);
    assert Sha256Rounds(Start256(), Block(), 39) ==
      Eight(0x6dc57a8a, 0x34df1604, 0x41a65cb1, 0x65a0cfe4, 0xf0781bc8, 0xa507a53d, 0x0772a26b, 0xf4b002d6);
    NextRound256(Start256(), 39);
    Turned(0x6dc57a8a, 0xf0781bc8);
    assert Sha256Rounds(Start256(), Block(), 40) ==
      Eight(0x79ea687a, 0x6dc57a8a, 0x34df1604, 0x41a65cb1, 0x1efbc0a0, 0xf0781bc8, 0xa507a53d, 0x0772a26b);
    NextRound256(Start256(), 40);
    Turned(0x79ea687a, 0x1efbc0a0);
    assert Sha256Rounds(Start256(), Block(), 41) ==
      Eight(0xd6670766, 0x79ea687a, 0x6dc57a8a, 0x34df1604, 0x26352d63, 0x1efbc0a0, 0xf0781bc8, 0xa507a53d);
    NextRound256(Start256(), 41);
    Turned(0xd6670766, 0x26352d63);
    assert Sha256Rounds(Start256(), Block(), 42) ==
      Eight(0xdf46652f, 0xd6670766, 0x79ea687a, 0x6dc57a8a, 0x838b2711, 0x26352d63, 0x1efbc0a0, 0xf0781bc8);
    NextRound256(Start256(), 42);
    Turned(0xdf46652f, 0x838b2711);
    assert Sha256Rounds(Start256(), Block(), 43) ==
      Eight(0x17aa0dfe, 0xdf46652f, 0xd6670766, 0x79ea687a, 0xdecd4715, 0x838b2711, 0x26352d63, 0x1efbc0a0);
    NextRound256(Start256(), 43);
    Turned(0x17aa0dfe, 0xdecd4715);
    assert Sha256Rounds(Start256(), Block(), 44) ==
      Eight(0x9d4baf93, 0x17aa0dfe, 0xdf46652f, 0xd6670766, 0xfda24c2e, 0xdecd4715, 0x838b2711, 0x26352d63);
    NextRound256(Start256(), 44);
    Turned(0x9d4baf93, 0xfda24c2e);
    assert Sha256Rounds(Start256(), Block(), 45) ==
      Eight(0x26628815, 0x9d4baf93, 0x17aa0dfe, 0xdf46652f, 0xa80f11f0, 0xfda24c2e, 0xdecd4715, 0x838b2711);
    NextRound256(Start256(), 45);
    Turned(0x26628815, 0xa80f11f0);
    assert Sha256Rounds(Start256(), Block(), 46) ==
      Eight(0x72ab4b91, 0x26628815, 0x9d4baf93, 0x17aa0dfe, 0xb7755da1, 0xa80f11f0, 0xfda24c2e, 0xdecd4715);
    NextRound256(Start256(), 46);
    Turned(0x72ab4b91, 0xb7755da1);
    assert Sha256Rounds(Start256(), Block(), 47) ==
      Eight(0xa14c14b0, 0x72ab4b91, 0x26628815, 0x9d4baf93, 0xd57b94a9, 0xb7755da1, 0xa80f11f0, 0xfda24c2e);
    NextRound256(Start256(), 47);
    Turned(0xa14c14b0, 0xd57b94a9);
  }

  lemma Rounds256To64(n: nat)
    requires n == 64
    ensures Sha256Rounds(Start256(), Block(), n) ==
      Eight(0x506e3058, 0xd39a2165, 0x04d24d6c, 0xb85e2ce9, 0x5ef50f24, 0xfb121210, 0x948d25b6, 0x961f4894)
  {
    hide Sha256Rounds, Sha256Word, Sha256K, Block, Start256, Ror;
    Words256To55(Block()); Words256To63(Block());
    Constants48(); Constants52(); Constants56(); Constants60();
    Rounds256To48(48);
    NextRound256(Start256(), 48);
    Turned(0x4172328d, 0xfecf0bc6);
    assert Sha256Rounds(Start256(), Block(), 49) ==
      Eight(0x05757ceb, 0x4172328d, 0xa14c14b0, 0x72ab4b91, 0xbd714038, 0xfecf0bc6, 0xd57b94a9, 0xb7755da1);
    NextRound256(Start256(), 49);
    Turned(0x05757ceb, 0xbd714038);
    assert Sha256Rounds(Start256(), Block(), 50) ==
      Eight(0xf11bfaa8, 0x05757ceb, 0x4172328d, 0xa14c14b0, 0x6e5c390c, 0xbd714038, 0xfecf0bc6, 0xd57b94a9);
    NextRound256(Start256(), 50);
    Turned(0xf11bfaa8, 0x6e5c390c);
    assert Sha256Rounds(Start256(), Block(), 51) ==
      Eight(0x7a0508a1, 0xf11bfaa8, 0x05757ceb, 0x4172328d, 0x52f1ccf7, 0x6e5c390c, 0xbd714038, 0xfecf0bc6);
    NextRound256(Start256(), 51);
    Turned(0x7a0508a1, 0x52f1ccf7);
    assert Sha256Rounds(Start256(), Block(), 52) ==
      Eight(0x886e7a22, 0x7a0508a1, 0xf11bfaa8, 0x05757ceb, 0x49231c1e, 0x52f1ccf7, 0x6e5c390c, 0xbd714038);
    NextRound256(Start256(), 52);
    Turned(0x886e7a22, 0x49231c1e);
    assert Sha256Rounds(Start256(), Block(), 53) ==
      Eight(0x101fd28f, 0x886e7a22, 0x7a0508a1, 0xf11bfaa8, 0x529e7d00, 0x49231c1e, 0x52f1ccf7, 0x6e5c390c);
    NextRound256(Start256(), 53);
    Turned(0x101fd28f, 0x529e7d00);
    assert Sha256Rounds(Start256(), Block(), 54) ==
      Eight(0xf5702fdb, 0x101fd28f, 0x886e7a22, 0x7a0508a1, 0x9f4787c3, 0x529e7d00, 0x49231c1e, 0x52f1ccf7);
    NextRound256(Start256(), 54);
    Turned(0xf5702fdb, 0x9f4787c3);
    assert Sha256Rounds(Start256(), Block(), 55) ==
      Eight(0x3ec45cdb, 0xf5702fdb, 0x101fd28f, 0x886e7a22, 0xe50e1b4f, 0x9f4787c3, 0x529e7d00, 0x49231c1e);
    NextRound256(Start256(), 55);
    Turned(0x3ec45cdb, 0xe50e1b4f);
    assert Sha256Rounds(Start256(), Block(), 56) ==
      Eight(0x38cc9913, 0x3ec45cdb, 0xf5702fdb, 0x101fd28f, 0x54cb266b, 0xe50e1b4f, 0x9f4787c3, 0x529e7d00);
    NextRound256(Start256(), 56);
    Turned(0x38cc9913, 0x54cb266b);
    assert Sha256Rounds(Start256(), Block(), 57) ==
      Eight(0xfcd1887b, 0x38cc9913, 0x3ec45cdb, 0xf5702fdb, 0x9b5e906c, 0x54cb266b, 0xe50e1b4f, 0x9f4787c3);
    NextRound256(Start256(), 57);
    Turned(0xfcd1887b, 0x9b5e906c);
    assert Sha256Rounds(Start256(), Block(), 58) ==
      Eight(0xc062d46f, 0xfcd1887b, 0x38cc9913, 0x3ec45cdb, 0x7e44008e, 0x9b5e906c, 0x54cb266b, 0xe50e1b4f);
    NextRound256(Start256(), 58);
    Turned(0xc062d46f, 0x7e44008e);
    assert Sha256Rounds(Start256(), Block(), 59) ==
      Eight(0xffb70472, 0xc062d46f, 0xfcd1887b, 0x38cc9913, 0x6d83bfc6, 0x7e44008e, 0x9b5e906c, 0x54cb266b);
    NextRound256(Start256(), 59);
    Turned(0xffb70472, 0x6d83bfc6);
    assert Sha256Rounds(Start256(), Block(), 60) ==
      Eight(0xb6ae8fff, 0xffb70472, 0xc062d46f, 0xfcd1887b, 0xb21bad3d, 0x6d83bfc6, 0x7e44008e, 0x9b5e906c);
    NextRound256(Start256(), 60);
    Turned(0xb6ae8fff, 0xb21bad3d);
    assert Sha256Rounds(Start256(), Block(), 61) ==
      Eight(0xb85e2ce9, 0xb6ae8fff, 0xffb70472, 0xc062d46f, 0x961f4894, 0xb21bad3d, 0x6d83bfc6, 0x7e44008e);
    NextRound256(Start256(), 61);
    Turned(0xb85e2ce9, 0x961f4894);
    assert Sha256Rounds(Start256(), Block(), 62) ==
      Eight(0x04d24d6c, 0xb85e2ce9, 0xb6ae8fff, 0xffb70472, 0x948d25b6, 0x961f4894, 0xb21bad3d, 0x6d83bfc6);
    NextRound256(Start256(), 62);
    Turned(0x04d24d6c, 0x948d25b6);
    assert Sha256Rounds(Start256(), Block(), 63) ==
      Eight(0xd39a2165, 0x04d24d6c, 0xb85e2ce9, 0xb6ae8fff, 0xfb121210, 0x948d25b6, 0x961f4894, 0xb21bad3d);
    NextRound256(Start256(), 63);
    Turned(0xd39a2165, 0xfb121210);
  }

  function Start256(): Eight {
    var h := Start(Sha256);
    Eight(h[0], h[1], h[2], h[3], h[4], h[5], h[6], h[7])
  }

  lemma StartIs256()
    ensures Start256() ==
      Eight(0x6a09e667, 0xbb67ae85, 0x3c6ef372, 0xa54ff53a, 0x510e527f, 0x9b05688c, 0x1f83d9ab, 0x5be0cd19)
  {
  }

  lemma Digest256(s: Eight)
    requires Sha256Rounds(Start256(), Block(), 64) == s
    ensures var h := Start256();
      Compress(Sha256, Start(Sha256), Block()) ==
        [Plus(h.a, s.a), Plus(h.b, s.b), Plus(h.c, s.c), Plus(h.d, s.d), Plus(h.e, s.e), Plus(h.f, s.f), Plus(h.g, s.g), Plus(h.h, s.h)]
  {
    hide Sha256Rounds, Block, Start, Plus;
  }

  lemma OneFold(alg: Algorithm)
    ensures Fold(alg, Start(alg), Block(), 1) == Compress(alg, Start(alg), Block())
  {
    hide Compress, Start, Block;
    assert Block()[..0] == [] && Block()[0..] == Block();
  }

  lemma {:induction false} JoinedNext(h: seq<bv32>, p: seq<byte>, w: bv32, a: byte, b: byte, c: byte, d: byte, k: seq<bv32>, q: seq<byte>)
    requires Joined(h) == p && w == Word(a, b, c, d)
    requires k == h + [w] && q == p + [a, b, c, d]
    ensures Joined(k) == q
  {
    hide Word, B0, B1, B2, B3;
    assert k[..|k| - 1] == h && k[|k| - 1] == w;
    BytesOfWord(a, b, c, d);
  }

  lemma NothingJoined()
    ensures Joined([]) == []
  {
  }

  lemma FirstBytes256()
    ensures Joined([0xba7816bf, 0x8f01cfea, 0x414140de, 0x5dae2223]) == [
      0xba, 0x78, 0x16, 0xbf, 0x8f, 0x01, 0xcf, 0xea, 0x41, 0x41, 0x40, 0xde, 0x5d, 0xae, 0x22, 0x23]
  {
    hide Joined;
    assert Joined([]) == [] by { NothingJoined(); }
    var b1 := [0xba, 0x78, 0x16, 0xbf];
    var h1 := [0xba7816bf];
    JoinedNext([], [], 0xba7816bf, 0xba, 0x78, 0x16, 0xbf, h1, b1);
    var b2 := b1 + [0x8f, 0x01, 0xcf, 0xea];
    var h2 := h1 + [0x8f01cfea];
    JoinedNext(h1, b1, 0x8f01cfea, 0x8f, 0x01, 0xcf, 0xea, h2, b2);
    var b3 := b2 + [0x41, 0x41, 0x40, 0xde];
    var h3 := h2 + [0x414140de];
    JoinedNext(h2, b2, 0x414140de, 0x41, 0x41, 0x40, 0xde, h3, b3);
    var b4 := b3 + [0x5d, 0xae, 0x22, 0x23];
    var h4 := h3 + [0x5dae2223];
    JoinedNext(h3, b3, 0x5dae2223, 0x5d, 0xae, 0x22, 0x23, h4, b4);
    assert h4 == [0xba7816bf, 0x8f01cfea, 0x414140de, 0x5dae2223];
  }

  lemma LastBytes256(h0: seq<bv32>, b0: seq<byte>)
    requires Joined(h0) == b0
    ensures Joined(h0 + [0xb00361a3, 0x96177a9c, 0xb410ff61, 0xf20015ad]) == b0 + [
      0xb0, 0x03, 0x61, 0xa3, 0x96, 0x17, 0x7a, 0x9c, 0xb4, 0x10, 0xff, 0x61, 0xf2, 0x00, 0x15, 0xad]
  {
    hide Joined;
    var b1 := b0 + [0xb0, 0x03, 0x61, 0xa3];
    var h1 := h0 + [0xb00361a3];
    JoinedNext(h0, b0, 0xb00361a3, 0xb0, 0x03, 0x61, 0xa3, h1, b1);
    var b2 := b1 + [0x96, 0x17, 0x7a, 0x9c];
    var h2 := h1 + [0x96177a9c];
    JoinedNext(h1, b1, 0x96177a9c, 0x96, 0x17, 0x7a, 0x9c, h2, b2);
    var b3 := b2 + [0xb4, 0x10, 0xff, 0x61];
    var h3 := h2 + [0xb410ff61];
    JoinedNext(h2, b2, 0xb410ff61, 0xb4, 0x10, 0xff, 0x61, h3, b3);
    var b4 := b3 + [0xf2, 0x00, 0x15, 0xad];
    var h4 := h3 + [0xf20015ad];
    JoinedNext(h3, b3, 0xf20015ad, 0xf2, 0x00, 0x15, 0xad, h4, b4);
    assert h4 == h0 + [0xb00361a3, 0x96177a9c, 0xb410ff61, 0xf20015ad];
  }

  lemma Bytes256()
    ensures Joined([0xba7816bf, 0x8f01cfea, 0x414140de, 0x5dae2223, 0xb00361a3, 0x96177a9c, 0xb410ff61, 0xf20015ad]) == [
      0xba, 0x78, 0x16, 0xbf, 0x8f, 0x01, 0xcf, 0xea, 0x41, 0x41, 0x40, 0xde, 0x5d, 0xae, 0x22, 0x23,
      0xb0, 0x03, 0x61, 0xa3, 0x96, 0x17, 0x7a, 0x9c, 0xb4, 0x10, 0xff, 0x61, 0xf2, 0x00, 0x15, 0xad]
  {
    hide Joined;
    FirstBytes256();
    var h := [0xba7816bf, 0x8f01cfea, 0x414140de, 0x5dae2223];
    LastBytes256(h, Joined(h));
    assert h + [0xb00361a3, 0x96177a9c, 0xb410ff61, 0xf20015ad] == [0xba7816bf, 0x8f01cfea, 0x414140de, 0x5dae2223, 0xb00361a3, 0x96177a9c, 0xb410ff61, 0xf20015ad];
  }

  /** The digest of "abc" under SHA-256. */
  lemma Sha256OfAbc()
    ensures Digest(Sha256, Abc()) == [
      0xba, 0x78, 0x16, 0xbf, 0x8f, 0x01, 0xcf, 0xea, 0x41, 0x41, 0x40, 0xde, 0x5d, 0xae, 0x22, 0x23,
      0xb0, 0x03, 0x61, 0xa3, 0x96, 0x17, 0x7a, 0x9c, 0xb4, 0x10, 0xff, 0x61, 0xf2, 0x00, 0x15, 0xad]
  {
    hide Sha256Rounds, Compress, Fold, Start, Start256, Padded, Joined, Abc, Block;
    Rounds256To64(64);
    StartIs256();
    Digest256(Eight(0x506e3058, 0xd39a2165, 0x04d24d6c, 0xb85e2ce9, 0x5ef50f24, 0xfb121210, 0x948d25b6, 0x961f4894));
    OneFold(Sha256);
    BlockIsPadded();
    Bytes256();
  }

  // ---- SHA-1

  lemma NextWord1(t: nat)
    requires t >= 16
    ensures Sha1Word(Block(), t) ==
      Sha1Next(Sha1Word(Block(), t - 3), Sha1Word(Block(), t - 8), Sha1Word(Block(), t - 14), Sha1Word(Block(), t - 16))
  {
    hide Sha1Next, Block;
  }

  lemma EarlyWord1(t: nat)
    requires t < 16
    ensures Sha1Word(Block(), t) == BlockWord(Block(), t)
  {
    hide Block;
  }

  lemma NextRound1(h: Five, t: nat)
    ensures Sha1Rounds(h, Block(), t + 1) == Sha1Round(Sha1Rounds(h, Block(), t), t, Sha1Word(Block(), t))
  {
    hide Sha1Round, Sha1Word, Block;
  }

  lemma NoRound1(h: Five)
    ensures Sha1Rounds(h, Block(), 0) == h
  {
  }

  lemma Rol1(w: bv32)
    ensures (w << 1) | (w >> 31) == Rol(w, 1)
  {
    var n: nat := 1;
    assert Rol(w, 1) == (w << n) | (w >> (32 - n));
  }

  lemma Rol5(w: bv32)
    ensures (w << 5) | (w >> 27) == Rol(w, 5)
  {
    var n: nat := 5;
    assert Rol(w, 5) == (w << n) | (w >> (32 - n));
  }

  lemma Rol30(w: bv32)
    ensures (w << 30) | (w >> 2) == Rol(w, 30)
  {
    var n: nat := 30;
    assert Rol(w, 30) == (w << n) | (w >> (32 - n));
  }

  lemma Words1To7(b: seq<byte>)
    requires b == Block()
    ensures Sha1Word(b, 0) == 0x61626380 && Sha1Word(b, 1) == 0x00000000
    ensures Sha1Word(b, 2) == 0x00000000 && Sha1Word(b, 3) == 0x00000000
    ensures Sha1Word(b, 4) == 0x00000000 && Sha1Word(b, 5) == 0x00000000
    ensures Sha1Word(b, 6) == 0x00000000 && Sha1Word(b, 7) == 0x00000000
  {
    hide Sha1Word, Block, BlockWord, Rol;
    FirstWords();
    EarlyWord1(0); EarlyWord1(1); EarlyWord1(2); EarlyWord1(3); EarlyWord1(4); EarlyWord1(5); EarlyWord1(6); EarlyWord1(7);
  }

  lemma Words1To15(b: seq<byte>)
    requires b == Block()
    ensures Sha1Word(b, 8) == 0x00000000 && Sha1Word(b, 9) == 0x00000000
    ensures Sha1Word(b, 10) == 0x00000000 && Sha1Word(b, 11) == 0x00000000
    ensures Sha1Word(b, 12) == 0x00000000 && Sha1Word(b, 13) == 0x00000000
    ensures Sha1Word(b, 14) == 0x00000000 && Sha1Word(b, 15) == 0x00000018
  {
    hide Sha1Word, Block, BlockWord, Rol;
    FirstWords();
    EarlyWord1(8); EarlyWord1(9); EarlyWord1(10); EarlyWord1(11); EarlyWord1(12); EarlyWord1(13); EarlyWord1(14); EarlyWord1(15);
  }

  lemma Words1To23(b: seq<byte>)
    requires b == Block()
    ensures Sha1Word(b, 16) == 0xc2c4c700 && Sha1Word(b, 17) == 0x00000000
    ensures Sha1Word(b, 18) == 0x00000030 && Sha1Word(b, 19) == 0x85898e01
    ensures Sha1Word(b, 20) == 0x00000000 && Sha1Word(b, 21) == 0x00000060
    ensures Sha1Word(b, 22) == 0x0b131c03 && Sha1Word(b, 23) == 0x00000030
  {
    hide Sha1Word, Block, BlockWord, Rol;
    Words1To7(b); Words1To15(b);
    NextWord1(16);
    Rol1(0x61626380);
    NextWord1(17);
    Rol1(0x00000000);
    NextWord1(18);
    Rol1(0x00000018);
    NextWord1(19);
    Rol1(0xc2c4c700);
    NextWord1(20);
    Rol1(0x00000000);
    NextWord1(21);
    Rol1(0x00000030);
    NextWord1(22);
    Rol1(0x85898e01);
    NextWord1(23);
    Rol1(0x00000018);
  }

  lemma Words1To31(b: seq<byte>)
    requires b == Block()
    ensures Sha1Word(b, 24) == 0x85898ec1 && Sha1Word(b, 25) == 0x16263806
    ensures Sha1Word(b, 26) == 0x00000000 && Sha1Word(b, 27) == 0x00000180
    ensures Sha1Word(b, 28) == 0x2c4c700c && Sha1Word(b, 29) == 0x000000f0
    ensures Sha1Word(b, 30) == 0x93afb507 && Sha1Word(b, 31) == 0x5898e048
  {
    hide Sha1Word, Block, BlockWord, Rol;
    Words1To15(b); Words1To23(b);
    NextWord1(24);
    Rol1(0xc2c4c760);
    NextWord1(25);
    Rol1(0x0b131c03);
    NextWord1(26);
    Rol1(0x00000000);
    NextWord1(27);
    Rol1(0x000000c0);
    NextWord1(28);
    Rol1(0x16263806);
    NextWord1(29);
    Rol1(0x00000078);
    NextWord1(30);
    Rol1(0xc9d7da83);
    NextWord1(31);
    Rol1(0x2c4c7024);
  }

  lemma Words1To39(b: seq<byte>)
    requires b == Block()
    ensures Sha1Word(b, 32) == 0x8e9a9202 && Sha1Word(b, 33) == 0x00000600
    ensures Sha1Word(b, 34) == 0xb131c0f0 && Sha1Word(b, 35) == 0x16263bc6
    ensures Sha1Word(b, 36) == 0x4ebed41e && Sha1Word(b, 37) == 0x626380a1
    ensures Sha1Word(b, 38) == 0x16263806 && Sha1Word(b, 39) == 0x000018c0
  {
    hide Sha1Word, Block, BlockWord, Rol;
    Words1To23(b); Words1To31(b);
    NextWord1(32);
    Rol1(0x474d4901);
    NextWord1(33);
    Rol1(0x00000300);
    NextWord1(34);
    Rol1(0x5898e078);
    NextWord1(35);
    Rol1(0x0b131de3);
    NextWord1(36);
    Rol1(0x275f6a0f);
    NextWord1(37);
    Rol1(0xb131c050);
    NextWord1(38);
    Rol1(0x0b131c03);
    NextWord1(39);
    Rol1(0x00000c60);
  }

  lemma Words1To47(b: seq<byte>)
    requires b == Block()
    ensures Sha1Word(b, 40) == 0xd2e138c4 && Sha1Word(b, 41) == 0x00000f00
    ensures Sha1Word(b, 42) == 0x3afb5079 && Sha1Word(b, 43) == 0x898e04e5
    ensures Sha1Word(b, 44) == 0xe2ba3c2b && Sha1Word(b, 45) == 0x000060c0
    ensures Sha1Word(b, 46) == 0x053a37cd && Sha1Word(b, 47) == 0x74458547
  {
    hide Sha1Word, Block, BlockWord, Rol;
    Words1To31(b); Words1To39(b);
    NextWord1(40);
    Rol1(0x69709c62);
    NextWord1(41);
    Rol1(0x00000780);
    NextWord1(42);
    Rol1(0x9d7da83c);
    NextWord1(43);
    Rol1(0xc4c70272);
    NextWord1(44);
    Rol1(0xf15d1e15);
    NextWord1(45);
    Rol1(0x00003060);
    NextWord1(46);
    Rol1(0x829d1be6);
    NextWord1(47);
    Rol1(0xba22c2a3);
  }

  lemma Words1To55(b: seq<byte>)
    requires b == Block()
    ensures Sha1Word(b, 48) == 0xda9415ed && Sha1Word(b, 49) == 0x26380a16
    ensures Sha1Word(b, 50) == 0x626383a1 && Sha1Word(b, 51) == 0x4ebf54de
    ensures Sha1Word(b, 52) == 0x3835b44b && Sha1Word(b, 53) == 0x0000f600
    ensures Sha1Word(b, 54) == 0x1e84c7a3 && Sha1Word(b, 55) == 0x98e04d98
  {
    hide Sha1Word, Block, BlockWord, Rol;
    Words1To39(b); Words1To47(b);
    NextWord1(48);
    Rol1(0xed4a0af6);
    NextWord1(49);
    Rol1(0x131c050b);
    NextWord1(50);
    Rol1(0xb131c1d0);
    NextWord1(51);
    Rol1(0x275faa6f);
    NextWord1(52);
    Rol1(0x9c1ada25);
    NextWord1(53);
    Rol1(0x00007b00);
    NextWord1(54);
    Rol1(0x8f4263d1);
    NextWord1(55);
    Rol1(0x4c7026cc);
  }

  lemma Words1To63(b: seq<byte>)
    requires b == Block()
    ensures Sha1Word(b, 56) == 0x651d16a0 && Sha1Word(b, 57) == 0x62658ca1
    ensures Sha1Word(b, 58) == 0x458544d6 && Sha1Word(b, 59) == 0x44584cb7
    ensures Sha1Word(b, 60) == 0x7ba06619 && Sha1Word(b, 61) == 0x6380aea2
    ensures Sha1Word(b, 62) == 0x0ae55269 && Sha1Word(b, 63) == 0x627b49a1
  {
    hide Sha1Word, Block, BlockWord, Rol;
    Words1To47(b); Words1To55(b);
    NextWord1(56);
    Rol1(0x328e8b50);
    NextWord1(57);
    Rol1(0xb132c650);
    NextWord1(58);
    Rol1(0x22c2a26b);
    NextWord1(59);
    Rol1(0xa22c265b);
    NextWord1(60);
    Rol1(0xbdd0330c);
    NextWord1(61);
    Rol1(0x31c05751);
    NextWord1(62);
    Rol1(0x8572a934);
    NextWord1(63);
    Rol1(0xb13da4d0);
  }

  lemma Words1To71(b: seq<byte>)
    requires b == Block()
    ensures Sha1Word(b, 64) == 0x7cd45c9d && Sha1Word(b, 65) == 0x000f0000
    ensures Sha1Word(b, 66) == 0xfb50753a && Sha1Word(b, 67) == 0xec6765e8
    ensures Sha1Word(b, 68) == 0xba3c2be2 && Sha1Word(b, 69) == 0x0060c000
    ensures Sha1Word(b, 70) == 0x3a37cd05 && Sha1Word(b, 71) == 0x458546f4
  {
    hide Sha1Word, Block, BlockWord, Rol;
    Words1To55(b); Words1To63(b);
    NextWord1(64);
    Rol1(0xbe6a2e4e);
    NextWord1(65);
    Rol1(0x00078000);
    NextWord1(66);
    Rol1(0x7da83a9d);
    NextWord1(67);
    Rol1(0x7633b2f4);
    NextWord1(68);
    Rol1(0x5d1e15f1);
    NextWord1(69);
    Rol1(0x00306000);
    NextWord1(70);
    Rol1(0x9d1be682);
    NextWord1(71);
    Rol1(0x22c2a37a);
  }

  lemma Words1To79(b: seq<byte>)
    requires b == Block()
    ensures Sha1Word(b, 72) == 0xb8599dd6 && Sha1Word(b, 73) == 0x380a1a26
    ensures Sha1Word(b, 74) == 0x01e02203 && Sha1Word(b, 75) == 0xe7cc3456
    ensures Sha1Word(b, 76) == 0xe6e60b69 && Sha1Word(b, 77) == 0x00f60a00
    ensures Sha1Word(b, 78) == 0x5795ef4f && Sha1Word(b, 79) == 0x822e0879
  {
    hide Sha1Word, Block, BlockWord, Rol;
    Words1To63(b); Words1To71(b);
    NextWord1(72);
    Rol1(0x5c2cceeb);
    NextWord1(73);
    Rol1(0x1c050d13);
    NextWord1(74);
    Rol1(0x80f01101);
    NextWord1(75);
    Rol1(0x73e61a2b);
    NextWord1(76);
    Rol1(0xf37305b4);
    NextWord1(77);
    Rol1(0x007b0500);
    NextWord1(78);
    Rol1(0xabcaf7a7);
    NextWord1(79);
    Rol1(0xc117043c);
  }

  lemma Rounds1To16(n: nat)
    requires n == 16
    ensures Sha1Rounds(Start1(), Block(), n) == Five(0x20bdd62f, 0x196bee77, 0x644a3da5, 0x1181ed99, 0x18c623f9)
  {
    hide Sha1Rounds, Sha1Word, Block, Start1, Rol;
    Words1To7(Block()); Words1To15(Block());
    NoRound1(Start1());
    StartIs1();
    NextRound1(Start1(), 0);
    Rol5(0x67452301);
    Rol30(0xefcdab89);
    assert Sha1Rounds(Start1(), Block(), 1) == Five(0x0116fc33, 0x67452301, 0x7bf36ae2, 0x98badcfe, 0x10325476);
    NextRound1(Start1(), 1);
    Rol5(0x0116fc33);
    Rol30(0x67452301);
    assert Sha1Rounds(Start1(), Block(), 2) == Five(0x8990536d, 0x0116fc33, 0x59d148c0, 0x7bf36ae2, 0x98badcfe);
    NextRound1(Start1(), 2);
    Rol5(0x8990536d);
    Rol30(0x0116fc33);
    assert Sha1Rounds(Start1(), Block(), 3) == Five(0xa1390f08, 0x8990536d, 0xc045bf0c, 0x59d148c0, 0x7bf36ae2);
    NextRound1(Start1(), 3);
    Rol5(0xa1390f08);
    Rol30(0x8990536d);
    assert Sha1Rounds(Start1(), Block(), 4) == Five(0xcdd8e11b, 0xa1390f08, 0x626414db, 0xc045bf0c, 0x59d148c0);
    NextRound1(Start1(), 4);
    Rol5(0xcdd8e11b);
    Rol30(0xa1390f08);
    assert Sha1Rounds(Start1(), Block(), 5) == Five(0xcfd499de, 0xcdd8e11b, 0x284e43c2, 0x626414db, 0xc045bf0c);
    NextRound1(Start1(), 5);
    Rol5(0xcfd499de);
    Rol30(0xcdd8e11b);
    assert Sha1Rounds(Start1(), Block(), 6) == Five(0x3fc7ca40, 0xcfd499de, 0xf3763846, 0x284e43c2, 0x626414db);
    NextRound1(Start1(), 6);
    Rol5(0x3fc7ca40);
    Rol30(0xcfd499de);
    assert Sha1Rounds(Start1(), Block(), 7) == Five(0x993e30c1, 0x3fc7ca40, 0xb3f52677, 0xf3763846, 0x284e43c2);
    NextRound1(Start1(), 7);
    Rol5(0x993e30c1);
    Rol30(0x3fc7ca40);
    assert Sha1Rounds(Start1(), Block(), 8) == Five(0x9e8c07d4, 0x993e30c1, 0x0ff1f290, 0xb3f52677, 0xf3763846);
    NextRound1(Start1(), 8);
    Rol5(0x9e8c07d4);
    Rol30(0x993e30c1);
    assert Sha1Rounds(Start1(), Block(), 9) == Five(0x4b6ae328, 0x9e8c07d4, 0x664f8c30, 0x0ff1f290, 0xb3f52677);
    NextRound1(Start1(), 9);
    Rol5(0x4b6ae328);
    Rol30(0x9e8c07d4);
    assert Sha1Rounds(Start1(), Block(), 10) == Five(0x8351f929, 0x4b6ae328, 0x27a301f5, 0x664f8c30, 0x0ff1f290);
    NextRound1(Start1(), 10);
    Rol5(0x8351f929);
    Rol30(0x4b6ae328);
    assert Sha1Rounds(Start1(), Block(), 11) == Five(0xfbda9e89, 0x8351f929, 0x12dab8ca, 0x27a301f5, 0x664f8c30);
    NextRound1(Start1(), 11);
    Rol5(0xfbda9e89);
    Rol30(0x8351f929);
    assert Sha1Rounds(Start1(), Block(), 12) == Five(0x63188fe4, 0xfbda9e89, 0x60d47e4a, 0x12dab8ca, 0x27a301f5);
    NextRound1(Start1(), 12);
    Rol5(0x63188fe4);
    Rol30(0xfbda9e89);
    assert Sha1Rounds(Start1(), Block(), 13) == Five(0x4607b664, 0x63188fe4, 0x7ef6a7a2, 0x60d47e4a, 0x12dab8ca);
    NextRound1(Start1(), 13);
    Rol5(0x4607b664);
    Rol30(0x63188fe4);
    assert Sha1Rounds(Start1(), Block(), 14) == Five(0x9128f695, 0x4607b664, 0x18c623f9, 0x7ef6a7a2, 0x60d47e4a);
    NextRound1(Start1(), 14);
    Rol5(0x9128f695);
    Rol30(0x4607b664);
    assert Sha1Rounds(Start1(), Block(), 15) == Five(0x196bee77, 0x9128f695, 0x1181ed99, 0x18c623f9, 0x7ef6a7a2);
    NextRound1(Start1(), 15);
    Rol5(0x196bee77);
    Rol30(0x9128f695);
  }

  lemma Rounds1To32(n: nat)
    requires n == 32
    ensures Sha1Rounds(Start1(), Block(), n) == Five(0x3b845d33, 0x1267b407, 0x717eebd7, 0xa0dc2d4b, 0xd2aa1365)
  {
    hide Sha1Rounds, Sha1Word, Block, Start1, Rol;
    Words1To23(Block()); Words1To31(Block());
    Rounds1To16(16);
    NextRound1(Start1(), 16);
    Rol5(0x20bdd62f);
    Rol30(0x196bee77);
    assert Sha1Rounds(Start1(), Block(), 17) == Five(0x4e925823, 0x20bdd62f, 0xc65afb9d, 0x644a3da5, 0x1181ed99);
    NextRound1(Start1(), 17);
    Rol5(0x4e925823);
    Rol30(0x20bdd62f);
    assert Sha1Rounds(Start1(), Block(), 18) == Five(0x82aa6728, 0x4e925823, 0xc82f758b, 0xc65afb9d, 0x644a3da5);
    NextRound1(Start1(), 18);
    Rol5(0x82aa6728);
    Rol30(0x4e925823);
    assert Sha1Rounds(Start1(), Block(), 19) == Five(0xdc64901d, 0x82aa6728, 0xd3a49608, 0xc82f758b, 0xc65afb9d);
    NextRound1(Start1(), 19);
    Rol5(0xdc64901d);
    Rol30(0x82aa6728);
    assert Sha1Rounds(Start1(), Block(), 20) == Five(0xfd9e1d7d, 0xdc64901d, 0x20aa99ca, 0xd3a49608, 0xc82f758b);
    NextRound1(Start1(), 20);
    Rol5(0xfd9e1d7d);
    Rol30(0xdc64901d);
    assert Sha1Rounds(Start1(), Block(), 21) == Five(0x1a37b0ca, 0xfd9e1d7d, 0x77192407, 0x20aa99ca, 0xd3a49608);
    NextRound1(Start1(), 21);
    Rol5(0x1a37b0ca);
    Rol30(0xfd9e1d7d);
    assert Sha1Rounds(Start1(), Block(), 22) == Five(0x33a23bfc, 0x1a37b0ca, 0x7f67875f, 0x77192407, 0x20aa99ca);
    NextRound1(Start1(), 22);
    Rol5(0x33a23bfc);
    Rol30(0x1a37b0ca);
    assert Sha1Rounds(Start1(), Block(), 23) == Five(0x21283486, 0x33a23bfc, 0x868dec32, 0x7f67875f, 0x77192407);
    NextRound1(Start1(), 23);
    Rol5(0x21283486);
    Rol30(0x33a23bfc);
    assert Sha1Rounds(Start1(), Block(), 24) == Five(0xd541f12d, 0x21283486, 0x0ce88eff, 0x868dec32, 0x7f67875f);
    NextRound1(Start1(), 24);
    Rol5(0xd541f12d);
    Rol30(0x21283486);
    assert Sha1Rounds(Start1(), Block(), 25) == Five(0xc7567dc6, 0xd541f12d, 0x884a0d21, 0x0ce88eff, 0x868dec32);
    NextRound1(Start1(), 25);
    Rol5(0xc7567dc6);
    Rol30(0xd541f12d);
    assert Sha1Rounds(Start1(), Block(), 26) == Five(0x48413ba4, 0xc7567dc6, 0x75507c4b, 0x884a0d21, 0x0ce88eff);
    NextRound1(Start1(), 26);
    Rol5(0x48413ba4);
    Rol30(0xc7567dc6);
    assert Sha1Rounds(Start1(), Block(), 27) == Five(0xbe35fbd5, 0x48413ba4, 0xb1d59f71, 0x75507c4b, 0x884a0d21);
    NextRound1(Start1(), 27);
    Rol5(0xbe35fbd5);
    Rol30(0x48413ba4);
    assert Sha1Rounds(Start1(), Block(), 28) == Five(0x4aa84d97, 0xbe35fbd5, 0x12104ee9, 0xb1d59f71, 0x75507c4b);
    NextRound1(Start1(), 28);
    Rol5(0x4aa84d97);
    Rol30(0xbe35fbd5);
    assert Sha1Rounds(Start1(), Block(), 29) == Five(0x8370b52e, 0x4aa84d97, 0x6f8d7ef5, 0x12104ee9, 0xb1d59f71);
    NextRound1(Start1(), 29);
    Rol5(0x8370b52e);
    Rol30(0x4aa84d97);
    assert Sha1Rounds(Start1(), Block(), 30) == Five(0xc5fbaf5d, 0x8370b52e, 0xd2aa1365, 0x6f8d7ef5, 0x12104ee9);
    NextRound1(Start1(), 30);
    Rol5(0xc5fbaf5d);
    Rol30(0x8370b52e);
    assert Sha1Rounds(Start1(), Block(), 31) == Five(0x1267b407, 0xc5fbaf5d, 0xa0dc2d4b, 0xd2aa1365, 0x6f8d7ef5);
    NextRound1(Start1(), 31);
    Rol5(0x1267b407);
    Rol30(0xc5fbaf5d);
  }

  lemma Rounds1To48(n: nat)
    requires n == 48
    ensures Sha1Rounds(Start1(), Block(), n) == Five(0xbead02ca, 0xa01b846c, 0x8714787c, 0x503ca382, 0xfb86c6ab)
  {
    hide Sha1Rounds, Sha1Word, Block, Start1, Rol;
    Words1To39(Block()); Words1To47(Block());
    Rounds1To32(32);
    NextRound1(Start1(), 32);
    Rol5(0x3b845d33);
    Rol30(0x1267b407);
    assert Sha1Rounds(Start1(), Block(), 33) == Five(0x046faa0a, 0x3b845d33, 0xc499ed01, 0x717eebd7, 0xa0dc2d4b);
    NextRound1(Start1(), 33);
    Rol5(0x046faa0a);
    Rol30(0x3b845d33);
    assert Sha1Rounds(Start1(), Block(), 34) == Five(0x2c0ebc11, 0x046faa0a, 0xcee1174c, 0xc499ed01, 0x717eebd7);
    NextRound1(Start1(), 34);
    Rol5(0x2c0ebc11);
    Rol30(0x046faa0a);
    assert Sha1Rounds(Start1(), Block(), 35) == Five(0x21796ad4, 0x2c0ebc11, 0x811bea82, 0xcee1174c, 0xc499ed01);
    NextRound1(Start1(), 35);
    Rol5(0x21796ad4);
    Rol30(0x2c0ebc11);
    assert Sha1Rounds(Start1(), Block(), 36) == Five(0xdcbbb0cb, 0x21796ad4, 0x4b03af04, 0x811bea82, 0xcee1174c);
    NextRound1(Start1(), 36);
    Rol5(0xdcbbb0cb);
    Rol30(0x21796ad4);
    assert Sha1Rounds(Start1(), Block(), 37) == Five(0x0f511fd8, 0xdcbbb0cb, 0x085e5ab5, 0x4b03af04, 0x811bea82);
    NextRound1(Start1(), 37);
    Rol5(0x0f511fd8);
    Rol30(0xdcbbb0cb);
    assert Sha1Rounds(Start1(), Block(), 38) == Five(0xdc63973f, 0x0f511fd8, 0xf72eec32, 0x085e5ab5, 0x4b03af04);
    NextRound1(Start1(), 38);
    Rol5(0xdc63973f);
    Rol30(0x0f511fd8);
    assert Sha1Rounds(Start1(), Block(), 39) == Five(0x4c986405, 0xdc63973f, 0x03d447f6, 0xf72eec32, 0x085e5ab5);
    NextRound1(Start1(), 39);
    Rol5(0x4c986405);
    Rol30(0xdc63973f);
    assert Sha1Rounds(Start1(), Block(), 40) == Five(0x32de1cba, 0x4c986405, 0xf718e5cf, 0x03d447f6, 0xf72eec32);
    NextRound1(Start1(), 40);
    Rol5(0x32de1cba);
    Rol30(0x4c986405);
    assert Sha1Rounds(Start1(), Block(), 41) == Five(0xfc87dedf, 0x32de1cba, 0x53261901, 0xf718e5cf, 0x03d447f6);
    NextRound1(Start1(), 41);
    Rol5(0xfc87dedf);
    Rol30(0x32de1cba);
    assert Sha1Rounds(Start1(), Block(), 42) == Five(0x970a0d5c, 0xfc87dedf, 0x8cb7872e, 0x53261901, 0xf718e5cf);
    NextRound1(Start1(), 42);
    Rol5(0x970a0d5c);
    Rol30(0xfc87dedf);
    assert Sha1Rounds(Start1(), Block(), 43) == Five(0x7f193dc5, 0x970a0d5c, 0xff21f7b7, 0x8cb7872e, 0x53261901);
    NextRound1(Start1(), 43);
    Rol5(0x7f193dc5);
    Rol30(0x970a0d5c);
    assert Sha1Rounds(Start1(), Block(), 44) == Five(0xee1b1aaf, 0x7f193dc5, 0x25c28357, 0xff21f7b7, 0x8cb7872e);
    NextRound1(Start1(), 44);
    Rol5(0xee1b1aaf);
    Rol30(0x7f193dc5);
    assert Sha1Rounds(Start1(), Block(), 45) == Five(0x40f28e09, 0xee1b1aaf, 0x5fc64f71, 0x25c28357, 0xff21f7b7);
    NextRound1(Start1(), 45);
    Rol5(0x40f28e09);
    Rol30(0xee1b1aaf);
    assert Sha1Rounds(Start1(), Block(), 46) == Five(0x1c51e1f2, 0x40f28e09, 0xfb86c6ab, 0x5fc64f71, 0x25c28357);
    NextRound1(Start1(), 46);
    Rol5(0x1c51e1f2);
    Rol30(0x40f28e09);
    assert Sha1Rounds(Start1(), Block(), 47) == Five(0xa01b846c, 0x1c51e1f2, 0x503ca382, 0xfb86c6ab, 0x5fc64f71);
    NextRound1(Start1(), 47);
    Rol5(0xa01b846c);
    Rol30(0x1c51e1f2);
  }

  lemma Rounds1To64(n: nat)
    requires n == 64
    ensures Sha1Rounds(Start1(), Block(), n) == Five(0x6b61c9e1, 0xb66c020b, 0x9523272c, 0xf5d5b051, 0x8fd4b796)
  {
    hide Sha1Rounds, Sha1Word, Block, Start1, Rol;
    Words1To55(Block()); Words1To63(Block());
    Rounds1To48(48);
    NextRound1(Start1(), 48);
    Rol5(0xbead02ca);
    Rol30(0xa01b846c);
    assert Sha1Rounds(Start1(), Block(), 49) == Five(0xbaf39337, 0xbead02ca, 0x2806e11b, 0x8714787c, 0x503ca382);
    NextRound1(Start1(), 49);
    Rol5(0xbaf39337);
    Rol30(0xbead02ca);
    assert Sha1Rounds(Start1(), Block(), 50) == Five(0x120731c5, 0xbaf39337, 0xafab40b2, 0x2806e11b, 0x8714787c);
    NextRound1(Start1(), 50);
    Rol5(0x120731c5);
    Rol30(0xbaf39337);
    assert Sha1Rounds(Start1(), Block(), 51) == Five(0x641db2ce, 0x120731c5, 0xeebce4cd, 0xafab40b2, 0x2806e11b);
    NextRound1(Start1(), 51);
    Rol5(0x641db2ce);
    Rol30(0x120731c5);
    assert Sha1Rounds(Start1(), Block(), 52) == Five(0x3847ad66, 0x641db2ce, 0x4481cc71, 0xeebce4cd, 0xafab40b2);
    NextRound1(Start1(), 52);
    Rol5(0x3847ad66);
    Rol30(0x641db2ce);
    assert Sha1Rounds(Start1(), Block(), 53) == Five(0xe490436d, 0x3847ad66, 0x99076cb3, 0x4481cc71, 0xeebce4cd);
    NextRound1(Start1(), 53);
    Rol5(0xe490436d);
    Rol30(0x3847ad66);
    assert Sha1Rounds(Start1(), Block(), 54) == Five(0x27e9f1d8, 0xe490436d, 0x8e11eb59, 0x99076cb3, 0x4481cc71);
    NextRound1(Start1(), 54);
    Rol5(0x27e9f1d8);
    Rol30(0xe490436d);
    assert Sha1Rounds(Start1(), Block(), 55) == Five(0x7b71f76d, 0x27e9f1d8, 0x792410db, 0x8e11eb59, 0x99076cb3);
    NextRound1(Start1(), 55);
    Rol5(0x7b71f76d);
    Rol30(0x27e9f1d8);
    assert Sha1Rounds(Start1(), Block(), 56) == Five(0x5e6456af, 0x7b71f76d, 0x09fa7c76, 0x792410db, 0x8e11eb59);
    NextRound1(Start1(), 56);
    Rol5(0x5e6456af);
    Rol30(0x7b71f76d);
    assert Sha1Rounds(Start1(), Block(), 57) == Five(0xc846093f, 0x5e6456af, 0x5edc7ddb, 0x09fa7c76, 0x792410db);
    NextRound1(Start1(), 57);
    Rol5(0xc846093f);
    Rol30(0x5e6456af);
    assert Sha1Rounds(Start1(), Block(), 58) == Five(0xd262ff50, 0xc846093f, 0xd79915ab, 0x5edc7ddb, 0x09fa7c76);
    NextRound1(Start1(), 58);
    Rol5(0xd262ff50);
    Rol30(0xc846093f);
    assert Sha1Rounds(Start1(), Block(), 59) == Five(0x09d785fd, 0xd262ff50, 0xf211824f, 0xd79915ab, 0x5edc7ddb);
    NextRound1(Start1(), 59);
    Rol5(0x09d785fd);
    Rol30(0xd262ff50);
    assert Sha1Rounds(Start1(), Block(), 60) == Five(0x3f52de5a, 0x09d785fd, 0x3498bfd4, 0xf211824f, 0xd79915ab);
    NextRound1(Start1(), 60);
    Rol5(0x3f52de5a);
    Rol30(0x09d785fd);
    assert Sha1Rounds(Start1(), Block(), 61) == Five(0xd756c147, 0x3f52de5a, 0x4275e17f, 0x3498bfd4, 0xf211824f);
    NextRound1(Start1(), 61);
    Rol5(0xd756c147);
    Rol30(0x3f52de5a);
    assert Sha1Rounds(Start1(), Block(), 62) == Five(0x548c9cb2, 0xd756c147, 0x8fd4b796, 0x4275e17f, 0x3498bfd4);
    NextRound1(Start1(), 62);
    Rol5(0x548c9cb2);
    Rol30(0xd756c147);
    assert Sha1Rounds(Start1(), Block(), 63) == Five(0xb66c020b, 0x548c9cb2, 0xf5d5b051, 0x8fd4b796, 0x4275e17f);
    NextRound1(Start1(), 63);
    Rol5(0xb66c020b);
    Rol30(0x548c9cb2);
  }

  lemma Rounds1To80(n: nat)
    requires n == 80
    ensures Sha1Rounds(Start1(), Block(), n) == Five(0x42541b35, 0x5738d5e1, 0x21834873, 0x681e6df6, 0xd8fdf6ad)
  {
    hide Sha1Rounds, Sha1Word, Block, Start1, Rol;
    Words1To71(Block()); Words1To79(Block());
    Rounds1To64(64);
    NextRound1(Start1(), 64);
    Rol5(0x6b61c9e1);
    Rol30(0xb66c020b);
    assert Sha1Rounds(Start1(), Block(), 65) == Five(0x19dfa7ac, 0x6b61c9e1, 0xed9b0082, 0x9523272c, 0xf5d5b051);
    NextRound1(Start1(), 65);
    Rol5(0x19dfa7ac);
    Rol30(0x6b61c9e1);
    assert Sha1Rounds(Start1(), Block(), 66) == Five(0x101655f9, 0x19dfa7ac, 0x5ad87278, 0xed9b0082, 0x9523272c);
    NextRound1(Start1(), 66);
    Rol5(0x101655f9);
    Rol30(0x19dfa7ac);
    assert Sha1Rounds(Start1(), Block(), 67) == Five(0x0c3df2b4, 0x101655f9, 0x0677e9eb, 0x5ad87278, 0xed9b0082);
    NextRound1(Start1(), 67);
    Rol5(0x0c3df2b4);
    Rol30(0x101655f9);
    assert Sha1Rounds(Start1(), Block(), 68) == Five(0x78dd4d2b, 0x0c3df2b4, 0x4405957e, 0x0677e9eb, 0x5ad87278);
    NextRound1(Start1(), 68);
    Rol5(0x78dd4d2b);
    Rol30(0x0c3df2b4);
    assert Sha1Rounds(Start1(), Block(), 69) == Five(0x497093c0, 0x78dd4d2b, 0x030f7cad, 0x4405957e, 0x0677e9eb);
    NextRound1(Start1(), 69);
    Rol5(0x497093c0);
    Rol30(0x78dd4d2b);
    assert Sha1Rounds(Start1(), Block(), 70) == Five(0x3f2588c2, 0x497093c0, 0xde37534a, 0x030f7cad, 0x4405957e);
    NextRound1(Start1(), 70);
    Rol5(0x3f2588c2);
    Rol30(0x497093c0);
    assert Sha1Rounds(Start1(), Block(), 71) == Five(0xc199f8c7, 0x3f2588c2, 0x125c24f0, 0xde37534a, 0x030f7cad);
    NextRound1(Start1(), 71);
    Rol5(0xc199f8c7);
    Rol30(0x3f2588c2);
    assert Sha1Rounds(Start1(), Block(), 72) == Five(0x39859de7, 0xc199f8c7, 0x8fc96230, 0x125c24f0, 0xde37534a);
    NextRound1(Start1(), 72);
    Rol5(0x39859de7);
    Rol30(0xc199f8c7);
    assert Sha1Rounds(Start1(), Block(), 73) == Five(0xedb42de4, 0x39859de7, 0xf0667e31, 0x8fc96230, 0x125c24f0);
    NextRound1(Start1(), 73);
    Rol5(0xedb42de4);
    Rol30(0x39859de7);
    assert Sha1Rounds(Start1(), Block(), 74) == Five(0x11793f6f, 0xedb42de4, 0xce616779, 0xf0667e31, 0x8fc96230);
    NextRound1(Start1(), 74);
    Rol5(0x11793f6f);
    Rol30(0xedb42de4);
    assert Sha1Rounds(Start1(), Block(), 75) == Five(0x5ee76897, 0x11793f6f, 0x3b6d0b79, 0xce616779, 0xf0667e31);
    NextRound1(Start1(), 75);
    Rol5(0x5ee76897);
    Rol30(0x11793f6f);
    assert Sha1Rounds(Start1(), Block(), 76) == Five(0x63f7dab7, 0x5ee76897, 0xc45e4fdb, 0x3b6d0b79, 0xce616779);
    NextRound1(Start1(), 76);
    Rol5(0x63f7dab7);
    Rol30(0x5ee76897);
    assert Sha1Rounds(Start1(), Block(), 77) == Five(0xa079b7d9, 0x63f7dab7, 0xd7b9da25, 0xc45e4fdb, 0x3b6d0b79);
    NextRound1(Start1(), 77);
    Rol5(0xa079b7d9);
    Rol30(0x63f7dab7);
    assert Sha1Rounds(Start1(), Block(), 78) == Five(0x860d21cc, 0xa079b7d9, 0xd8fdf6ad, 0xd7b9da25, 0xc45e4fdb);
    NextRound1(Start1(), 78);
    Rol5(0x860d21cc);
    Rol30(0xa079b7d9);
    assert Sha1Rounds(Start1(), Block(), 79) == Five(0x5738d5e1, 0x860d21cc, 0x681e6df6, 0xd8fdf6ad, 0xd7b9da25);
    NextRound1(Start1(), 79);
    Rol5(0x5738d5e1);
    Rol30(0x860d21cc);
  }

  function Start1(): Five {
    var h := Start(Sha1);
    Five(h[0], h[1], h[2], h[3], h[4])
  }

  lemma StartIs1()
    ensures Start1() == Five(0x67452301, 0xefcdab89, 0x98badcfe, 0x10325476, 0xc3d2e1f0)
  {
  }

  lemma Digest1(s: Five)
    requires Sha1Rounds(Start1(), Block(), 80) == s
    ensures var h := Start1();
      Compress(Sha1, Start(Sha1), Block()) == [Plus(h.a, s.a), Plus(h.b, s.b), Plus(h.c, s.c), Plus(h.d, s.d), Plus(h.e, s.e)]
  {
    hide Sha1Rounds, Block, Start, Plus;
  }

  lemma Bytes1()
    ensures Joined([0xa9993e36, 0x4706816a, 0xba3e2571, 0x7850c26c, 0x9cd0d89d]) == [
      0xa9, 0x99, 0x3e, 0x36, 0x47, 0x06, 0x81, 0x6a, 0xba, 0x3e, 0x25, 0x71, 0x78, 0x50, 0xc2, 0x6c,
      0x9c, 0xd0, 0xd8, 0x9d]
  {
    hide Joined;
    assert Joined([]) == [] by { NothingJoined(); }
    var b1 := [0xa9, 0x99, 0x3e, 0x36];
    var h1 := [0xa9993e36];
    JoinedNext([], [], 0xa9993e36, 0xa9, 0x99, 0x3e, 0x36, h1, b1);
    var b2 := b1 + [0x47, 0x06, 0x81, 0x6a];
    var h2 := h1 + [0x4706816a];
    JoinedNext(h1, b1, 0x4706816a, 0x47, 0x06, 0x81, 0x6a, h2, b2);
    var b3 := b2 + [0xba, 0x3e, 0x25, 0x71];
    var h3 := h2 + [0xba3e2571];
    JoinedNext(h2, b2, 0xba3e2571, 0xba, 0x3e, 0x25, 0x71, h3, b3);
    var b4 := b3 + [0x78, 0x50, 0xc2, 0x6c];
    var h4 := h3 + [0x7850c26c];
    JoinedNext(h3, b3, 0x7850c26c, 0x78, 0x50, 0xc2, 0x6c, h4, b4);
    var b5 := b4 + [0x9c, 0xd0, 0xd8, 0x9d];
    var h5 := h4 + [0x9cd0d89d];
    JoinedNext(h4, b4, 0x9cd0d89d, 0x9c, 0xd0, 0xd8, 0x9d, h5, b5);
    assert h5 == [0xa9993e36, 0x4706816a, 0xba3e2571, 0x7850c26c, 0x9cd0d89d];
  }

  /** The digest of "abc" under SHA-1. */
  lemma Sha1OfAbc()
    ensures Digest(Sha1, Abc()) == [
      0xa9, 0x99, 0x3e, 0x36, 0x47, 0x06, 0x81, 0x6a, 0xba, 0x3e, 0x25, 0x71, 0x78, 0x50, 0xc2, 0x6c,
      0x9c, 0xd0, 0xd8, 0x9d]
  {
    hide Sha1Rounds, Compress, Fold, Start, Start1, Padded, Joined, Abc, Block;
    Rounds1To80(80);
    StartIs1();
    Digest1(Five(0x42541b35, 0x5738d5e1, 0x21834873, 0x681e6df6, 0xd8fdf6ad));
    OneFold(Sha1);
    BlockIsPadded();
    Bytes1();
  }
}
