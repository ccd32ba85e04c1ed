/** One block, worked: the example of appendix C.3 of FIPS 197, with a key of 256 bits. The lemmas take their numbers as
    parameters, since a recursion on a literal would be unrolled at once. */
module AesExample {
  import opened Bits
  import opened AesTables
  import opened AesField
  import opened AesSpec
  import opened AesSchedule
  import AesModes

  function Key(): (k: seq<byte>)
    ensures |k| == 32
  {
    seq(32, k requires 0 <= k < 32 => KeyByte(k))
  }

  /** Byte `k` of the key is `k`. */
  function KeyByte(k: nat): byte
    requires k < 32
  {
    k as bv8
  }

  function KeyWords(): (k: seq<bv32>)
    ensures |k| == 8
  {
    WordsOf(Key(), 8)
  }

  // ---- The schedule

  /** Word `n` of the schedule. */
  function ScheduleWord(n: nat): bv32 {
    hide KeyWords;
    Expand(KeyWords(), n + 1)[n]
  }

  lemma NextWord(n: nat)
    requires n >= 8
    ensures ScheduleWord(n) == AddWord(ScheduleWord(n - 8), Temp(ScheduleWord(n - 1), 8, n / 8, n % 8))
  {
    hide Temp, AddWord, KeyWords;
    WordStays(n - 8, n);
    ExpandNext(KeyWords(), n, n / 8, n % 8);
  }

  lemma RotatedWord(q: nat, n: nat)
    requires 0 < q && n == 8 * q
    ensures ScheduleWord(n) == AddWord(ScheduleWord(n - 8), AddWord(SubWord(RotWord(ScheduleWord(n - 1))), Word(Rcon(q), 0, 0, 0)))
  {
    hide ScheduleWord, AddWord, SubWord, RotWord, Rcon, Word;
    NextWord(n);
    Quotient(8, n, q, 0);
  }

  lemma SubstitutedWord(q: nat, n: nat)
    requires 0 < q && n == 8 * q + 4
    ensures ScheduleWord(n) == AddWord(ScheduleWord(n - 8), SubWord(ScheduleWord(n - 1)))
  {
    hide ScheduleWord, AddWord, SubWord, RotWord, Rcon, Word;
    NextWord(n);
    Quotient(8, n, q, 4);
  }

  lemma PlainWord(n: nat)
    requires n >= 8 && n % 4 != 0
    ensures ScheduleWord(n) == AddWord(ScheduleWord(n - 8), ScheduleWord(n - 1))
  {
    hide ScheduleWord, AddWord, SubWord, RotWord, Rcon, Word;
    NextWord(n);
    assert n % 8 != 0 && n % 8 != 4;
  }

  lemma {:induction false} WordStays(n: nat, m: nat)
    requires n < m
    ensures Expand(KeyWords(), m)[n] == ScheduleWord(n)
    decreases m
  {
    hide Temp, AddWord, KeyWords;
    if m > n + 1 {
      WordStays(n, m - 1);
      if m > 8 {
        ExpandNext(KeyWords(), m - 1, (m - 1) / 8, (m - 1) % 8);
      }
    }
  }

  lemma FirstWord(n: nat)
    requires n < 8
    ensures ScheduleWord(n) == Word(KeyByte(4 * n), KeyByte(4 * n + 1), KeyByte(4 * n + 2), KeyByte(4 * n + 3))
  {
    hide KeyByte, Word;
  }

  lemma WordsFrom0(n: nat)
    requires n == 0
    ensures ScheduleWord(n) == 0x00010203 && ScheduleWord(n + 1) == 0x04050607
    ensures ScheduleWord(n + 2) == 0x08090a0b && ScheduleWord(n + 3) == 0x0c0d0e0f
  {
    hide ScheduleWord, Rcon;
    FirstWord(n); FirstWord(n + 1); FirstWord(n + 2); FirstWord(n + 3);
  }

  lemma WordsFrom4(n: nat)
    requires n == 4
    ensures ScheduleWord(n) == 0x10111213 && ScheduleWord(n + 1) == 0x14151617
    ensures ScheduleWord(n + 2) == 0x18191a1b && ScheduleWord(n + 3) == 0x1c1d1e1f
  {
    hide ScheduleWord, Rcon;
    FirstWord(n); FirstWord(n + 1); FirstWord(n + 2); FirstWord(n + 3);
  }

  lemma WordsFrom8(n: nat)
    requires n == 8
    ensures ScheduleWord(n) == 0xa573c29f && ScheduleWord(n + 1) == 0xa176c498
    ensures ScheduleWord(n + 2) == 0xa97fce93 && ScheduleWord(n + 3) == 0xa572c09c
  {
    hide ScheduleWord, Rcon;
    WordsFrom0(n - 8); WordsFrom4(n - 4);
    RconTable();
    RotatedWord(1, n);
    PlainWord(n + 1); PlainWord(n + 2); PlainWord(n + 3);
  }

  lemma WordsFrom12(n: nat)
    requires n == 12
    ensures ScheduleWord(n) == 0x1651a8cd && ScheduleWord(n + 1) == 0x0244beda
    ensures ScheduleWord(n + 2) == 0x1a5da4c1 && ScheduleWord(n + 3) == 0x0640bade
  {
    hide ScheduleWord, Rcon;
    WordsFrom4(n - 8); WordsFrom8(n - 4);
    SubstitutedWord(1, n);
    PlainWord(n + 1); PlainWord(n + 2); PlainWord(n + 3);
  }

  lemma WordsFrom16(n: nat)
    requires n == 16
    ensures ScheduleWord(n) == 0xae87dff0 && ScheduleWord(n + 1) == 0x0ff11b68
    ensures ScheduleWord(n + 2) == 0xa68ed5fb && ScheduleWord(n + 3) == 0x03fc1567
  {
    hide ScheduleWord, Rcon;
    WordsFrom8(n - 8); WordsFrom12(n - 4);
    RconTable();
    RotatedWord(2, n);
    PlainWord(n + 1); PlainWord(n + 2); PlainWord(n + 3);
  }

  lemma WordsFrom20(n: nat)
    requires n == 20
    ensures ScheduleWord(n) == 0x6de1f148 && ScheduleWord(n + 1) == 0x6fa54f92
    ensures ScheduleWord(n + 2) == 0x75f8eb53 && ScheduleWord(n + 3) == 0x73b8518d
  {
    hide ScheduleWord, Rcon;
    WordsFrom12(n - 8); WordsFrom16(n - 4);
    SubstitutedWord(2, n);
    PlainWord(n + 1); PlainWord(n + 2); PlainWord(n + 3);
  }

  lemma WordsFrom24(n: nat)
    requires n == 24
    ensures ScheduleWord(n) == 0xc656827f && ScheduleWord(n + 1) == 0xc9a79917
    ensures ScheduleWord(n + 2) == 0x6f294cec && ScheduleWord(n + 3) == 0x6cd5598b
  {
    hide ScheduleWord, Rcon;
    WordsFrom16(n - 8); WordsFrom20(n - 4);
    RconTable();
    RotatedWord(3, n);
    PlainWord(n + 1); PlainWord(n + 2); PlainWord(n + 3);
  }

  lemma WordsFrom28(n: nat)
    requires n == 28
    ensures ScheduleWord(n) == 0x3de23a75 && ScheduleWord(n + 1) == 0x524775e7
    ensures ScheduleWord(n + 2) == 0x27bf9eb4 && ScheduleWord(n + 3) == 0x5407cf39
  {
    hide ScheduleWord, Rcon;
    WordsFrom20(n - 8); WordsFrom24(n - 4);
    SubstitutedWord(3, n);
    PlainWord(n + 1); PlainWord(n + 2); PlainWord(n + 3);
  }

  lemma WordsFrom32(n: nat)
    requires n == 32
    ensures ScheduleWord(n) == 0x0bdc905f && ScheduleWord(n + 1) == 0xc27b0948
    ensures ScheduleWord(n + 2) == 0xad5245a4 && ScheduleWord(n + 3) == 0xc1871c2f
  {
    hide ScheduleWord, Rcon;
    WordsFrom24(n - 8); WordsFrom28(n - 4);
    RconTable();
    RotatedWord(4, n);
    PlainWord(n + 1); PlainWord(n + 2); PlainWord(n + 3);
  }

  lemma WordsFrom36(n: nat)
    requires n == 36
    ensures ScheduleWord(n) == 0x45f5a660 && ScheduleWord(n + 1) == 0x17b2d387
    ensures ScheduleWord(n + 2) == 0x300d4d33 && ScheduleWord(n + 3) == 0x640a820a
  {
    hide ScheduleWord, Rcon;
    WordsFrom28(n - 8); WordsFrom32(n - 4);
    SubstitutedWord(4, n);
    PlainWord(n + 1); PlainWord(n + 2); PlainWord(n + 3);
  }

  lemma WordsFrom40(n: nat)
    requires n == 40
    ensures ScheduleWord(n) == 0x7ccff71c && ScheduleWord(n + 1) == 0xbeb4fe54
    ensures ScheduleWord(n + 2) == 0x13e6bbf0 && ScheduleWord(n + 3) == 0xd261a7df
  {
    hide ScheduleWord, Rcon;
    WordsFrom32(n - 8); WordsFrom36(n - 4);
    RconTable();
    RotatedWord(5, n);
    PlainWord(n + 1); PlainWord(n + 2); PlainWord(n + 3);
  }

  lemma WordsFrom44(n: nat)
    requires n == 44
    ensures ScheduleWord(n) == 0xf01afafe && ScheduleWord(n + 1) == 0xe7a82979
    ensures ScheduleWord(n + 2) == 0xd7a5644a && ScheduleWord(n + 3) == 0xb3afe640
  {
    hide ScheduleWord, Rcon;
    WordsFrom36(n - 8); WordsFrom40(n - 4);
    SubstitutedWord(5, n);
    PlainWord(n + 1); PlainWord(n + 2); PlainWord(n + 3);
  }

  lemma WordsFrom48(n: nat)
    requires n == 48
    ensures ScheduleWord(n) == 0x2541fe71 && ScheduleWord(n + 1) == 0x9bf50025
    ensures ScheduleWord(n + 2) == 0x8813bbd5 && ScheduleWord(n + 3) == 0x5a721c0a
  {
    hide ScheduleWord, Rcon;
    WordsFrom40(n - 8); WordsFrom44(n - 4);
    RconTable();
    RotatedWord(6, n);
    PlainWord(n + 1); PlainWord(n + 2); PlainWord(n + 3);
  }

  lemma WordsFrom52(n: nat)
    requires n == 52
    ensures ScheduleWord(n) == 0x4e5a6699 && ScheduleWord(n + 1) == 0xa9f24fe0
    ensures ScheduleWord(n + 2) == 0x7e572baa && ScheduleWord(n + 3) == 0xcdf8cdea
  {
    hide ScheduleWord, Rcon;
    WordsFrom44(n - 8); WordsFrom48(n - 4);
    SubstitutedWord(6, n);
    PlainWord(n + 1); PlainWord(n + 2); PlainWord(n + 3);
  }

  lemma WordsFrom56(n: nat)
    requires n == 56
    ensures ScheduleWord(n) == 0x24fc79cc && ScheduleWord(n + 1) == 0xbf0979e9
    ensures ScheduleWord(n + 2) == 0x371ac23c && ScheduleWord(n + 3) == 0x6d68de36
  {
    hide ScheduleWord, Rcon;
    WordsFrom48(n - 8); WordsFrom52(n - 4);
    RconTable();
    RotatedWord(7, n);
    PlainWord(n + 1); PlainWord(n + 2); PlainWord(n + 3);
  }

  /** Round key `r` of the sixty words. */
  function KeyOf(r: nat): State
    requires r <= 14
  {
    hide *;
    RoundKey(Expand(KeyWords(), 60), r)
  }

  lemma KeyIs(r: nat)
    requires r <= 14
    ensures KeyOf(r) == State(ScheduleWord(4 * r), ScheduleWord(4 * r + 1), ScheduleWord(4 * r + 2), ScheduleWord(4 * r + 3))
  {
    hide Expand, ScheduleWord, KeyWords;
    WordStays(4 * r, 60); WordStays(4 * r + 1, 60); WordStays(4 * r + 2, 60); WordStays(4 * r + 3, 60);
  }

  // ---- The rounds

  /** One column of a round. */
  function Turned(a: bv32, b: bv32, c: bv32, d: bv32, k: bv32): bv32 {
    AddWord(MixColumn(Diagonal(SubWord(a), SubWord(b), SubWord(c), SubWord(d))), k)
  }

  function Round(s: State, k: State): State {
    State(Turned(s.c0, s.c1, s.c2, s.c3, k.c0), Turned(s.c1, s.c2, s.c3, s.c0, k.c1),
          Turned(s.c2, s.c3, s.c0, s.c1, k.c2), Turned(s.c3, s.c0, s.c1, s.c2, k.c3))
  }

  /** The state after round `n`. */
  function After(n: nat): State
    requires n <= 14
  {
    hide *;
    Rounds(Expand(KeyWords(), 60), n, Load(Text()))
  }

  function Text(): (b: seq<byte>)
    ensures |b| == 16
  {
    [0x00, 0x11, 0x22, 0x33, 0x44, 0x55, 0x66, 0x77, 0x88, 0x99, 0xaa, 0xbb, 0xcc, 0xdd, 0xee, 0xff]
  }

  lemma NextRound(n: nat)
    requires 0 < n <= 14
    ensures After(n) == Round(After(n - 1), KeyOf(n))
  {
    hide Expand, KeyWords, Load, Text, SubWord, Diagonal, MixColumn, AddWord, RoundKey;
  }

  lemma Round0(n: nat)
    requires n == 0
    ensures After(n) == State(0x00102030, 0x40506070, 0x8090a0b0, 0xc0d0e0f0)
  {
    hide Expand, KeyWords, ScheduleWord, RoundKey;
    KeyIs(n);
    WordsFrom0(4 * n);
    Loaded();
  }

  lemma Loaded()
    ensures Load(Text()) == State(0x00112233, 0x44556677, 0x8899aabb, 0xccddeeff)
  {
  }

  lemma Round1(n: nat)
    requires n == 1
    ensures After(n) == State(0x4f637606, 0x43e0aa85, 0xefa72132, 0x01a4e705)
  {
    hide After, KeyOf, ScheduleWord;
    Round0(n - 1);
    KeyIs(n);
    WordsFrom4(4 * n);
    NextRound(n);
  }

  lemma Round2(n: nat)
    requires n == 2
    ensures After(n) == State(0x1859fbc2, 0x8a1c00a0, 0x78ed8aad, 0xc42f6109)
  {
    hide After, KeyOf, ScheduleWord;
    Round1(n - 1);
    KeyIs(n);
    WordsFrom8(4 * n);
    NextRound(n);
  }

  lemma Round3(n: nat)
    requires n == 3
    ensures After(n) == State(0x975c66c1, 0xcb9f3fa8, 0xa93a28df, 0x8ee10f63)
  {
    hide After, KeyOf, ScheduleWord;
    Round2(n - 1);
    KeyIs(n);
    WordsFrom12(4 * n);
    NextRound(n);
  }

  lemma Round4(n: nat)
    requires n == 4
    ensures After(n) == State(0x1c05f271, 0xa417e04f, 0xf921c5c1, 0x04701554)
  {
    hide After, KeyOf, ScheduleWord;
    Round3(n - 1);
    KeyIs(n);
    WordsFrom16(4 * n);
    NextRound(n);
  }

  lemma Round5(n: nat)
    requires n == 5
    ensures After(n) == State(0xc357aae1, 0x1b45b7b0, 0xa2c7bd28, 0xa8dc99fa)
  {
    hide After, KeyOf, ScheduleWord;
    Round4(n - 1);
    KeyIs(n);
    WordsFrom20(4 * n);
    NextRound(n);
  }

  lemma Round6(n: nat)
    requires n == 6
    ensures After(n) == State(0x7f074143, 0xcb4e243e, 0xc10c815d, 0x8375d54c)
  {
    hide After, KeyOf, ScheduleWord;
    Round5(n - 1);
    KeyIs(n);
    WordsFrom24(4 * n);
    NextRound(n);
  }

  lemma Round7(n: nat)
    requires n == 7
    ensures After(n) == State(0xd653a469, 0x6ca0bc0f, 0x5acaab5d, 0xb96c5e7d)
  {
    hide After, KeyOf, ScheduleWord;
    Round6(n - 1);
    KeyIs(n);
    WordsFrom28(4 * n);
    NextRound(n);
  }

  lemma Round8(n: nat)
    requires n == 8
    ensures After(n) == State(0x5aa85839, 0x5fd28d7d, 0x05e1a388, 0x68f3b9c5)
  {
    hide After, KeyOf, ScheduleWord;
    Round7(n - 1);
    KeyIs(n);
    WordsFrom32(4 * n);
    NextRound(n);
  }

  lemma Round9(n: nat)
    requires n == 9
    ensures After(n) == State(0x4a824851, 0xc57e7e47, 0x643de50c, 0x2af3e8c9)
  {
    hide After, KeyOf, ScheduleWord;
    Round8(n - 1);
    KeyIs(n);
    WordsFrom36(4 * n);
    NextRound(n);
  }

  lemma Round10(n: nat)
    requires n == 10
    ensures After(n) == State(0xc14907f6, 0xca3b3aa0, 0x70e9aa31, 0x3b52b5ec)
  {
    hide After, KeyOf, ScheduleWord;
    Round9(n - 1);
    KeyIs(n);
    WordsFrom40(4 * n);
    NextRound(n);
  }

  lemma Round11(n: nat)
    requires n == 11
    ensures After(n) == State(0x5f9c6abf, 0xbac634aa, 0x50409fa7, 0x66677653)
  {
    hide After, KeyOf, ScheduleWord;
    Round10(n - 1);
    KeyIs(n);
    WordsFrom44(4 * n);
    NextRound(n);
  }

  lemma Round12(n: nat)
    requires n == 12
    ensures After(n) == State(0x51660495, 0x43539503, 0x14fb86e4, 0x01922521)
  {
    hide After, KeyOf, ScheduleWord;
    Round11(n - 1);
    KeyIs(n);
    WordsFrom48(4 * n);
    NextRound(n);
  }

  lemma Round13(n: nat)
    requires n == 13
    ensures After(n) == State(0x627bceb9, 0x999d5aaa, 0xc945ecf4, 0x23f56da5)
  {
    hide After, KeyOf, ScheduleWord;
    Round12(n - 1);
    KeyIs(n);
    WordsFrom52(4 * n);
    NextRound(n);
  }

  /** The last round has no mixing of columns. */
  function LastColumn(a: bv32, b: bv32, c: bv32, d: bv32, k: bv32): bv32 {
    AddWord(Diagonal(SubWord(a), SubWord(b), SubWord(c), SubWord(d)), k)
  }

  function LastRound(s: State, k: State): State {
    State(LastColumn(s.c0, s.c1, s.c2, s.c3, k.c0), LastColumn(s.c1, s.c2, s.c3, s.c0, k.c1),
          LastColumn(s.c2, s.c3, s.c0, s.c1, k.c2), LastColumn(s.c3, s.c0, s.c1, s.c2, k.c3))
  }

  lemma Ends(n: nat)
    requires n == 14
    ensures LastRound(After(n - 1), KeyOf(n)) == State(0x8ea2b7ca, 0x516745bf, 0xeafc4990, 0x4b496089)
  {
    hide After, KeyOf, ScheduleWord;
    Round13(n - 1);
    KeyIs(n);
    WordsFrom56(4 * n);
  }

  lemma BlockIs(key: seq<byte>, text: seq<byte>, n: nat)
    requires key == Key() && text == Text() && n == 14
    ensures AesModes.Enc(AesModes.Schedule(key), text) == Store(LastRound(After(n - 1), KeyOf(n)))
  {
    hide Key, KeyByte, WordsOf, Expand, Rounds, Load, Store, Text, Cipher, CipherBlock, SubWord, Diagonal, AddWord, RoundKey;
    CipherIs(AesModes.Schedule(key), n, text);
  }

  lemma Stored()
    ensures Store(State(0x8ea2b7ca, 0x516745bf, 0xeafc4990, 0x4b496089)) == [
      0x8e, 0xa2, 0xb7, 0xca, 0x51, 0x67, 0x45, 0xbf, 0xea, 0xfc, 0x49, 0x90, 0x4b, 0x49, 0x60, 0x89]
  {
    hide B0, B1, B2, B3;
    BytesOfWord(0x8e, 0xa2, 0xb7, 0xca);
    BytesOfWord(0x51, 0x67, 0x45, 0xbf);
    BytesOfWord(0xea, 0xfc, 0x49, 0x90);
    BytesOfWord(0x4b, 0x49, 0x60, 0x89);
    assert
      Word(0x8e, 0xa2, 0xb7, 0xca) == 0x8ea2b7ca &&
      Word(0x51, 0x67, 0x45, 0xbf) == 0x516745bf &&
      Word(0xea, 0xfc, 0x49, 0x90) == 0xeafc4990 &&
      Word(0x4b, 0x49, 0x60, 0x89) == 0x4b496089;
  }

  /** The block that this key makes of this text, for both implementations. */
  lemma Example()
    ensures AesModes.Enc(AesModes.Schedule(Key()), Text()) == [
      0x8e, 0xa2, 0xb7, 0xca, 0x51, 0x67, 0x45, 0xbf, 0xea, 0xfc, 0x49, 0x90, 0x4b, 0x49, 0x60, 0x89]
  {
    hide *;
    BlockIs(Key(), Text(), 14);
    Ends(14);
    Stored();
  }
}
