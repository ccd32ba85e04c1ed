/** The table-driven AES: schedules filled in place with a moving base, and two rounds per turn of the loop. */
module AesWord {
  import opened Bits
  import opened AesTables
  import opened AesField
  import opened AesSpec
  import opened AesSchedule

  // ---- Sums of table entries

  function Te(a: byte, b: byte, c: byte, d: byte): bv32 {
    AddWord(AddWord(Te0(a), Te1(b)), AddWord(Te2(c), Te3(d)))
  }

  function Td(a: byte, b: byte, c: byte, d: byte): bv32 {
    AddWord(AddWord(Td0(a), Td1(b)), AddWord(Td2(c), Td3(d)))
  }

  /** Four table words, a byte kept of each. */
  function Pack(a: bv32, b: bv32, c: bv32, d: bv32): bv32 {
    (a & 0xff00_0000) ^ (b & 0x00ff_0000) ^ (c & 0x0000_ff00) ^ (d & 0x0000_00ff)
  }

  /** The low byte of a Te4 entry. */
  function Low(w: bv32): byte { (w & 0xff) as bv8 }

  lemma PackRepeats(a: byte, b: byte, c: byte, d: byte)
    ensures Pack(Word(a, a, a, a), Word(b, b, b, b), Word(c, c, c, c), Word(d, d, d, d)) == Word(a, b, c, d)
  {}

  lemma LowRepeats(a: byte)
    ensures Low(Word(a, a, a, a)) == a
  {}

  /** Four lookups are one column of SubBytes, ShiftRows and MixColumns. */
  lemma TeIs(a: byte, b: byte, c: byte, d: byte)
    ensures Te(a, b, c, d) == Mix(Sbox(a), Sbox(b), Sbox(c), Sbox(d))
  {
    hide Te0, Te1, Te2, Te3, Sbox, Gm2, Gm3, Add, AddWord, Word;
    var p, q, r, s := Sbox(a), Sbox(b), Sbox(c), Sbox(d);
    Te0Is(a); Te1Is(b); Te2Is(c); Te3Is(d);
    WordOfAdd(Gm2(p), p, p, Gm3(p), Gm3(q), Gm2(q), q, q);
    WordOfAdd(r, Gm3(r), Gm2(r), r, s, s, Gm3(s), Gm2(s));
    WordOfAdd(Add(Gm2(p), Gm3(q)), Add(p, Gm2(q)), Add(p, q), Add(Gm3(p), q),
      Add(r, s), Add(Gm3(r), s), Add(Gm2(r), Gm3(s)), Add(r, Gm2(s)));
  }

  /** Four lookups are one column of InvSubBytes, InvShiftRows and InvMixColumns. */
  lemma TdIs(a: byte, b: byte, c: byte, d: byte)
    ensures Td(a, b, c, d) == InvMix(RSbox(a), RSbox(b), RSbox(c), RSbox(d))
  {
    hide Td0, Td1, Td2, Td3, RSbox, Gm9, Gm11, Gm13, Gm14, Add, AddWord, Word;
    var p, q, r, s := RSbox(a), RSbox(b), RSbox(c), RSbox(d);
    Td0Is(a); Td1Is(b); Td2Is(c); Td3Is(d);
    WordOfAdd(Gm14(p), Gm9(p), Gm13(p), Gm11(p), Gm11(q), Gm14(q), Gm9(q), Gm13(q));
    WordOfAdd(Gm13(r), Gm11(r), Gm14(r), Gm9(r), Gm9(s), Gm13(s), Gm11(s), Gm14(s));
    WordOfAdd(Add(Gm14(p), Gm11(q)), Add(Gm9(p), Gm14(q)), Add(Gm13(p), Gm9(q)), Add(Gm11(p), Gm13(q)),
      Add(Gm13(r), Gm9(s)), Add(Gm11(r), Gm13(s)), Add(Gm14(r), Gm11(s)), Add(Gm9(r), Gm14(s)));
  }

  lemma PackTe4(a: byte, b: byte, c: byte, d: byte)
    ensures Pack(Te4(a), Te4(b), Te4(c), Te4(d)) == Word(Sbox(a), Sbox(b), Sbox(c), Sbox(d))
  {
    hide Te4, Sbox, Pack, Word;
    Te4Is(a); Te4Is(b); Te4Is(c); Te4Is(d);
    PackRepeats(Sbox(a), Sbox(b), Sbox(c), Sbox(d));
  }

  lemma PackTd4(a: byte, b: byte, c: byte, d: byte)
    ensures Pack(Td4(a), Td4(b), Td4(c), Td4(d)) == Word(RSbox(a), RSbox(b), RSbox(c), RSbox(d))
  {
    hide Td4, RSbox, Pack, Word;
    Td4Is(a); Td4Is(b); Td4Is(c); Td4Is(d);
    PackRepeats(RSbox(a), RSbox(b), RSbox(c), RSbox(d));
  }

  /** InvMixColumns of a key word, by way of the two tables: the S-box in Te4 undoes the one in Td. */
  function MixKeyWord(w: bv32): bv32 {
    Td(Low(Te4(B0(w))), Low(Te4(B1(w))), Low(Te4(B2(w))), Low(Te4(B3(w))))
  }

  lemma LowTe4(a: byte)
    ensures Low(Te4(a)) == Sbox(a) && RSbox(Low(Te4(a))) == a
  {
    hide Te4, Sbox, RSbox, Low, Word;
    Te4Is(a);
    LowRepeats(Sbox(a));
    SboxUndone(a);
  }

  lemma MixKeyWordIs(w: bv32)
    ensures MixKeyWord(w) == InvMixColumn(w)
  {
    hide Te4, RSbox, Low, InvMix, Td, B0, B1, B2, B3;
    LowTe4(B0(w)); LowTe4(B1(w)); LowTe4(B2(w)); LowTe4(B3(w));
    TdIs(Low(Te4(B0(w))), Low(Te4(B1(w))), Low(Te4(B2(w))), Low(Te4(B3(w))));
  }

  // ---- Columns of a round

  lemma BytesOfSub(w: bv32)
    ensures B0(SubWord(w)) == Sbox(B0(w)) && B1(SubWord(w)) == Sbox(B1(w))
    ensures B2(SubWord(w)) == Sbox(B2(w)) && B3(SubWord(w)) == Sbox(B3(w))
    ensures B0(InvSubWord(w)) == RSbox(B0(w)) && B1(InvSubWord(w)) == RSbox(B1(w))
    ensures B2(InvSubWord(w)) == RSbox(B2(w)) && B3(InvSubWord(w)) == RSbox(B3(w))
  {
    hide Sbox, RSbox, Word, B0, B1, B2, B3;
    BytesOfWord(Sbox(B0(w)), Sbox(B1(w)), Sbox(B2(w)), Sbox(B3(w)));
    BytesOfWord(RSbox(B0(w)), RSbox(B1(w)), RSbox(B2(w)), RSbox(B3(w)));
  }

  lemma ForwardColumn(a: bv32, b: bv32, c: bv32, d: bv32)
    ensures Te(B0(a), B1(b), B2(c), B3(d)) == MixColumn(Diagonal(SubWord(a), SubWord(b), SubWord(c), SubWord(d)))
    ensures Pack(Te4(B0(a)), Te4(B1(b)), Te4(B2(c)), Te4(B3(d)))
         == Diagonal(SubWord(a), SubWord(b), SubWord(c), SubWord(d))
  {
    hide Sbox, SubWord, Mix, Te, Te4, Pack, Word, B0, B1, B2, B3;
    BytesOfSub(a); BytesOfSub(b); BytesOfSub(c); BytesOfSub(d);
    BytesOfDiagonal(SubWord(a), SubWord(b), SubWord(c), SubWord(d));
    TeIs(B0(a), B1(b), B2(c), B3(d));
    PackTe4(B0(a), B1(b), B2(c), B3(d));
  }

  lemma BackwardColumn(a: bv32, b: bv32, c: bv32, d: bv32)
    ensures Td(B0(a), B1(b), B2(c), B3(d))
         == InvMixColumn(Diagonal(InvSubWord(a), InvSubWord(b), InvSubWord(c), InvSubWord(d)))
    ensures Pack(Td4(B0(a)), Td4(B1(b)), Td4(B2(c)), Td4(B3(d)))
         == Diagonal(InvSubWord(a), InvSubWord(b), InvSubWord(c), InvSubWord(d))
  {
    hide RSbox, InvSubWord, InvMix, Td, Td4, Pack, Word, B0, B1, B2, B3;
    BytesOfSub(a); BytesOfSub(b); BytesOfSub(c); BytesOfSub(d);
    BytesOfDiagonal(InvSubWord(a), InvSubWord(b), InvSubWord(c), InvSubWord(d));
    TdIs(B0(a), B1(b), B2(c), B3(d));
    PackTd4(B0(a), B1(b), B2(c), B3(d));
  }

  // ---- Schedules

  /** Key words and number of rounds for a key of `bits` bits. */
  function KeyWords(bits: int): nat { if bits == 128 then 4 else if bits == 192 then 6 else 8 }

  function RoundsOf(bits: int): nat { if bits == 128 then 10 else if bits == 192 then 12 else 14 }

  function RCON(i: nat): bv32
    requires i < 10
  {
    [0x0100_0000, 0x0200_0000, 0x0400_0000, 0x0800_0000, 0x1000_0000,
     0x2000_0000, 0x4000_0000, 0x8000_0000, 0x1b00_0000, 0x3600_0000][i]
  }

  lemma RCONIs(i: nat)
    requires i < 10
    ensures RCON(i) == Word(Rcon(i + 1), 0, 0, 0)
  {
    hide Rcon;
    RconTable();
  }

  /** The rotated and substituted word, from the table. */
  function SubRot(t: bv32): bv32 {
    Pack(Te4(B1(t)), Te4(B2(t)), Te4(B3(t)), Te4(B0(t)))
  }

  function SubOnly(t: bv32): bv32 {
    Pack(Te4(B0(t)), Te4(B1(t)), Te4(B2(t)), Te4(B3(t)))
  }

  lemma SubRotIs(t: bv32)
    ensures SubRot(t) == SubWord(RotWord(t)) && SubOnly(t) == SubWord(t)
  {
    hide Te4, Pack, Sbox, Word, B0, B1, B2, B3;
    PackTe4(B1(t), B2(t), B3(t), B0(t));
    PackTe4(B0(t), B1(t), B2(t), B3(t));
    BytesOfWord(B1(t), B2(t), B3(t), B0(t));
  }

  class Key {
    const rdKey: array<bv32>
    var rounds: nat

    constructor ()
      ensures rdKey.Length == 60 && fresh(rdKey)
    {
      rdKey := new bv32[60];
      rounds := 0;
    }

    /** A filled schedule. */
    ghost predicate Ready()
      reads this
    {
      rdKey.Length == 60 && (rounds == 10 || rounds == 12 || rounds == 14)
    }
  }

  /** One word of a schedule: the word `nk` places back, plus `temp`. */
  method Extend(rk: array<bv32>, n: nat, nk: nat, temp: bv32, ghost key: seq<bv32>, ghost q: nat, ghost j: nat)
    requires |key| == nk && (nk == 4 || nk == 6 || nk == 8) && nk <= n < rk.Length && n == nk * q + j && j < nk
    requires rk[..n] == Expand(key, n) && temp == Temp(rk[n - 1], nk, q, j)
    modifies rk
    ensures rk[..n + 1] == Expand(key, n + 1)
  {
    hide Expand, Temp;
    Quotient(nk, n, q, j);
    ExpandNext(key, n, q, j);
    ghost var w := rk[..n];
    rk[n] := AddWord(rk[n - nk], temp);
    assert rk[..n + 1] == w + [rk[n]];
  }

  lemma TempIs(t: bv32, nk: nat, q: nat, j: nat)
    requires q > 0
    ensures Temp(t, nk, q, 0) == AddWord(SubWord(RotWord(t)), Word(Rcon(q), 0, 0, 0))
    ensures nk <= 6 && j > 0 ==> Temp(t, nk, q, j) == t
    ensures j > 0 && j != 4 ==> Temp(t, nk, q, j) == t
    ensures nk == 8 ==> Temp(t, nk, q, 4) == SubWord(t)
  {}

  /** The first word of a group: rotated, substituted, and added to the round constant. */
  method ExtendFirst(rk: array<bv32>, n: nat, nk: nat, i: nat, ghost key: seq<bv32>)
    requires |key| == nk && (nk == 4 || nk == 6 || nk == 8) && nk <= n < rk.Length && n == nk * (i + 1) && i < 10
    requires rk[..n] == Expand(key, n)
    modifies rk
    ensures rk[..n + 1] == Expand(key, n + 1)
  {
    hide *;
    var temp := rk[n - 1];
    SubRotIs(temp);
    RCONIs(i);
    TempIs(temp, nk, i + 1, 0);
    Extend(rk, n, nk, AddWord(SubRot(temp), RCON(i)), key, i + 1, 0);
  }

  /** Words that only add the previous one. */
  method ExtendPlain(rk: array<bv32>, n: nat, nk: nat, ghost key: seq<bv32>, ghost q: nat, ghost j: nat)
    requires |key| == nk && (nk == 4 || nk == 6 || nk == 8) && nk <= n < rk.Length && n == nk * q + j && 0 < j < nk
    requires q > 0 && (nk == 8 ==> j != 4)
    requires rk[..n] == Expand(key, n)
    modifies rk
    ensures rk[..n + 1] == Expand(key, n + 1)
  {
    hide *;
    TempIs(rk[n - 1], nk, q, j);
    Extend(rk, n, nk, rk[n - 1], key, q, j);
  }

  method LoadKey(userKey: array<byte>, rk: array<bv32>, nk: nat)
    requires userKey.Length >= 4 * nk && nk <= rk.Length
    modifies rk
    ensures rk[..nk] == WordsOf(old(userKey[..]), nk)
  {
    hide Word;
    forall i | 0 <= i < nk { rk[i] := Word(userKey[4 * i], userKey[4 * i + 1], userKey[4 * i + 2], userKey[4 * i + 3]); }
    assert rk[..nk] == WordsOf(userKey[..], nk);
  }

  method Fill128(rk: array<bv32>, ghost key: seq<bv32>)
    requires rk.Length == 60 && |key| == 4 && rk[..4] == key
    modifies rk
    ensures rk[..44] == Expand(key, 44)
  {
    hide *;
    ExpandPrefix(key, 4);
    var i, o := 0, 0;
    while true
      invariant 0 <= i < 10 && o == 4 * i && rk[..o + 4] == Expand(key, o + 4)
      decreases 10 - i
    {
      ExtendFirst(rk, o + 4, 4, i, key);
      ExtendPlain(rk, o + 5, 4, key, i + 1, 1);
      ExtendPlain(rk, o + 6, 4, key, i + 1, 2);
      ExtendPlain(rk, o + 7, 4, key, i + 1, 3);
      i := i + 1;
      if i == 10 { return; }
      o := o + 4;
    }
  }

  method Fill192(rk: array<bv32>, ghost key: seq<bv32>)
    requires rk.Length == 60 && |key| == 6 && rk[..6] == key
    modifies rk
    ensures rk[..52] == Expand(key, 52)
  {
    hide *;
    ExpandPrefix(key, 6);
    var i, o := 0, 0;
    while true
      invariant 0 <= i < 8 && o == 6 * i && rk[..o + 6] == Expand(key, o + 6)
      decreases 8 - i
    {
      ExtendFirst(rk, o + 6, 6, i, key);
      ExtendPlain(rk, o + 7, 6, key, i + 1, 1);
      ExtendPlain(rk, o + 8, 6, key, i + 1, 2);
      ExtendPlain(rk, o + 9, 6, key, i + 1, 3);
      i := i + 1;
      if i == 8 { return; }
      ExtendPlain(rk, o + 10, 6, key, i, 4);
      ExtendPlain(rk, o + 11, 6, key, i, 5);
      o := o + 6;
    }
  }

  method Fill256(rk: array<bv32>, ghost key: seq<bv32>)
    requires rk.Length == 60 && |key| == 8 && rk[..8] == key
    modifies rk
    ensures rk[..60] == Expand(key, 60)
  {
    hide *;
    ExpandPrefix(key, 8);
    var i, o := 0, 0;
    while true
      invariant 0 <= i < 7 && o == 8 * i && rk[..o + 8] == Expand(key, o + 8)
      decreases 7 - i
    {
      ExtendFirst(rk, o + 8, 8, i, key);
      ExtendPlain(rk, o + 9, 8, key, i + 1, 1);
      ExtendPlain(rk, o + 10, 8, key, i + 1, 2);
      ExtendPlain(rk, o + 11, 8, key, i + 1, 3);
      i := i + 1;
      if i == 7 { return; }
      var temp := rk[o + 11];
      SubRotIs(temp);
      TempIs(temp, 8, i, 0);
      Extend(rk, o + 12, 8, SubOnly(temp), key, i, 4);
      ExtendPlain(rk, o + 13, 8, key, i, 5);
      ExtendPlain(rk, o + 14, 8, key, i, 6);
      ExtendPlain(rk, o + 15, 8, key, i, 7);
      o := o + 8;
    }
  }

  method SetEncryptKey(userKey: array?<byte>, bits: int, key: Key?) returns (status: int)
    requires key != null ==> key.rdKey.Length == 60
    requires userKey != null && (bits == 128 || bits == 192 || bits == 256) ==> userKey.Length >= bits / 8
    modifies if key == null then {} else {key, key.rdKey}
    ensures status == if userKey == null || key == null then -1
                      else if bits != 128 && bits != 192 && bits != 256 then -2 else 0
    ensures status != 0 && key != null ==> key.rounds == old(key.rounds) && key.rdKey[..] == old(key.rdKey[..])
    ensures status == 0 ==>
      && key.Ready() && key.rounds == RoundsOf(bits)
      && key.rdKey[..4 * key.rounds + 4] == Expand(WordsOf(old(userKey[..]), KeyWords(bits)), 4 * key.rounds + 4)
  {
    hide Expand, WordsOf;
    if userKey == null || key == null { return -1; }
    if bits != 128 && bits != 192 && bits != 256 { return -2; }
    var rk := key.rdKey;
    ghost var w := WordsOf(userKey[..], KeyWords(bits));
    if bits == 128 { key.rounds := 10; } else if bits == 192 { key.rounds := 12; } else { key.rounds := 14; }
    LoadKey(userKey, rk, KeyWords(bits));
    if bits == 128 { Fill128(rk, w); } else if bits == 192 { Fill192(rk, w); } else { Fill256(rk, w); }
    return 0;
  }

  // ---- The decryption schedule

  method SwapKeys(rk: array<bv32>, i: nat, j: nat)
    requires i + 4 <= j && j + 4 <= rk.Length
    modifies rk
    ensures forall q :: 0 <= q < rk.Length ==>
      rk[q] == if i <= q < i + 4 then old(rk[q - i + j]) else if j <= q < j + 4 then old(rk[q - j + i]) else old(rk[q])
  {
    SwapWords(rk, i, j);
    SwapWords(rk, i + 1, j + 1);
    SwapWords(rk, i + 2, j + 2);
    SwapWords(rk, i + 3, j + 3);
  }

  method SwapWords(rk: array<bv32>, i: nat, j: nat)
    requires i < rk.Length && j < rk.Length
    modifies rk
    ensures rk[i] == old(rk[j]) && rk[j] == old(rk[i])
    ensures forall q :: 0 <= q < rk.Length && q != i && q != j ==> rk[q] == old(rk[q])
  {
    var temp := rk[i];
    rk[i] := rk[j];
    rk[j] := temp;
  }

  /** Word `q` of the schedule of `nr` rounds with its round keys in reverse order. */
  function Flip(nr: nat, q: nat): nat
    requires q < 4 * nr + 4
  {
    4 * (nr - q / 4) + q % 4
  }

  /** The round keys outside `i..j + 4` have changed places; those inside have not. */
  ghost predicate Flipped(rk: seq<bv32>, w: seq<bv32>, nr: nat, i: nat, j: int)
    requires |rk| >= 4 * nr + 4 && |w| >= 4 * nr + 4
  {
    forall q :: 0 <= q < 4 * nr + 4 ==> rk[q] == if i <= q < j + 4 then w[q] else w[Flip(nr, q)]
  }

  method ReverseKeys(rk: array<bv32>, nr: nat)
    requires 4 * nr + 4 <= rk.Length
    modifies rk
    ensures Flipped(rk[..], old(rk[..]), nr, 4 * nr + 4, 0)
  {
    hide Flip;
    ghost var w := rk[..];
    var i, j := 0, 4 * nr;
    ghost var h := 0;
    while i < j
      invariant i == 4 * h && j == 4 * (nr - h) && 2 * h <= nr + 1
      invariant Flipped(rk[..], w, nr, i, j)
    {
      FlipSwap(rk[..], w, nr, h);
      ghost var before := rk[..];
      SwapKeys(rk, i, j);
      i, j := i + 4, j - 4;
      h := h + 1;
    }
    FlipMiddle(nr, h);
  }

  /** Exchanging two keys of the unchanged part shrinks it. */
  lemma FlipSwap(rk: seq<bv32>, w: seq<bv32>, nr: nat, h: nat)
    requires |rk| >= 4 * nr + 4 && |w| >= 4 * nr + 4 && 2 * h < nr
    requires Flipped(rk, w, nr, 4 * h, 4 * (nr - h))
    ensures forall q :: 4 * h <= q < 4 * h + 4 ==> rk[q - 4 * h + 4 * (nr - h)] == w[Flip(nr, q)]
    ensures forall q :: 4 * (nr - h) <= q < 4 * (nr - h) + 4 ==> rk[q - 4 * (nr - h) + 4 * h] == w[Flip(nr, q)]
  {
    hide Flip;
    FlipRow(nr, h, 0); FlipRow(nr, h, 1); FlipRow(nr, h, 2); FlipRow(nr, h, 3);
    FlipRow(nr, nr - h, 0); FlipRow(nr, nr - h, 1); FlipRow(nr, nr - h, 2); FlipRow(nr, nr - h, 3);
  }

  lemma FlipRow(nr: nat, r: nat, c: nat)
    requires r <= nr && c < 4
    ensures Flip(nr, 4 * r + c) == 4 * (nr - r) + c
  {}

  lemma FlipMiddle(nr: nat, h: nat)
    requires 4 * h >= 4 * (nr - h) && 2 * h <= nr + 1
    ensures forall q :: 4 * h <= q < 4 * (nr - h) + 4 ==> Flip(nr, q) == q
  {
    hide Flip;
    if 2 * h == nr {
      FlipRow(nr, h, 0); FlipRow(nr, h, 1); FlipRow(nr, h, 2); FlipRow(nr, h, 3);
    }
  }

  /** The second loop: rounds 1 to `nr - 1` go through InvMixColumns. */
  method MixKeys(rk: array<bv32>, nr: nat)
    requires 4 * nr + 4 <= rk.Length
    modifies rk
    ensures forall q :: 0 <= q < rk.Length ==>
      rk[q] == if 4 <= q < 4 * nr then InvMixColumn(old(rk[q])) else old(rk[q])
  {
    hide InvMixColumn;
    ghost var w := rk[..];
    var i, o := 1, 0;
    while i < nr
      invariant 1 <= i && (i <= nr || i == 1) && o == 4 * (i - 1)
      invariant forall q :: 0 <= q < rk.Length ==> rk[q] == if 4 <= q < o + 4 then InvMixColumn(w[q]) else w[q]
    {
      o := o + 4;
      MixOneKey(rk, o);
      i := i + 1;
    }
  }

  method MixOneKey(rk: array<bv32>, o: nat)
    requires o + 4 <= rk.Length
    modifies rk
    ensures forall q :: 0 <= q < rk.Length ==> rk[q] == if o <= q < o + 4 then InvMixColumn(old(rk[q])) else old(rk[q])
  {
    hide *;
    MixKeyWordIs(rk[o]); MixKeyWordIs(rk[o + 1]); MixKeyWordIs(rk[o + 2]); MixKeyWordIs(rk[o + 3]);
    rk[o] := MixKeyWord(rk[o]);
    rk[o + 1] := MixKeyWord(rk[o + 1]);
    rk[o + 2] := MixKeyWord(rk[o + 2]);
    rk[o + 3] := MixKeyWord(rk[o + 3]);
  }

  lemma ReversedIs(d: seq<bv32>, f: seq<bv32>, w: seq<bv32>, nr: nat)
    requires nr > 0 && |d| == |f| == |w| && |w| >= 4 * nr + 4 && Flipped(f, w, nr, 4 * nr + 4, 0)
    requires forall q :: 0 <= q < |d| ==> d[q] == if 4 <= q < 4 * nr then InvMixColumn(f[q]) else f[q]
    ensures Reversed(d, w, nr)
  {
    hide InvMixColumn, Flip, Flipped;
    FlippedKey(f, w, nr, 0);
    FlippedKey(f, w, nr, nr);
    forall r | 0 < r < nr ensures RoundKey(d, r) == InvMixColumns(RoundKey(w, nr - r)) {
      FlippedKey(f, w, nr, r);
    }
  }

  lemma FlippedKey(f: seq<bv32>, w: seq<bv32>, nr: nat, r: nat)
    requires |f| >= 4 * nr + 4 && |w| >= 4 * nr + 4 && Flipped(f, w, nr, 4 * nr + 4, 0) && r <= nr
    ensures RoundKey(f, r) == RoundKey(w, nr - r)
  {
    hide Flip;
    FlipRow(nr, r, 0); FlipRow(nr, r, 1); FlipRow(nr, r, 2); FlipRow(nr, r, 3);
  }

  method SetDecryptKey(userKey: array?<byte>, bits: int, key: Key?) returns (status: int)
    requires key != null ==> key.rdKey.Length == 60
    requires userKey != null && (bits == 128 || bits == 192 || bits == 256) ==> userKey.Length >= bits / 8
    modifies if key == null then {} else {key, key.rdKey}
    ensures status == if userKey == null || key == null then -1
                      else if bits != 128 && bits != 192 && bits != 256 then -2 else 0
    ensures status == 0 ==>
      && key.Ready() && key.rounds == RoundsOf(bits)
      && Reversed(key.rdKey[..], Expand(WordsOf(old(userKey[..]), KeyWords(bits)), 4 * key.rounds + 4), key.rounds)
  {
    hide Expand, WordsOf, Flipped, Reversed, InvMixColumn;
    status := SetEncryptKey(userKey, bits, key);
    if status < 0 { return; }
    var rk := key.rdKey;
    ghost var w := rk[..];
    ReverseKeys(rk, key.rounds);
    ghost var f := rk[..];
    MixKeys(rk, key.rounds);
    ReversedIs(rk[..], f, w, key.rounds);
    ReversedPrefix(rk[..], w, key.rounds);
  }

  /** Only the first `4 * nr + 4` words of a schedule matter. */
  lemma ReversedPrefix(d: seq<bv32>, w: seq<bv32>, nr: nat)
    requires |w| >= 4 * nr + 4 && Reversed(d, w, nr)
    ensures Reversed(d, w[..4 * nr + 4], nr)
  {
    hide InvMixColumns;
    assert forall r :: 0 <= r <= nr ==> RoundKey(w[..4 * nr + 4], r) == RoundKey(w, r);
  }

  // ---- Blocks

  /** The state through the S-boxes, rows and columns, by table. */
  function TeRound(s: State): State {
    State(Te(B0(s.c0), B1(s.c1), B2(s.c2), B3(s.c3)), Te(B0(s.c1), B1(s.c2), B2(s.c3), B3(s.c0)),
          Te(B0(s.c2), B1(s.c3), B2(s.c0), B3(s.c1)), Te(B0(s.c3), B1(s.c0), B2(s.c1), B3(s.c2)))
  }

  function Te4Round(s: State): State {
    State(Pack(Te4(B0(s.c0)), Te4(B1(s.c1)), Te4(B2(s.c2)), Te4(B3(s.c3))),
          Pack(Te4(B0(s.c1)), Te4(B1(s.c2)), Te4(B2(s.c3)), Te4(B3(s.c0))),
          Pack(Te4(B0(s.c2)), Te4(B1(s.c3)), Te4(B2(s.c0)), Te4(B3(s.c1))),
          Pack(Te4(B0(s.c3)), Te4(B1(s.c0)), Te4(B2(s.c1)), Te4(B3(s.c2))))
  }

  function TdRound(s: State): State {
    State(Td(B0(s.c0), B1(s.c3), B2(s.c2), B3(s.c1)), Td(B0(s.c1), B1(s.c0), B2(s.c3), B3(s.c2)),
          Td(B0(s.c2), B1(s.c1), B2(s.c0), B3(s.c3)), Td(B0(s.c3), B1(s.c2), B2(s.c1), B3(s.c0)))
  }

  function Td4Round(s: State): State {
    State(Pack(Td4(B0(s.c0)), Td4(B1(s.c3)), Td4(B2(s.c2)), Td4(B3(s.c1))),
          Pack(Td4(B0(s.c1)), Td4(B1(s.c0)), Td4(B2(s.c3)), Td4(B3(s.c2))),
          Pack(Td4(B0(s.c2)), Td4(B1(s.c1)), Td4(B2(s.c0)), Td4(B3(s.c3))),
          Pack(Td4(B0(s.c3)), Td4(B1(s.c2)), Td4(B2(s.c1)), Td4(B3(s.c0))))
  }

  lemma TeRoundIs(s: State)
    ensures TeRound(s) == MixColumns(Scramble(s)) && Te4Round(s) == Scramble(s)
  {
    hide Te, Te4, Pack, MixColumn, Diagonal, SubWord, B0, B1, B2, B3;
    ForwardColumn(s.c0, s.c1, s.c2, s.c3);
    ForwardColumn(s.c1, s.c2, s.c3, s.c0);
    ForwardColumn(s.c2, s.c3, s.c0, s.c1);
    ForwardColumn(s.c3, s.c0, s.c1, s.c2);
  }

  lemma TdRoundIs(s: State)
    ensures TdRound(s) == InvMixColumns(InvShiftRows(InvSubBytes(s))) && Td4Round(s) == InvShiftRows(InvSubBytes(s))
  {
    hide Td, Td4, Pack, InvMixColumn, Diagonal, InvSubWord, B0, B1, B2, B3;
    BackwardColumn(s.c0, s.c3, s.c2, s.c1);
    BackwardColumn(s.c1, s.c0, s.c3, s.c2);
    BackwardColumn(s.c2, s.c1, s.c0, s.c3);
    BackwardColumn(s.c3, s.c2, s.c1, s.c0);
  }

  /** Adding the round key whose first word is `rk[o]`. */
  method KeyAt(rk: array<bv32>, o: nat, s: State, ghost n: nat) returns (r: State)
    requires o + 4 <= rk.Length && o == 4 * n
    ensures r == AddKey(s, RoundKey(rk[..], n))
  {
    hide AddWord;
    r := State(AddWord(s.c0, rk[o]), AddWord(s.c1, rk[o + 1]), AddWord(s.c2, rk[o + 2]), AddWord(s.c3, rk[o + 3]));
  }

  /** The loop makes two rounds a turn and leaves in the middle of the last one. */
  method Encrypt(input: seq<byte>, key: Key) returns (out: seq<byte>)
    requires |input| == 16 && key.Ready()
    ensures out == CipherBlock(key.rdKey[..], key.rounds, input)
  {
    hide *;
    ReadyRounds(key);
    var rk := key.rdKey;
    ghost var w, x := rk[..], Load(input);
    var o := 0;
    var s := KeyAt(rk, o, Load(input), 0);
    var t;
    var r := key.rounds / 2;
    ghost var n := 0;
    RoundsZero(w, x);
    while true
      invariant r > 0 && n + 2 * r == key.rounds && o == 4 * n && rk[..] == w
      invariant s == Rounds(w, n, x)
      decreases r
    {
      RoundsNext(w, n, x);
      TeRoundIs(s);
      t := KeyAt(rk, o + 4, TeRound(s), n + 1);
      TeRoundIs(t);
      o := o + 8;
      r := r - 1;
      if r == 0 { break; }
      RoundsNext(w, n + 1, x);
      s := KeyAt(rk, o, TeRound(t), n + 2);
      n := n + 2;
    }
    s := KeyAt(rk, o, Te4Round(t), key.rounds);
    CipherIs(w, key.rounds, input);
    out := Store(s);
  }

  lemma RoundsZero(w: seq<bv32>, x: State)
    requires 4 <= |w|
    ensures Rounds(w, 0, x) == AddKey(x, RoundKey(w, 0)) && EqRounds(w, 0, x) == AddKey(x, RoundKey(w, 0))
  {}

  lemma RoundsNext(w: seq<bv32>, n: nat, x: State)
    requires 4 * n + 8 <= |w|
    ensures Rounds(w, n + 1, x) == AddKey(MixColumns(Scramble(Rounds(w, n, x))), RoundKey(w, n + 1))
    ensures EqRounds(w, n + 1, x) ==
      AddKey(InvMixColumns(InvShiftRows(InvSubBytes(EqRounds(w, n, x)))), RoundKey(w, n + 1))
  {
    hide AddKey, MixColumns, Scramble, InvMixColumns, InvShiftRows, InvSubBytes, RoundKey;
  }

  method Decrypt(input: seq<byte>, key: Key) returns (out: seq<byte>)
    requires |input| == 16 && key.Ready()
    ensures out == Store(EqCipher(key.rdKey[..], key.rounds, Load(input)))
  {
    hide *;
    ReadyRounds(key);
    var rk := key.rdKey;
    ghost var w, x := rk[..], Load(input);
    var o := 0;
    var s := KeyAt(rk, o, Load(input), 0);
    var t;
    var r := key.rounds / 2;
    ghost var n := 0;
    RoundsZero(w, x);
    while true
      invariant r > 0 && n + 2 * r == key.rounds && o == 4 * n && rk[..] == w
      invariant s == EqRounds(w, n, x)
      decreases r
    {
      RoundsNext(w, n, x);
      TdRoundIs(s);
      t := KeyAt(rk, o + 4, TdRound(s), n + 1);
      TdRoundIs(t);
      o := o + 8;
      r := r - 1;
      if r == 0 { break; }
      RoundsNext(w, n + 1, x);
      s := KeyAt(rk, o, TdRound(t), n + 2);
      n := n + 2;
    }
    s := KeyAt(rk, o, Td4Round(t), key.rounds);
    EqCipherIs(w, key.rounds, x);
    out := Store(s);
  }

  /** For keys of 128, 192 and 256 bits, deciphering under the decryption schedule undoes enciphering under the
      encryption schedule. */
  method RoundTrip(userKey: array<byte>, bits: int, block: seq<byte>) returns (back: seq<byte>)
    requires (bits == 128 || bits == 192 || bits == 256) && userKey.Length >= bits / 8 && |block| == 16
    ensures back == block
  {
    hide *;
    var enc := new Key();
    var dec := new Key();
    var status := SetEncryptKey(userKey, bits, enc);
    ghost var w := enc.rdKey[..];
    var wire := Encrypt(block, enc);
    status := SetDecryptKey(userKey, bits, dec);
    back := Decrypt(wire, dec);
    ghost var nr := enc.rounds;
    ReadyRounds(enc);
    SameKeys(w, nr, block);
    ReversedUndoes(dec.rdKey[..], w[..4 * nr + 4], nr, block);
  }

  lemma ReadyRounds(key: Key)
    requires key.Ready()
    ensures key.rounds == 2 * (key.rounds / 2) > 0 && key.rdKey.Length >= 4 * key.rounds + 4
  {}

  lemma EqCipherIs(d: seq<bv32>, nr: nat, x: State)
    requires nr > 0 && 4 * nr + 4 <= |d|
    ensures EqCipher(d, nr, x) == AddKey(InvShiftRows(InvSubBytes(EqRounds(d, nr - 1, x))), RoundKey(d, nr))
  {
    hide AddKey, InvShiftRows, InvSubBytes, EqRounds, RoundKey;
  }

  lemma SameKeys(w: seq<bv32>, nr: nat, b: seq<byte>)
    requires nr > 0 && |w| >= 4 * nr + 4 && |b| == 16
    ensures CipherBlock(w, nr, b) == CipherBlock(w[..4 * nr + 4], nr, b)
  {
    hide Load, Store, AddKey, Scramble, Rounds;
    SameRounds(w, nr, nr - 1, Load(b));
  }

  lemma {:induction false} SameRounds(w: seq<bv32>, nr: nat, n: nat, x: State)
    requires n <= nr && |w| >= 4 * nr + 4
    ensures Rounds(w, n, x) == Rounds(w[..4 * nr + 4], n, x)
  {
    hide AddKey, MixColumns, Scramble;
    if n > 0 { SameRounds(w, nr, n - 1, x); }
  }

  /** The equivalent inverse cipher under a reversed schedule undoes the cipher. */
  lemma ReversedUndoes(d: seq<bv32>, w: seq<bv32>, nr: nat, b: seq<byte>)
    requires nr > 0 && Reversed(d, w, nr) && |b| == 16
    ensures Store(EqCipher(d, nr, Load(CipherBlock(w, nr, b)))) == b
  {
    hide EqCipher, InvCipher, Cipher, Load, Store, Reversed;
    ReversedLong(d, w, nr);
    EqCipherIsInverse(d, w, nr, Load(CipherBlock(w, nr, b)));
    BlockRoundTrip(w, nr, b);
  }

  lemma ReversedLong(d: seq<bv32>, w: seq<bv32>, nr: nat)
    requires Reversed(d, w, nr)
    ensures |d| >= 4 * nr + 4 && |w| >= 4 * nr + 4
  {}
}
