/** The cipher of FIPS 197 on a state of four columns, its inverse, and the equivalent inverse cipher of section
    5.3.5. Both implementations are proved against these functions. */
module AesSpec {
  import opened Bits
  import opened AesTables
  import opened AesField

  /** The state: column `i` is the big-endian word of bytes `4 * i` to `4 * i + 3`. */
  datatype State = State(c0: bv32, c1: bv32, c2: bv32, c3: bv32)

  // ---- The four steps and their inverses

  function SubWord(w: bv32): bv32 {
    Word(Sbox(B0(w)), Sbox(B1(w)), Sbox(B2(w)), Sbox(B3(w)))
  }

  function InvSubWord(w: bv32): bv32 {
    Word(RSbox(B0(w)), RSbox(B1(w)), RSbox(B2(w)), RSbox(B3(w)))
  }

  function SubBytes(s: State): State {
    State(SubWord(s.c0), SubWord(s.c1), SubWord(s.c2), SubWord(s.c3))
  }

  function InvSubBytes(s: State): State {
    State(InvSubWord(s.c0), InvSubWord(s.c1), InvSubWord(s.c2), InvSubWord(s.c3))
  }

  /** One column taken diagonally: its four bytes come from four columns. */
  function Diagonal(a: bv32, b: bv32, c: bv32, d: bv32): bv32 {
    Word(B0(a), B1(b), B2(c), B3(d))
  }

  function ShiftRows(s: State): State {
    State(Diagonal(s.c0, s.c1, s.c2, s.c3), Diagonal(s.c1, s.c2, s.c3, s.c0),
          Diagonal(s.c2, s.c3, s.c0, s.c1), Diagonal(s.c3, s.c0, s.c1, s.c2))
  }

  function InvShiftRows(s: State): State {
    State(Diagonal(s.c0, s.c3, s.c2, s.c1), Diagonal(s.c1, s.c0, s.c3, s.c2),
          Diagonal(s.c2, s.c1, s.c0, s.c3), Diagonal(s.c3, s.c2, s.c1, s.c0))
  }

  function MixColumn(w: bv32): bv32 {
    Mix(B0(w), B1(w), B2(w), B3(w))
  }

  function InvMixColumn(w: bv32): bv32 {
    InvMix(B0(w), B1(w), B2(w), B3(w))
  }

  function MixColumns(s: State): State {
    State(MixColumn(s.c0), MixColumn(s.c1), MixColumn(s.c2), MixColumn(s.c3))
  }

  function InvMixColumns(s: State): State {
    State(InvMixColumn(s.c0), InvMixColumn(s.c1), InvMixColumn(s.c2), InvMixColumn(s.c3))
  }

  function AddKey(s: State, k: State): State {
    State(AddWord(s.c0, k.c0), AddWord(s.c1, k.c1), AddWord(s.c2, k.c2), AddWord(s.c3, k.c3))
  }

  lemma SubWordUndone(w: bv32)
    ensures InvSubWord(SubWord(w)) == w
  {
    hide Sbox, RSbox, Word, B0, B1, B2, B3;
    var a, b, c, d := B0(w), B1(w), B2(w), B3(w);
    WordOfBytes(w);
    BytesOfWord(Sbox(a), Sbox(b), Sbox(c), Sbox(d));
    SboxUndone(a); SboxUndone(b); SboxUndone(c); SboxUndone(d);
  }

  lemma SubUndone(s: State)
    ensures InvSubBytes(SubBytes(s)) == s
  {
    hide SubWord, InvSubWord;
    SubWordUndone(s.c0); SubWordUndone(s.c1); SubWordUndone(s.c2); SubWordUndone(s.c3);
  }

  lemma BytesOfDiagonal(a: bv32, b: bv32, c: bv32, d: bv32)
    ensures B0(Diagonal(a, b, c, d)) == B0(a) && B1(Diagonal(a, b, c, d)) == B1(b)
    ensures B2(Diagonal(a, b, c, d)) == B2(c) && B3(Diagonal(a, b, c, d)) == B3(d)
  {
    hide Word, B0, B1, B2, B3;
    BytesOfWord(B0(a), B1(b), B2(c), B3(d));
  }

  lemma DiagonalOf(a: bv32, b: bv32, c: bv32, d: bv32, w: bv32)
    requires B0(a) == B0(w) && B1(b) == B1(w) && B2(c) == B2(w) && B3(d) == B3(w)
    ensures Diagonal(a, b, c, d) == w
  {
    hide Word, B0, B1, B2, B3;
    WordOfBytes(w);
  }

  lemma ShiftUndone(s: State)
    ensures InvShiftRows(ShiftRows(s)) == s
  {
    hide Diagonal, B0, B1, B2, B3;
    var t := ShiftRows(s);
    BytesOfDiagonal(s.c0, s.c1, s.c2, s.c3);
    BytesOfDiagonal(s.c1, s.c2, s.c3, s.c0);
    BytesOfDiagonal(s.c2, s.c3, s.c0, s.c1);
    BytesOfDiagonal(s.c3, s.c0, s.c1, s.c2);
    DiagonalOf(t.c0, t.c3, t.c2, t.c1, s.c0);
    DiagonalOf(t.c1, t.c0, t.c3, t.c2, s.c1);
    DiagonalOf(t.c2, t.c1, t.c0, t.c3, s.c2);
    DiagonalOf(t.c3, t.c2, t.c1, t.c0, s.c3);
  }

  lemma MixColumnUndone(w: bv32)
    ensures InvMixColumn(MixColumn(w)) == w
  {
    hide Mix, InvMix, Word, B0, B1, B2, B3;
    MixUndone(B0(w), B1(w), B2(w), B3(w));
    WordOfBytes(w);
  }

  lemma MixColumnsUndone(s: State)
    ensures InvMixColumns(MixColumns(s)) == s
  {
    hide MixColumn, InvMixColumn;
    MixColumnUndone(s.c0); MixColumnUndone(s.c1); MixColumnUndone(s.c2); MixColumnUndone(s.c3);
  }

  lemma AddKeyUndone(s: State, k: State)
    ensures AddKey(AddKey(s, k), k) == s
  {
    hide AddWord;
    AddWordTwice(s.c0, k.c0); AddWordTwice(s.c1, k.c1); AddWordTwice(s.c2, k.c2); AddWordTwice(s.c3, k.c3);
  }

  // ---- The cipher

  /** Round key `r` of a schedule: four of its words. */
  function RoundKey(w: seq<bv32>, r: nat): State
    requires 4 * r + 4 <= |w|
  {
    State(w[4 * r], w[4 * r + 1], w[4 * r + 2], w[4 * r + 3])
  }

  function Scramble(s: State): State {
    ShiftRows(SubBytes(s))
  }

  function Unscramble(s: State): State {
    InvSubBytes(InvShiftRows(s))
  }

  lemma Unscrambled(s: State)
    ensures Unscramble(Scramble(s)) == s
  {
    hide ShiftRows, InvShiftRows, SubBytes, InvSubBytes;
    ShiftUndone(SubBytes(s));
    SubUndone(s);
  }

  /** The first key and `n` full rounds. */
  function Rounds(w: seq<bv32>, n: nat, s: State): State
    requires 4 * n + 4 <= |w|
  {
    if n == 0 then AddKey(s, RoundKey(w, 0))
    else AddKey(MixColumns(Scramble(Rounds(w, n - 1, s))), RoundKey(w, n))
  }

  function Cipher(w: seq<bv32>, nr: nat, s: State): State
    requires nr > 0 && 4 * nr + 4 <= |w|
  {
    AddKey(Scramble(Rounds(w, nr - 1, s)), RoundKey(w, nr))
  }

  /** The last key and `n` rounds of the straightforward inverse. */
  function InvRounds(w: seq<bv32>, nr: nat, n: nat, s: State): State
    requires n <= nr && 4 * nr + 4 <= |w|
  {
    if n == 0 then AddKey(s, RoundKey(w, nr))
    else InvMixColumns(AddKey(Unscramble(InvRounds(w, nr, n - 1, s)), RoundKey(w, nr - n)))
  }

  function InvCipher(w: seq<bv32>, nr: nat, s: State): State
    requires nr > 0 && 4 * nr + 4 <= |w|
  {
    AddKey(Unscramble(InvRounds(w, nr, nr - 1, s)), RoundKey(w, 0))
  }

  lemma {:induction false} InvRoundsUndo(w: seq<bv32>, nr: nat, n: nat, s: State)
    requires 0 < nr && n < nr && 4 * nr + 4 <= |w|
    ensures InvRounds(w, nr, n, Cipher(w, nr, s)) == Scramble(Rounds(w, nr - 1 - n, s))
  {
    hide AddKey, MixColumns, InvMixColumns, Scramble, Unscramble, RoundKey;
    if n == 0 {
      AddKeyUndone(Scramble(Rounds(w, nr - 1, s)), RoundKey(w, nr));
    } else {
      InvRoundsUndo(w, nr, n - 1, s);
      var r := Rounds(w, nr - n - 1, s);
      Unscrambled(Rounds(w, nr - n, s));
      AddKeyUndone(MixColumns(Scramble(r)), RoundKey(w, nr - n));
      MixColumnsUndone(Scramble(r));
    }
  }

  /** The inverse cipher undoes the cipher, for every number of rounds and every schedule. */
  lemma CipherRoundTrip(w: seq<bv32>, nr: nat, s: State)
    requires nr > 0 && 4 * nr + 4 <= |w|
    ensures InvCipher(w, nr, Cipher(w, nr, s)) == s
  {
    hide AddKey, MixColumns, Scramble, Unscramble, RoundKey, InvRounds;
    InvRoundsUndo(w, nr, nr - 1, s);
    Unscrambled(Rounds(w, 0, s));
    AddKeyUndone(s, RoundKey(w, 0));
  }

  // ---- The equivalent inverse cipher

  function EqRounds(d: seq<bv32>, n: nat, s: State): State
    requires 4 * n + 4 <= |d|
  {
    if n == 0 then AddKey(s, RoundKey(d, 0))
    else AddKey(InvMixColumns(InvShiftRows(InvSubBytes(EqRounds(d, n - 1, s)))), RoundKey(d, n))
  }

  function EqCipher(d: seq<bv32>, nr: nat, s: State): State
    requires nr > 0 && 4 * nr + 4 <= |d|
  {
    AddKey(InvShiftRows(InvSubBytes(EqRounds(d, nr - 1, s))), RoundKey(d, nr))
  }

  /** `d` is the decryption schedule of `w`: the round keys in reverse, all but the outer two through InvMixColumns. */
  ghost predicate Reversed(d: seq<bv32>, w: seq<bv32>, nr: nat) {
    && |d| >= 4 * nr + 4 && |w| >= 4 * nr + 4
    && RoundKey(d, 0) == RoundKey(w, nr)
    && RoundKey(d, nr) == RoundKey(w, 0)
    && forall r :: 0 < r < nr ==> RoundKey(d, r) == InvMixColumns(RoundKey(w, nr - r))
  }

  lemma SubDiagonal(a: bv32, b: bv32, c: bv32, d: bv32)
    ensures InvSubWord(Diagonal(a, b, c, d)) == Diagonal(InvSubWord(a), InvSubWord(b), InvSubWord(c), InvSubWord(d))
  {
    hide Word, B0, B1, B2, B3, RSbox;
    BytesOfWord(B0(a), B1(b), B2(c), B3(d));
    BytesOfWord(RSbox(B0(a)), RSbox(B1(a)), RSbox(B2(a)), RSbox(B3(a)));
    BytesOfWord(RSbox(B0(b)), RSbox(B1(b)), RSbox(B2(b)), RSbox(B3(b)));
    BytesOfWord(RSbox(B0(c)), RSbox(B1(c)), RSbox(B2(c)), RSbox(B3(c)));
    BytesOfWord(RSbox(B0(d)), RSbox(B1(d)), RSbox(B2(d)), RSbox(B3(d)));
  }

  lemma SubShiftCommute(s: State)
    ensures InvShiftRows(InvSubBytes(s)) == Unscramble(s)
  {
    hide Diagonal, InvSubWord;
    SubDiagonal(s.c0, s.c3, s.c2, s.c1);
    SubDiagonal(s.c1, s.c0, s.c3, s.c2);
    SubDiagonal(s.c2, s.c1, s.c0, s.c3);
    SubDiagonal(s.c3, s.c2, s.c1, s.c0);
  }

  lemma InvMixColumnAdd(v: bv32, w: bv32)
    ensures InvMixColumn(AddWord(v, w)) == AddWord(InvMixColumn(v), InvMixColumn(w))
  {
    hide InvMix, AddWord, Add, B0, B1, B2, B3;
    BytesOfAdd(v, w);
    InvMixAdd(B0(v), B1(v), B2(v), B3(v), B0(w), B1(w), B2(w), B3(w));
  }

  lemma InvMixColumnsAdd(s: State, k: State)
    ensures InvMixColumns(AddKey(s, k)) == AddKey(InvMixColumns(s), InvMixColumns(k))
  {
    hide InvMixColumn, AddWord;
    InvMixColumnAdd(s.c0, k.c0); InvMixColumnAdd(s.c1, k.c1); InvMixColumnAdd(s.c2, k.c2); InvMixColumnAdd(s.c3, k.c3);
  }

  lemma {:induction false} EqRoundsAre(d: seq<bv32>, w: seq<bv32>, nr: nat, n: nat, s: State)
    requires n < nr && Reversed(d, w, nr)
    ensures EqRounds(d, n, s) == InvRounds(w, nr, n, s)
  {
    hide AddKey, InvMixColumns, InvShiftRows, InvSubBytes, Unscramble, RoundKey;
    if n > 0 {
      EqRoundsAre(d, w, nr, n - 1, s);
      var r := InvRounds(w, nr, n - 1, s);
      SubShiftCommute(r);
      InvMixColumnsAdd(Unscramble(r), RoundKey(w, nr - n));
    }
  }

  /** Under the reversed schedule the equivalent inverse cipher is the inverse cipher. */
  lemma EqCipherIsInverse(d: seq<bv32>, w: seq<bv32>, nr: nat, s: State)
    requires nr > 0 && Reversed(d, w, nr)
    ensures EqCipher(d, nr, s) == InvCipher(w, nr, s)
  {
    hide AddKey, InvMixColumns, InvShiftRows, InvSubBytes, Unscramble, RoundKey, EqRounds, InvRounds;
    EqRoundsAre(d, w, nr, nr - 1, s);
    SubShiftCommute(InvRounds(w, nr, nr - 1, s));
  }

  // ---- Blocks

  function Load(b: seq<byte>): State
    requires |b| == 16
  {
    State(Word(b[0], b[1], b[2], b[3]), Word(b[4], b[5], b[6], b[7]),
          Word(b[8], b[9], b[10], b[11]), Word(b[12], b[13], b[14], b[15]))
  }

  function Store(s: State): (b: seq<byte>)
    ensures |b| == 16
  {
    Bytes(s.c0) + Bytes(s.c1) + Bytes(s.c2) + Bytes(s.c3)
  }

  lemma LoadStore(b: seq<byte>, s: State)
    requires |b| == 16
    ensures Store(Load(b)) == b && Load(Store(s)) == s
  {
    hide Word, B0, B1, B2, B3;
    BytesOfWord(b[0], b[1], b[2], b[3]); BytesOfWord(b[4], b[5], b[6], b[7]);
    BytesOfWord(b[8], b[9], b[10], b[11]); BytesOfWord(b[12], b[13], b[14], b[15]);
    WordOfBytes(s.c0); WordOfBytes(s.c1); WordOfBytes(s.c2); WordOfBytes(s.c3);
  }

  function CipherBlock(w: seq<bv32>, nr: nat, b: seq<byte>): (r: seq<byte>)
    requires nr > 0 && 4 * nr + 4 <= |w| && |b| == 16
    ensures |r| == 16
  {
    Store(Cipher(w, nr, Load(b)))
  }

  function InvCipherBlock(w: seq<bv32>, nr: nat, b: seq<byte>): (r: seq<byte>)
    requires nr > 0 && 4 * nr + 4 <= |w| && |b| == 16
    ensures |r| == 16
  {
    Store(InvCipher(w, nr, Load(b)))
  }

  lemma BlockRoundTrip(w: seq<bv32>, nr: nat, b: seq<byte>)
    requires nr > 0 && 4 * nr + 4 <= |w| && |b| == 16
    ensures InvCipherBlock(w, nr, CipherBlock(w, nr, b)) == b
  {
    hide Cipher, InvCipher, Load, Store;
    LoadStore(b, Cipher(w, nr, Load(b)));
    CipherRoundTrip(w, nr, Load(b));
  }

  /** The last round stands alone. */
  lemma CipherIs(w: seq<bv32>, nr: nat, b: seq<byte>)
    requires nr > 0 && 4 * nr + 4 <= |w| && |b| == 16
    ensures CipherBlock(w, nr, b) == Store(AddKey(Scramble(Rounds(w, nr - 1, Load(b))), RoundKey(w, nr)))
    ensures InvCipherBlock(w, nr, b) == Store(AddKey(Unscramble(InvRounds(w, nr, nr - 1, Load(b))), RoundKey(w, 0)))
  {
    hide AddKey, Scramble, Unscramble, Rounds, InvRounds, RoundKey, Load, Store;
  }
}
