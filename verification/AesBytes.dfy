/** The byte-wise AES-256: the state is an array of sixteen bytes that every step updates in place. */
module AesBytes {
  import opened Bits
  import opened AesTables
  import opened AesField
  import opened AesSpec
  import opened AesSchedule

  // ---- Key schedule

  function Rol8(w: bv32): bv32 {
    (w << 8) | (w >> 24)
  }

  lemma Rol8Is(w: bv32)
    ensures Rol8(w) == RotWord(w)
  {}

  /** `1 << (((i / 8) - 1) & 7)`, in the top byte. */
  function RconBit(q: nat): bv32
    requires 1 <= q <= 7
  {
    match q
    case 1 => 0x0100_0000
    case 2 => 0x0200_0000
    case 3 => 0x0400_0000
    case 4 => 0x0800_0000
    case 5 => 0x1000_0000
    case 6 => 0x2000_0000
    case _ => 0x4000_0000
  }

  lemma RconBitIs(q: nat)
    requires 1 <= q <= 7
    ensures RconBit(q) == Word(Rcon(q), 0, 0, 0)
  {
    hide Rcon;
    RconTable();
  }

  method KeySchedule(key: seq<byte>) returns (rk: array<bv32>)
    requires |key| == 32
    ensures fresh(rk) && rk.Length == 60
    ensures rk[..] == Expand(WordsOf(key, 8), 60)
  {
    hide Expand, Word, AddWord, Temp;
    ghost var k := WordsOf(key, 8);
    rk := new bv32[60](i requires 0 <= i < 60 => if i < 8 then Word(key[4 * i], key[4 * i + 1], key[4 * i + 2], key[4 * i + 3]) else 0);
    ExpandPrefix(k, 8);
    assert rk[..8] == k;
    var i := 8;
    while i < 60
      invariant 8 <= i <= 60 && rk[..i] == Expand(k, i)
    {
      ExpandNext(k, i, i / 8, i % 8);
      var t := NextTemp(rk[i - 1], i);
      ghost var w := rk[..i];
      rk[i] := AddWord(rk[i - 8], t);
      assert rk[..i + 1] == w + [rk[i]];
      i := i + 1;
    }
    assert rk[..60] == rk[..];
  }

  method NextTemp(last: bv32, i: nat) returns (t: bv32)
    requires 8 <= i < 60
    ensures t == Temp(last, 8, i / 8, i % 8)
  {
    hide Word, AddWord, Rol8, RotWord, SubWord, RconBit;
    t := last;
    if i % 8 == 0 {
      Rol8Is(t);
      t := SubWord(Rol8(t));
      RconBitIs(i / 8);
      t := AddWord(t, RconBit(i / 8));
    } else if i % 8 == 4 {
      t := SubWord(t);
    }
  }

  // ---- The state array

  /** Column `c` of a block. */
  function Column(b: seq<byte>, c: nat): bv32
    requires |b| == 16 && c < 4
  {
    Word(b[4 * c], b[4 * c + 1], b[4 * c + 2], b[4 * c + 3])
  }

  lemma LoadColumns(b: seq<byte>)
    requires |b| == 16
    ensures Load(b) == State(Column(b, 0), Column(b, 1), Column(b, 2), Column(b, 3))
  {
    hide Word;
  }

  /** Where the shift of rows takes each byte from. */
  function ShiftFrom(i: nat): (j: nat)
    requires i < 16
    ensures j < 16
  {
    [0, 5, 10, 15, 4, 9, 14, 3, 8, 13, 2, 7, 12, 1, 6, 11][i]
  }

  lemma ShiftTable()
    ensures ShiftFrom(0) == 0 && ShiftFrom(1) == 5 && ShiftFrom(2) == 10 && ShiftFrom(3) == 15
    ensures ShiftFrom(4) == 4 && ShiftFrom(5) == 9 && ShiftFrom(6) == 14 && ShiftFrom(7) == 3
    ensures ShiftFrom(8) == 8 && ShiftFrom(9) == 13 && ShiftFrom(10) == 2 && ShiftFrom(11) == 7
    ensures ShiftFrom(12) == 12 && ShiftFrom(13) == 1 && ShiftFrom(14) == 6 && ShiftFrom(15) == 11
  {}

  function Permuted(b: seq<byte>): (r: seq<byte>)
    requires |b| == 16
    ensures |r| == 16 && forall i :: 0 <= i < 16 ==> r[i] == b[ShiftFrom(i)]
  {
    seq(16, i requires 0 <= i < 16 => b[ShiftFrom(i)])
  }

  lemma PermutedIs(b: seq<byte>)
    requires |b| == 16
    ensures Load(Permuted(b)) == ShiftRows(Load(b))
  {
    hide Word, B0, B1, B2, B3, ShiftFrom, Permuted;
    ShiftTable();
    BytesOfWord(b[0], b[1], b[2], b[3]); BytesOfWord(b[4], b[5], b[6], b[7]);
    BytesOfWord(b[8], b[9], b[10], b[11]); BytesOfWord(b[12], b[13], b[14], b[15]);
  }

  /** Shifting the rows of the inverse is undoing the shift. */
  lemma UnpermutedIs(b: seq<byte>, t: seq<byte>)
    requires |b| == 16 && |t| == 16 && Permuted(t) == b
    ensures Load(t) == InvShiftRows(Load(b))
  {
    hide ShiftRows, InvShiftRows, Load, Permuted;
    PermutedIs(t);
    ShiftUndone(Load(t));
  }

  lemma SubColumn(b: seq<byte>, t: seq<byte>, c: nat)
    requires |b| == 16 && |t| == 16 && c < 4
    ensures (forall i :: 0 <= i < 16 ==> t[i] == Sbox(b[i])) ==> Column(t, c) == SubWord(Column(b, c))
    ensures (forall i :: 0 <= i < 16 ==> t[i] == RSbox(b[i])) ==> Column(t, c) == InvSubWord(Column(b, c))
  {
    hide Word, B0, B1, B2, B3, Sbox, RSbox;
    BytesOfWord(b[4 * c], b[4 * c + 1], b[4 * c + 2], b[4 * c + 3]);
  }

  lemma SubIs(b: seq<byte>, t: seq<byte>)
    requires |b| == 16 && |t| == 16
    ensures (forall i :: 0 <= i < 16 ==> t[i] == Sbox(b[i])) ==> Load(t) == SubBytes(Load(b))
    ensures (forall i :: 0 <= i < 16 ==> t[i] == RSbox(b[i])) ==> Load(t) == InvSubBytes(Load(b))
  {
    hide Load, Column, SubWord, InvSubWord, Sbox, RSbox;
    LoadColumns(b); LoadColumns(t);
    SubColumn(b, t, 0); SubColumn(b, t, 1); SubColumn(b, t, 2); SubColumn(b, t, 3);
  }

  method SubShift(s: array<byte>)
    requires s.Length == 16
    modifies s
    ensures Load(s[..]) == Scramble(old(Load(s[..])))
  {
    hide Load, ShiftRows, SubBytes, Permuted;
    var t := Substituted(s);
    PermutedIs(t[..]);
    ShiftInto(t, s);
  }

  method Substituted(s: array<byte>) returns (t: array<byte>)
    requires s.Length == 16
    ensures fresh(t) && t.Length == 16 && Load(t[..]) == SubBytes(Load(s[..]))
  {
    hide Load, SubBytes, Sbox;
    t := new byte[16](i requires 0 <= i < 16 reads s => Sbox(s[i]));
    SubIs(s[..], t[..]);
  }

  method ShiftInto(t: array<byte>, s: array<byte>)
    requires s.Length == 16 && t.Length == 16 && s != t
    modifies s
    ensures s[..] == Permuted(t[..])
  {
    hide ShiftFrom, Permuted;
    forall i | 0 <= i < 16 { s[i] := t[ShiftFrom(i)]; }
  }

  method InvShiftSub(s: array<byte>)
    requires s.Length == 16
    modifies s
    ensures Load(s[..]) == Unscramble(old(Load(s[..])))
  {
    hide Load, InvShiftRows, InvSubBytes, RSbox, Permuted;
    ghost var b := s[..];
    var t := Unshift(s);
    ghost var u := t[..];
    UnpermutedIs(b, u);
    forall i | 0 <= i < 16 { s[i] := RSbox(t[i]); }
    assert t[..] == u;
    SubIs(u, s[..]);
  }

  method Unshift(s: array<byte>) returns (t: array<byte>)
    requires s.Length == 16
    ensures fresh(t) && t.Length == 16 && Permuted(t[..]) == s[..]
  {
    hide ShiftFrom, Permuted;
    t := new byte[16];
    ghost var b := s[..];
    var i := 0;
    while i < 16
      invariant 0 <= i <= 16 && s[..] == b
      invariant forall q :: 0 <= q < i ==> t[ShiftFrom(q)] == b[q]
    {
      ShiftFromInjective(i);
      t[ShiftFrom(i)] := s[i];
      i := i + 1;
    }
    assert Permuted(t[..]) == b;
  }

  lemma ShiftFromInjective(i: nat)
    requires i < 16
    ensures forall q :: 0 <= q < i ==> ShiftFrom(q) != ShiftFrom(i)
  {}

  // ---- Columns

  function MixBytes(a: byte, b: byte, c: byte, d: byte): (byte, byte, byte, byte) {
    (Add(Add(Add(Add(Xtime(a), Xtime(b)), b), c), d), Add(Add(Add(Add(a, Xtime(b)), Xtime(c)), c), d),
     Add(Add(Add(Add(a, b), Xtime(c)), Xtime(d)), d), Add(Add(Add(Add(Xtime(a), a), b), c), Xtime(d)))
  }

  lemma MixBytesIs(a: byte, b: byte, c: byte, d: byte)
    ensures var m := MixBytes(a, b, c, d); Word(m.0, m.1, m.2, m.3) == Mix(a, b, c, d)
  {
    hide Xtime, Add, Word;
    var x, y, z, w := Xtime(a), Xtime(b), Xtime(c), Xtime(d);
    AddAssociates(x, y, b); AddAssociates(Add(x, Add(y, b)), c, d);
    AddAssociates(Add(a, y), z, c); AddAssociates(Add(a, y), Add(z, c), d);
    AddAssociates(Add(a, b), z, w); AddAssociates(Add(a, b), Add(z, w), d); AddAssociates(z, w, d);
    AddAssociates(Add(Add(x, a), b), c, w);
  }

  function InvMixBytes(a: byte, b: byte, c: byte, d: byte): (byte, byte, byte, byte) {
    (Add(Add(Add(Gm14(a), Gm11(b)), Gm13(c)), Gm9(d)), Add(Add(Add(Gm9(a), Gm14(b)), Gm11(c)), Gm13(d)),
     Add(Add(Add(Gm13(a), Gm9(b)), Gm14(c)), Gm11(d)), Add(Add(Add(Gm11(a), Gm13(b)), Gm9(c)), Gm14(d)))
  }

  lemma InvMixBytesIs(a: byte, b: byte, c: byte, d: byte)
    ensures var m := InvMixBytes(a, b, c, d); Word(m.0, m.1, m.2, m.3) == InvMix(a, b, c, d)
  {
    hide Gm9, Gm11, Gm13, Gm14, Add, Word;
    AddAssociates(Add(Gm14(a), Gm11(b)), Gm13(c), Gm9(d));
    AddAssociates(Add(Gm9(a), Gm14(b)), Gm11(c), Gm13(d));
    AddAssociates(Add(Gm13(a), Gm9(b)), Gm14(c), Gm11(d));
    AddAssociates(Add(Gm11(a), Gm13(b)), Gm9(c), Gm14(d));
  }

  /** Four bytes written over one column. */
  method PutColumn(s: array<byte>, c: nat, m: (byte, byte, byte, byte))
    requires s.Length == 16 && c < 4
    modifies s
    ensures Column(s[..], c) == Word(m.0, m.1, m.2, m.3)
    ensures forall q :: 0 <= q < 4 && q != c ==> Column(s[..], q) == old(Column(s[..], q))
  {
    hide Word;
    s[4 * c] := m.0;
    s[4 * c + 1] := m.1;
    s[4 * c + 2] := m.2;
    s[4 * c + 3] := m.3;
  }

  lemma ColumnBytes(b: seq<byte>, c: nat)
    requires |b| == 16 && c < 4
    ensures B0(Column(b, c)) == b[4 * c] && B1(Column(b, c)) == b[4 * c + 1]
    ensures B2(Column(b, c)) == b[4 * c + 2] && B3(Column(b, c)) == b[4 * c + 3]
  {
    hide Word, B0, B1, B2, B3;
    BytesOfWord(b[4 * c], b[4 * c + 1], b[4 * c + 2], b[4 * c + 3]);
  }

  method MixAll(s: array<byte>)
    requires s.Length == 16
    modifies s
    ensures Load(s[..]) == MixColumns(old(Load(s[..])))
  {
    hide Load, MixColumn, Column, MixBytes, Word, Mix;
    ghost var b := s[..];
    LoadColumns(b);
    var c := 0;
    while c < 4
      invariant 0 <= c <= 4
      invariant forall q :: 0 <= q < c ==> Column(s[..], q) == MixColumn(Column(b, q))
      invariant forall q :: c <= q < 4 ==> Column(s[..], q) == Column(b, q)
    {
      MixHere(s[..], c);
      PutColumn(s, c, MixBytes(s[4 * c], s[4 * c + 1], s[4 * c + 2], s[4 * c + 3]));
      c := c + 1;
    }
    LoadColumns(s[..]);
  }

  lemma MixHere(b: seq<byte>, c: nat)
    requires |b| == 16 && c < 4
    ensures
      var m := MixBytes(b[4 * c], b[4 * c + 1], b[4 * c + 2], b[4 * c + 3]);
      Word(m.0, m.1, m.2, m.3) == MixColumn(Column(b, c))
    ensures
      var m := InvMixBytes(b[4 * c], b[4 * c + 1], b[4 * c + 2], b[4 * c + 3]);
      Word(m.0, m.1, m.2, m.3) == InvMixColumn(Column(b, c))
  {
    hide Column, Mix, InvMix, MixBytes, InvMixBytes, Word, B0, B1, B2, B3;
    ColumnBytes(b, c);
    MixBytesIs(b[4 * c], b[4 * c + 1], b[4 * c + 2], b[4 * c + 3]);
    InvMixBytesIs(b[4 * c], b[4 * c + 1], b[4 * c + 2], b[4 * c + 3]);
  }

  method InvMixAll(s: array<byte>)
    requires s.Length == 16
    modifies s
    ensures Load(s[..]) == InvMixColumns(old(Load(s[..])))
  {
    hide Load, InvMixColumn, Column, InvMixBytes, Word, InvMix;
    ghost var b := s[..];
    LoadColumns(b);
    var c := 0;
    while c < 4
      invariant 0 <= c <= 4
      invariant forall q :: 0 <= q < c ==> Column(s[..], q) == InvMixColumn(Column(b, q))
      invariant forall q :: c <= q < 4 ==> Column(s[..], q) == Column(b, q)
    {
      MixHere(s[..], c);
      PutColumn(s, c, InvMixBytes(s[4 * c], s[4 * c + 1], s[4 * c + 2], s[4 * c + 3]));
      c := c + 1;
    }
    LoadColumns(s[..]);
  }

  /** The round key is added a byte at a time, from its words. */
  method AddRoundKey(s: array<byte>, rk: array<bv32>, r: nat)
    requires s.Length == 16 && 4 * r + 4 <= rk.Length
    modifies s
    ensures Load(s[..]) == AddKey(old(Load(s[..])), RoundKey(rk[..], r))
  {
    hide Load, AddWord, Column, Add, B0, B1, B2, B3, Word;
    ghost var b := s[..];
    LoadColumns(b);
    var c := 0;
    while c < 4
      invariant 0 <= c <= 4
      invariant forall q :: 0 <= q < c ==> Column(s[..], q) == AddWord(Column(b, q), rk[4 * r + q])
      invariant forall q :: c <= q < 4 ==> Column(s[..], q) == Column(b, q)
    {
      var w := rk[4 * r + c];
      AddHere(s[..], c, w);
      PutColumn(s, c, (Add(s[4 * c], B0(w)), Add(s[4 * c + 1], B1(w)), Add(s[4 * c + 2], B2(w)), Add(s[4 * c + 3], B3(w))));
      c := c + 1;
    }
    LoadColumns(s[..]);
  }

  lemma AddHere(b: seq<byte>, c: nat, w: bv32)
    requires |b| == 16 && c < 4
    ensures Word(Add(b[4 * c], B0(w)), Add(b[4 * c + 1], B1(w)), Add(b[4 * c + 2], B2(w)), Add(b[4 * c + 3], B3(w)))
         == AddWord(Column(b, c), w)
  {
    hide AddWord, Add, Word, B0, B1, B2, B3;
    WordOfAdd(b[4 * c], b[4 * c + 1], b[4 * c + 2], b[4 * c + 3], B0(w), B1(w), B2(w), B3(w));
    WordOfBytes(w);
  }

  // ---- Blocks

  method EncryptBlock(rk: array<bv32>, input: seq<byte>) returns (out: seq<byte>)
    requires rk.Length == 60 && |input| == 16
    ensures out == CipherBlock(rk[..], 14, input)
  {
    hide *;
    var s := new byte[16](i requires 0 <= i < 16 => input[i]);
    assert s[..] == input;
    ghost var x, w := Load(input), rk[..];
    RoundsStep(w, 0, x);
    AddRoundKey(s, rk, 0);
    var r := 1;
    while r < 14
      invariant 1 <= r <= 14 && rk[..] == w
      invariant Load(s[..]) == Rounds(w, r - 1, x)
    {
      RoundsStep(w, r - 1, x);
      SubShift(s);
      MixAll(s);
      AddRoundKey(s, rk, r);
      r := r + 1;
    }
    SubShift(s);
    AddRoundKey(s, rk, 14);
    out := s[..];
    LoadStore(out, x);
    CipherIs(w, 14, input);
  }

  lemma RoundsStep(w: seq<bv32>, n: nat, x: State)
    requires 4 * n + 8 <= |w|
    ensures Rounds(w, 0, x) == AddKey(x, RoundKey(w, 0))
    ensures Rounds(w, n + 1, x) == AddKey(MixColumns(Scramble(Rounds(w, n, x))), RoundKey(w, n + 1))
  {
    hide AddKey, MixColumns, Scramble, RoundKey;
  }

  method DecryptBlock(rk: array<bv32>, input: seq<byte>) returns (out: seq<byte>)
    requires rk.Length == 60 && |input| == 16
    ensures out == InvCipherBlock(rk[..], 14, input)
  {
    hide *;
    var s := new byte[16](i requires 0 <= i < 16 => input[i]);
    assert s[..] == input;
    ghost var x, w := Load(input), rk[..];
    InvRoundsStep(w, 0, x);
    AddRoundKey(s, rk, 14);
    var r := 13;
    while r >= 1
      invariant 0 <= r <= 13 && rk[..] == w
      invariant Load(s[..]) == InvRounds(w, 14, 13 - r, x)
    {
      InvRoundsStep(w, 13 - r, x);
      InvShiftSub(s);
      AddRoundKey(s, rk, r);
      InvMixAll(s);
      r := r - 1;
    }
    InvShiftSub(s);
    AddRoundKey(s, rk, 0);
    out := s[..];
    LoadStore(out, x);
    CipherIs(w, 14, input);
  }

  lemma InvRoundsStep(w: seq<bv32>, n: nat, x: State)
    requires n < 14 && |w| == 60
    ensures InvRounds(w, 14, 0, x) == AddKey(x, RoundKey(w, 14))
    ensures InvRounds(w, 14, n + 1, x) == InvMixColumns(AddKey(Unscramble(InvRounds(w, 14, n, x)), RoundKey(w, 13 - n)))
  {
    hide AddKey, InvMixColumns, Unscramble, RoundKey;
  }
}
