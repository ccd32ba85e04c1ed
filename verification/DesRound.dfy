/** One round of the Feistel cipher: the round key cut from the registers, the expansion and S-boxes, the
    32-bit permutation, and the exchange of the halves. */
module DesRound {
  import opened Bits
  import opened DesTables
  import opened DesKeys

  // ---- Bits of a 32-bit word

  /** Bit `n` of a word, 0 being the lowest. */
  predicate WordBit(w: bv32, n: nat)
    requires n < 32
  {
    Has(if n / 8 == 0 then B3(w) else if n / 8 == 1 then B2(w) else if n / 8 == 2 then B1(w) else B0(w), n % 8)
  }

  function Append(x: byte, bit: bool): byte {
    (x << 1) | (if bit then 1 else 0)
  }

  lemma AppendBits(x: byte, bit: bool, j: nat)
    requires j < 8
    ensures Has(Append(x, bit), j) == if j == 0 then bit else Has(x, j - 1)
  {}

  function LowMask(n: nat): byte {
    if n == 0 then 0 else (LowMask(n - 1) << 1) | 1
  }

  lemma AppendMask(x: byte, bit: bool, n: nat)
    requires x & LowMask(n) == x
    ensures Append(x, bit) & LowMask(n + 1) == Append(x, bit)
  {}

  lemma MaskZero()
    ensures 0 & LowMask(0) == 0
  {}

  lemma SixBits(x: byte)
    requires x & LowMask(6) == x
    ensures x < 64
  {
    assert LowMask(6) == 0x3f;
  }

  // ---- Round keys

  /** Key bit `b`: bits 1 to 28 are in the left register, highest first, and 29 to 56 in the right one. */
  predicate KeyBit(left: bv32, right: bv32, b: nat)
    requires 1 <= b <= 56
  {
    if b < 29 then WordBit(left, 28 - b) else WordBit(right, 56 - b)
  }

  /** The first `n` bits of chunk `i` of the round key. */
  function Chunk(left: bv32, right: bv32, i: nat, n: nat): byte
    requires i < 8 && n <= 6
  {
    if n == 0 then 0 else Append(Chunk(left, right, i, n - 1), KeyBit(left, right, Pc2(i)[n - 1]))
  }

  lemma ChunkZero(left: bv32, right: bv32, i: nat)
    requires i < 8
    ensures Chunk(left, right, i, 0) == 0
  {}

  lemma ChunkNext(left: bv32, right: bv32, i: nat, n: nat)
    requires i < 8 && n < 6
    ensures Chunk(left, right, i, n + 1) == Append(Chunk(left, right, i, n),
      if Pc2(i)[n] < 29 then WordBit(left, 28 - Pc2(i)[n]) else WordBit(right, 56 - Pc2(i)[n]))
  {
    hide Pc2, Append, WordBit;
  }

  lemma {:induction false} ChunkSmall(left: bv32, right: bv32, i: nat, n: nat)
    requires i < 8 && n <= 6
    ensures Chunk(left, right, i, n) & LowMask(n) == Chunk(left, right, i, n)
  {
    hide KeyBit, Pc2, Append, LowMask;
    MaskZero();
    if n > 0 {
      ChunkSmall(left, right, i, n - 1);
      AppendMask(Chunk(left, right, i, n - 1), KeyBit(left, right, Pc2(i)[n - 1]), n - 1);
    }
  }

  /** A round key: eight chunks of six bits. */
  predicate SixBit(k: seq<byte>) {
    |k| == 8 && forall i :: 0 <= i < 8 ==> k[i] < 64
  }

  function RoundKey(left: bv32, right: bv32): (k: seq<byte>)
    ensures SixBit(k)
  {
    assert forall i :: 0 <= i < 8 ==> Chunk(left, right, i, 6) < 64 by {
      forall i | 0 <= i < 8 ensures Chunk(left, right, i, 6) < 64 {
        ChunkSmall(left, right, i, 6);
        SixBits(Chunk(left, right, i, 6));
      }
    }
    seq(8, i requires 0 <= i < 8 => Chunk(left, right, i, 6))
  }

  /** Bit `j` from the top of each six-bit chunk is the key bit the table names. */
  lemma {:induction false} ChunkBit(left: bv32, right: bv32, i: nat, n: nat, j: nat)
    requires i < 8 && j < n <= 6
    ensures Has(Chunk(left, right, i, n), n - 1 - j) == KeyBit(left, right, Pc2(i)[j])
  {
    hide Has, KeyBit, Pc2, Append;
    if j < n - 1 {
      ChunkBit(left, right, i, n - 1, j);
    }
    AppendBits(Chunk(left, right, i, n - 1), KeyBit(left, right, Pc2(i)[n - 1]), n - 1 - j);
  }

  lemma ArrayBit(a: byte, b: byte, c: byte, d: byte, n: nat)
    requires n < 32
    ensures WordBit(Word(d, c, b, a), n) == Has([a, b, c, d][n / 8], n % 8)
  {
    hide Has, Word, B0, B1, B2, B3;
    BytesOfWord(d, c, b, a);
  }

  method MakeK(left: array<byte>, right: array<byte>, K: array<byte>)
    requires left.Length >= 4 && right.Length >= 4 && K.Length == 8 && K != left && K != right
    modifies K
    ensures K[..] == RoundKey(Register(left), Register(right))
  {
    hide Chunk, Register, RoundKey, Pc2;
    ghost var l, r := Register(left), Register(right);
    var i := 0;
    while i < 8
      invariant 0 <= i <= 8 && Register(left) == l && Register(right) == r
      invariant forall q :: 0 <= q < i ==> K[q] == Chunk(l, r, q, 6)
    {
      K[i] := MakeChunk(left, right, i);
      i := i + 1;
    }
    ChunksAreKey(K[..], l, r);
  }

  lemma ChunksAreKey(k: seq<byte>, left: bv32, right: bv32)
    requires |k| == 8 && forall q :: 0 <= q < 8 ==> k[q] == Chunk(left, right, q, 6)
    ensures k == RoundKey(left, right)
  {
    hide Chunk;
  }

  method RegisterBit(key: array<byte>, bit: nat) returns (on: bool)
    requires key.Length >= 4 && bit < 32
    ensures on == WordBit(Register(key), bit)
  {
    hide Has, WordBit, Word;
    ArrayBit(key[0], key[1], key[2], key[3], bit);
    on := Has(key[bit / 8], bit % 8);
  }

  /** The inner loop: six bits of the registers, each read as a byte and a mask. */
  method MakeChunk(left: array<byte>, right: array<byte>, i: nat) returns (val: byte)
    requires left.Length >= 4 && right.Length >= 4 && i < 8
    ensures val == Chunk(Register(left), Register(right), i, 6)
  {
    hide *;
    ghost var l, r := Register(left), Register(right);
    val := 0;
    ChunkZero(l, r, i);
    var j := 0;
    while j < 6
      invariant 0 <= j <= 6
      invariant val == Chunk(l, r, i, j)
    {
      ChunkNext(l, r, i, j);
      var bit := Pc2(i)[j];
      var on;
      if bit < 29 {
        on := RegisterBit(left, 28 - bit);
      } else {
        on := RegisterBit(right, 56 - bit);
      }
      val := Append(val, on);
      j := j + 1;
    }
  }

  // ---- Expansion and S-boxes

  /** The first `n` bits of chunk `i` of the expanded half block. */
  function Expanded(half: bv32, i: nat, n: nat): byte
    requires i < 8 && n <= 6
  {
    if n == 0 then 0 else Append(Expanded(half, i, n - 1), WordBit(half, 32 - Expansion(i)[n - 1]))
  }

  lemma ExpandedZero(half: bv32, i: nat)
    requires i < 8
    ensures Expanded(half, i, 0) == 0
  {}

  lemma ExpandedNext(half: bv32, i: nat, n: nat)
    requires i < 8 && n < 6
    ensures Expanded(half, i, n + 1) == Append(Expanded(half, i, n), WordBit(half, 32 - Expansion(i)[n]))
  {
    hide Expansion, Append, WordBit;
  }

  lemma {:induction false} ExpandedSmall(half: bv32, i: nat, n: nat)
    requires i < 8 && n <= 6
    ensures Expanded(half, i, n) & LowMask(n) == Expanded(half, i, n)
  {
    hide WordBit, Expansion, Append, LowMask;
    MaskZero();
    if n > 0 {
      ExpandedSmall(half, i, n - 1);
      AppendMask(Expanded(half, i, n - 1), WordBit(half, 32 - Expansion(i)[n - 1]), n - 1);
    }
  }

  /** The S-box entry of chunk `i`: both halves of a packed byte serve, the low one for the first four chunks. */
  function Nibble(half: bv32, k: byte, i: nat): byte
    requires i < 8 && k < 64
  {
    ExpandedSmall(half, i, 6);
    SixBits(Expanded(half, i, 6));
    SmallXor(Expanded(half, i, 6), k);
    Select(i, Expanded(half, i, 6) ^ k)
  }

  function Select(i: nat, six: byte): byte
    requires i < 8 && six < 64
  {
    var val := Box(i % 4, six);
    (if i > 3 then val >> 4 else val) & 0x0f
  }

  lemma SmallXor(x: byte, k: byte)
    requires x < 64 && k < 64
    ensures x ^ k < 64
  {}

  /** The S-box output: byte `m` holds chunk `2m` high and chunk `2m + 1` low. */
  function CoreByte(half: bv32, k: seq<byte>, m: nat): byte
    requires SixBit(k) && m < 4
  {
    (Nibble(half, k[2 * m], 2 * m) << 4) | Nibble(half, k[2 * m + 1], 2 * m + 1)
  }

  function Core(half: bv32, k: seq<byte>): bv32
    requires SixBit(k)
  {
    Word(CoreByte(half, k, 0), CoreByte(half, k, 1), CoreByte(half, k, 2), CoreByte(half, k, 3))
  }

  method HalfBit(data: array<byte>, bit: nat) returns (on: bool)
    requires data.Length == 4 && bit < 32
    ensures on == WordBit(Word(data[0], data[1], data[2], data[3]), bit)
  {
    hide *;
    ArrayBit(data[3], data[2], data[1], data[0], bit);
    on := Has(data[3 - bit / 8], bit % 8);
  }

  /** The inner loop: six bits of the half block, in big-endian order. */
  method ExpandChunk(data: array<byte>, i: nat) returns (val: byte)
    requires data.Length == 4 && i < 8
    ensures val == Expanded(Word(data[0], data[1], data[2], data[3]), i, 6)
  {
    hide *;
    ghost var half := Word(data[0], data[1], data[2], data[3]);
    val := 0;
    ExpandedZero(half, i);
    var j := 0;
    while j < 6
      invariant 0 <= j <= 6
      invariant val == Expanded(half, i, j)
    {
      ExpandedNext(half, i, j);
      var on := HalfBit(data, 32 - Expansion(i)[j]);
      val := Append(val, on);
      j := j + 1;
    }
  }

  /** What of the result has been filled in after `i` chunks. */
  ghost predicate Filled(result: seq<byte>, half: bv32, k: seq<byte>, i: nat)
    requires |result| == 4 && SixBit(k) && i <= 8
  {
    forall m :: 0 <= m < 4 ==>
      result[m] == if 2 * m + 1 < i then CoreByte(half, k, m) else if 2 * m < i then Nibble(half, k[2 * m], 2 * m) << 4 else 0
  }

  method DesCore(data: array<byte>, K: array<byte>, result: array<byte>)
    requires data.Length == 4 && K.Length == 8 && result.Length == 4 && result != data && result != K
    requires SixBit(K[..])
    modifies result
    ensures Word(result[0], result[1], result[2], result[3]) == Core(Word(data[0], data[1], data[2], data[3]), K[..])
  {
    hide Word, Nibble, Expanded, Filled;
    ghost var half := Word(data[0], data[1], data[2], data[3]);
    ghost var k := K[..];
    forall m | 0 <= m < 4 { result[m] := 0; }
    FilledNone(result[..], half, k);
    var i := 0;
    while i < 8
      invariant 0 <= i <= 8 && K[..] == k && half == Word(data[0], data[1], data[2], data[3])
      invariant Filled(result[..], half, k, i)
    {
      var val := ExpandChunk(data, i);
      val := Substitute(val, K[i], i, half);
      PutNibble(result, i, val, half, k);
      i := i + 1;
    }
    FilledUp(result[..], half, k);
  }

  lemma FilledNone(result: seq<byte>, half: bv32, k: seq<byte>)
    requires |result| == 4 && SixBit(k) && forall m :: 0 <= m < 4 ==> result[m] == 0
    ensures Filled(result, half, k, 0)
  {}

  method PutNibble(result: array<byte>, i: nat, val: byte, ghost half: bv32, ghost k: seq<byte>)
    requires result.Length == 4 && i < 8 && SixBit(k) && Filled(result[..], half, k, i) && val == Nibble(half, k[i], i)
    modifies result
    ensures Filled(result[..], half, k, i + 1)
  {
    hide *;
    FillOne(result[..], half, k, i);
    ghost var before := result[..];
    result[i / 2] := Merge(result[i / 2], val, i % 2 == 1);
    assert result[..] == before[i / 2 := Merge(before[i / 2], val, i % 2 == 1)];
  }

  lemma FilledUp(result: seq<byte>, half: bv32, k: seq<byte>)
    requires |result| == 4 && SixBit(k) && Filled(result, half, k, 8)
    ensures Word(result[0], result[1], result[2], result[3]) == Core(half, k)
  {
    hide Word, CoreByte;
  }

  method Substitute(chunk: byte, k: byte, i: nat, ghost half: bv32) returns (val: byte)
    requires i < 8 && k < 64 && chunk == Expanded(half, i, 6)
    ensures val == Nibble(half, k, i)
  {
    hide Expanded, LowMask;
    ExpandedSmall(half, i, 6);
    SixBits(Expanded(half, i, 6));
    SmallXor(Expanded(half, i, 6), k);
    val := chunk ^ k;
    val := LookUp(val, i);
  }

  method LookUp(six: byte, i: nat) returns (val: byte)
    requires i < 8 && six < 64
    ensures val == Select(i, six)
  {
    hide Box;
    val := Box(i % 4, six);
    if i > 3 { val := val >> 4; }
    val := val & 0x0f;
  }

  /** A nibble put into the low or the high half of a byte. */
  function Merge(b: byte, val: byte, low: bool): byte {
    b | (if low then val else val << 4)
  }

  lemma FillOne(result: seq<byte>, half: bv32, k: seq<byte>, i: nat)
    requires |result| == 4 && SixBit(k) && i < 8
    requires Filled(result, half, k, i)
    ensures Filled(result[i / 2 := Merge(result[i / 2], Nibble(half, k[i], i), i % 2 == 1)], half, k, i + 1)
  {
    hide Nibble;
    var val := Nibble(half, k[i], i);
    OrZero(val << 4);
    if i % 2 == 1 { assert 2 * (i / 2) + 1 == i; } else { assert 2 * (i / 2) == i; }
  }

  lemma OrZero(x: byte)
    ensures 0 | x == x
  {}

  // ---- The 32-bit permutation

  function Append32(x: bv32, bit: bool): bv32 {
    (x << 1) | (if bit then 1 else 0)
  }

  /** The first `n` bits of the permuted word. */
  function Permute(w: bv32, n: nat): bv32
    requires n <= 32
  {
    if n == 0 then 0 else Append32(Permute(w, n - 1), WordBit(w, 32 - Permuted(n - 1)))
  }

  function LowMask32(n: nat): bv32 {
    if n == 0 then 0 else (LowMask32(n - 1) << 1) | 1
  }

  predicate AgreeLow(x: bv32, y: bv32, n: nat) {
    x & LowMask32(n) == y & LowMask32(n)
  }

  lemma AppendAgrees(x: bv32, y: bv32, bit: bool, n: nat)
    requires AgreeLow(x, y, n)
    ensures AgreeLow(Append32(x, bit), Append32(y, bit), n + 1)
  {}

  lemma AgreeNone(x: bv32, y: bv32)
    ensures AgreeLow(x, y, 0)
  {}

  lemma MaskEight(n: nat)
    ensures LowMask32(n + 8) == (LowMask32(n) << 8) | 0xff
  {
    hide *;
    MaskTwo(n); MaskTwo(n + 2); MaskTwo(n + 4); MaskTwo(n + 6);
  }

  lemma MaskTwo(n: nat)
    ensures LowMask32(n + 2) == (LowMask32(n) << 2) | 3
  {}

  lemma MaskZero32()
    ensures LowMask32(0) == 0
  {}

  lemma AgreeAllLow(x: bv32, y: bv32)
    requires AgreeLow(x, y, 32)
    ensures x == y
  {
    hide LowMask32;
    MaskZero32(); MaskEight(0); MaskEight(8); MaskEight(16); MaskEight(24);
  }

  /** A byte shifted left by one, taking the high bit of the next byte in below. */
  function ShiftUp(a: byte, next: byte): byte {
    (a << 1) | (if next & 0x80 != 0 then 1 else 0)
  }

  lemma ShiftWord(a: byte, b: byte, c: byte, d: byte)
    ensures Append32(Word(a, b, c, d), false) == Word(ShiftUp(a, b), ShiftUp(b, c), ShiftUp(c, d), d << 1)
    ensures Append32(Word(a, b, c, d), true) == Word(ShiftUp(a, b), ShiftUp(b, c), ShiftUp(c, d), (d << 1) | 1)
  {}

  /** The result buffer is not initialised: thirty-two shifts push its first contents out. */
  method Permut32(data: array<byte>)
    requires data.Length == 4
    modifies data
    ensures Word(data[0], data[1], data[2], data[3]) == Permute(old(Word(data[0], data[1], data[2], data[3])), 32)
  {
    hide Word, WordBit, Permuted, AgreeLow, Append32;
    ghost var w := Word(data[0], data[1], data[2], data[3]);
    var r := new byte[4];
    AgreeNone(Word(r[0], r[1], r[2], r[3]), Permute(w, 0));
    var i := 0;
    while i < 32
      invariant 0 <= i <= 32 && w == Word(data[0], data[1], data[2], data[3])
      invariant AgreeLow(Word(r[0], r[1], r[2], r[3]), Permute(w, i), i)
    {
      var on := HalfBit(data, 32 - Permuted(i));
      AppendAgrees(Word(r[0], r[1], r[2], r[3]), Permute(w, i), on, i);
      ShiftBuffer(r, on);
      i := i + 1;
    }
    AgreeAllLow(Word(r[0], r[1], r[2], r[3]), Permute(w, 32));
    forall m | 0 <= m < 4 { data[m] := r[m]; }
  }

  /** The inner loop: the whole buffer moves left by one bit, and a bit comes in below. */
  method ShiftBuffer(r: array<byte>, on: bool)
    requires r.Length == 4
    modifies r
    ensures Word(r[0], r[1], r[2], r[3]) == Append32(old(Word(r[0], r[1], r[2], r[3])), on)
  {
    hide *;
    ShiftWord(r[0], r[1], r[2], r[3]);
    ghost var before := r[..];
    var j := 0;
    while j < 3
      invariant 0 <= j <= 3
      invariant forall q :: 0 <= q < j ==> r[q] == ShiftUp(before[q], before[q + 1])
      invariant forall q :: j <= q < 4 ==> r[q] == before[q]
    {
      r[j] := ShiftUp(r[j], r[j + 1]);
      j := j + 1;
    }
    assert r[0] == ShiftUp(before[0], before[1]) && r[1] == ShiftUp(before[1], before[2]);
    assert r[2] == ShiftUp(before[2], before[3]);
    ShiftLast(r, on);
  }

  method ShiftLast(r: array<byte>, on: bool)
    requires r.Length == 4
    modifies r
    ensures r[3] == if on then (old(r[3]) << 1) | 1 else old(r[3]) << 1
    ensures r[0] == old(r[0]) && r[1] == old(r[1]) && r[2] == old(r[2])
  {
    r[3] := r[3] << 1;
    if on { r[3] := r[3] | 1; }
  }

  // ---- The round

  /** The Viaccess twist of the first byte; the sums stay below 2^16. */
  function Twist(k8: byte, b: byte): byte {
    var temp: bv16 := (k8 as bv16) * (b as bv16) + (k8 as bv16) + (b as bv16);
    var t := ((temp & 0xff) - (temp >> 8)) & 0xff;
    (t as bv8) + (if temp & 0xff < temp >> 8 then 1 else 0)
  }

  lemma NoTwist(b: byte)
    ensures Twist(0, b) == b
  {}

  /** The round function: what is xored into one half, from the other half and the key. */
  function F(left: bv32, right: bv32, half: bv32, k8: byte, hash: bool): bv32 {
    var twisted := Word(Twist(k8, B0(half)), B1(half), B2(half), B3(half));
    var r := Permute(Core(twisted, RoundKey(left, right)), 32);
    if hash then Word(B1(r), B0(r), B2(r), B3(r)) else r
  }

  /** The two halves of a block of eight bytes. */
  datatype Halves = Halves(l: bv32, r: bv32)

  function ToHalves(data: seq<byte>): Halves
    requires |data| == 8
  {
    Halves(Word(data[0], data[1], data[2], data[3]), Word(data[4], data[5], data[6], data[7]))
  }

  function FromHalves(h: Halves): (data: seq<byte>)
    ensures |data| == 8
  {
    Bytes(h.l) + Bytes(h.r)
  }

  lemma HalvesRoundTrip(data: seq<byte>, h: Halves)
    requires |data| == 8
    ensures FromHalves(ToHalves(data)) == data
    ensures ToHalves(FromHalves(h)) == h
  {
    hide Word, B0, B1, B2, B3;
    BytesOfWord(data[0], data[1], data[2], data[3]);
    BytesOfWord(data[4], data[5], data[6], data[7]);
    WordOfBytes(h.l);
    WordOfBytes(h.r);
  }

  function Round(left: bv32, right: bv32, h: Halves, k8: byte, hash: bool): Halves {
    Halves(h.r, h.l ^ F(left, right, h.r, k8, hash))
  }
}
