/** The key registers of the Feistel cipher: 28-bit registers rotated in place, and the order in which the
    two directions of the cipher visit their rotations. */
module DesKeys {
  import opened Bits

  const LEFT_MASK: bv16 := 0xc081
  const RIGHT_MASK: bv16 := 0x8103

  // ---- One register, as a number of 28 bits

  /** A register value of 28 bits. */
  predicate Fits(x: bv32) {
    x < 0x1000_0000
  }

  /** One right rotation of a 28-bit register. */
  function RotR(x: bv32): bv32 {
    (x >> 1) | ((x & 1) << 27)
  }

  lemma RotRFits(x: bv32)
    requires Fits(x)
    ensures Fits(RotR(x))
  {}

  /** One left rotation of a 28-bit register. */
  function RotL(x: bv32): bv32 {
    ((x << 1) & 0x0fff_ffff) | (x >> 27)
  }

  function RotN(x: bv32, n: nat): bv32 {
    if n == 0 then x else RotR(RotN(x, n - 1))
  }

  lemma {:induction false} RotFits(x: bv32, n: nat)
    requires Fits(x)
    ensures Fits(RotN(x, n))
  {
    if n > 0 {
      RotFits(x, n - 1);
      RotRFits(RotN(x, n - 1));
    }
  }

  lemma {:induction false} RotAdd(x: bv32, m: nat, n: nat)
    ensures RotN(RotN(x, m), n) == RotN(x, m + n)
  {
    if n > 0 {
      RotAdd(x, m, n - 1);
    }
  }

  lemma RotFour(x: bv32)
    requires Fits(x)
    ensures RotN(x, 4) == FourRight(x)
  {
    hide RotR, Fits;
    assert RotN(x, 0) == x;
    assert RotN(x, 1) == RotR(x);
    assert RotN(x, 2) == RotR(RotR(x));
    assert RotN(x, 3) == RotR(RotR(RotR(x)));
    FourSteps(x);
  }

  lemma FourSteps(x: bv32)
    requires Fits(x)
    ensures RotR(RotR(RotR(RotR(x)))) == FourRight(x)
  {}

  function FourRight(x: bv32): bv32 { (x >> 4) | ((x & 15) << 24) }

  lemma FourRightFull(x: bv32)
    requires Fits(x)
    ensures FourRight(FourRight(FourRight(FourRight(FourRight(FourRight(FourRight(x))))))) == x
  {}

  lemma RotFourMore(x: bv32, n: nat)
    requires Fits(x)
    ensures RotN(x, n + 4) == FourRight(RotN(x, n))
  {
    hide *;
    RotFits(x, n);
    RotFour(RotN(x, n));
    RotAdd(x, n, 4);
  }

  lemma RotZero(x: bv32)
    ensures RotN(x, 0) == x
  {}

  /** Twenty-eight right rotations bring a register back. */
  lemma RotFull(x: bv32)
    requires Fits(x)
    ensures RotN(x, 28) == x
  {
    hide *;
    RotZero(x);
    RotFourMore(x, 0); RotFourMore(x, 4); RotFourMore(x, 8); RotFourMore(x, 12);
    RotFourMore(x, 16); RotFourMore(x, 20); RotFourMore(x, 24);
    FourRightFull(x);
  }

  lemma {:induction false} RotPeriod(x: bv32, k: nat, n: nat)
    requires Fits(x)
    ensures RotN(x, 28 * k + n) == RotN(x, n)
  {
    if k > 0 {
      RotPeriod(x, k - 1, n);
      RotFull(x);
      RotAdd(x, 28, 28 * (k - 1) + n);
    }
  }

  lemma RotRL(x: bv32)
    requires Fits(x)
    ensures RotR(RotL(x)) == x && RotL(RotR(x)) == x && Fits(RotL(x))
  {}

  /** Twenty-seven right rotations are one left rotation. */
  lemma LeftIsRight27(x: bv32)
    requires Fits(x)
    ensures RotN(x, 27) == RotL(x)
  {
    RotFull(x);
    assert RotR(RotN(x, 27)) == x;
    RotFits(x, 27);
    RotRL(RotN(x, 27));
  }

  // ---- The same rotations on the four bytes the program keeps, lowest byte first

  function Register(key: array<byte>): bv32
    requires key.Length >= 4
    reads key
  {
    Word(key[3], key[2], key[1], key[0])
  }

  /** A byte shifted right by one, taking the low bit of the next byte in at the top. */
  function ShiftIn(a: byte, next: byte): byte {
    (a >> 1) | (if next & 1 != 0 then 0x80 else 0)
  }

  lemma RotBytes(a: byte, b: byte, c: byte, d: byte)
    requires Fits(Word(d, c, b, a))
    ensures RotR(Word(d, c, b, a)) ==
      Word((d >> 1) | (if a & 1 != 0 then 0x08 else 0), ShiftIn(c, d), ShiftIn(b, c), ShiftIn(a, b))
  {}

  method RightRot(key: array<byte>)
    requires key.Length >= 4 && Fits(Register(key))
    modifies key
    ensures Register(key) == RotR(old(Register(key))) && Fits(Register(key))
  {
    hide RotR, Word, ShiftIn, Fits;
    ghost var k := key[..4];
    RotBytes(k[0], k[1], k[2], k[3]);
    RotRFits(Register(key));
    var p := 0;
    var i := 3;
    var carry: byte := 0;
    if key[p] & 1 != 0 { carry := 0x08; }
    while i > 0
      invariant 0 <= i <= 3 && p == 3 - i
      invariant forall q :: 0 <= q < p ==> key[q] == ShiftIn(k[q], k[q + 1])
      invariant forall q :: p <= q < 4 ==> key[q] == k[q]
    {
      key[p] := ShiftIn(key[p], key[p + 1]);
      p := p + 1;
      i := i - 1;
    }
    key[p] := (key[p] >> 1) | carry;
  }

  method LeftRot(key: array<byte>)
    requires key.Length >= 4 && Fits(Register(key))
    modifies key
    ensures Register(key) == RotL(old(Register(key))) && Fits(Register(key))
  {
    var i := 27;
    while i > 0
      invariant 0 <= i <= 27 && Fits(Register(key))
      invariant Register(key) == RotN(old(Register(key)), 27 - i)
    {
      RightRot(key);
      i := i - 1;
    }
    LeftIsRight27(old(Register(key)));
  }

  method RightRotKeys(left: array<byte>, right: array<byte>)
    requires left != right && left.Length >= 4 && right.Length >= 4
    requires Fits(Register(left)) && Fits(Register(right))
    modifies left, right
    ensures Register(left) == RotR(old(Register(left))) && Fits(Register(left))
    ensures Register(right) == RotR(old(Register(right))) && Fits(Register(right))
  {
    RightRot(left);
    RightRot(right);
  }

  method LeftRotKeys(left: array<byte>, right: array<byte>)
    requires left != right && left.Length >= 4 && right.Length >= 4
    requires Fits(Register(left)) && Fits(Register(right))
    modifies left, right
    ensures Register(left) == RotL(old(Register(left))) && Fits(Register(left))
    ensures Register(right) == RotL(old(Register(right))) && Fits(Register(right))
  {
    LeftRot(left);
    LeftRot(right);
  }

  // ---- The two shift masks

  /** The mask after `i` left shifts. */
  function Shifted(mask: bv16, i: nat): bv16 {
    if i == 0 then mask else Shifted(mask, i - 1) << 1
  }

  /** How far the registers move in round `i`: once when the top bit of the mask is set, else twice. */
  function Step(mask: bv16, i: nat): (n: nat)
    ensures n == 1 || n == 2
  {
    if Shifted(mask, i) & 0x8000 != 0 then 1 else 2
  }

  /** The sum of the first `i` moves. */
  function Total(mask: bv16, i: nat): nat {
    if i == 0 then 0 else Total(mask, i - 1) + Step(mask, i - 1)
  }

  /** Both masks last exactly sixteen rounds. */
  lemma SixteenRounds(mask: bv16, i: nat)
    requires mask == LEFT_MASK || mask == RIGHT_MASK
    ensures i < 16 ==> Shifted(mask, i) != 0
    ensures i >= 16 ==> Shifted(mask, i) == 0
  {
    if i <= 16 {
      LeftTable();
      RightTable();
    } else {
      SixteenRounds(mask, i - 1);
    }
  }

  lemma LeftTable()
    ensures Shifted(LEFT_MASK, 0) == 0xc081 && Shifted(LEFT_MASK, 1) == 0x8102 && Shifted(LEFT_MASK, 2) == 0x0204 && Shifted(LEFT_MASK, 3) == 0x0408
    ensures Shifted(LEFT_MASK, 4) == 0x0810 && Shifted(LEFT_MASK, 5) == 0x1020 && Shifted(LEFT_MASK, 6) == 0x2040 && Shifted(LEFT_MASK, 7) == 0x4080
    ensures Shifted(LEFT_MASK, 8) == 0x8100 && Shifted(LEFT_MASK, 9) == 0x0200 && Shifted(LEFT_MASK, 10) == 0x0400 && Shifted(LEFT_MASK, 11) == 0x0800
    ensures Shifted(LEFT_MASK, 12) == 0x1000 && Shifted(LEFT_MASK, 13) == 0x2000 && Shifted(LEFT_MASK, 14) == 0x4000 && Shifted(LEFT_MASK, 15) == 0x8000
    ensures Shifted(LEFT_MASK, 16) == 0x0000
  {}

  lemma RightTable()
    ensures Shifted(RIGHT_MASK, 0) == 0x8103 && Shifted(RIGHT_MASK, 1) == 0x0206 && Shifted(RIGHT_MASK, 2) == 0x040c && Shifted(RIGHT_MASK, 3) == 0x0818
    ensures Shifted(RIGHT_MASK, 4) == 0x1030 && Shifted(RIGHT_MASK, 5) == 0x2060 && Shifted(RIGHT_MASK, 6) == 0x40c0 && Shifted(RIGHT_MASK, 7) == 0x8180
    ensures Shifted(RIGHT_MASK, 8) == 0x0300 && Shifted(RIGHT_MASK, 9) == 0x0600 && Shifted(RIGHT_MASK, 10) == 0x0c00 && Shifted(RIGHT_MASK, 11) == 0x1800
    ensures Shifted(RIGHT_MASK, 12) == 0x3000 && Shifted(RIGHT_MASK, 13) == 0x6000 && Shifted(RIGHT_MASK, 14) == 0xc000 && Shifted(RIGHT_MASK, 15) == 0x8000
    ensures Shifted(RIGHT_MASK, 16) == 0x0000
  {}

  lemma Steps(i: nat)
    requires i < 16
    ensures Step(LEFT_MASK, i) == (if i == 0 || i == 1 || i == 8 || i == 15 then 1 else 2)
    ensures Step(RIGHT_MASK, i) == (if i == 0 || i == 7 || i == 14 || i == 15 then 1 else 2)
  {
    LeftTable();
    RightTable();
  }

  lemma {:induction false} TotalSixteen(i: nat)
    requires i <= 16
    ensures Total(LEFT_MASK, i) == 2 * i - (if i == 0 then 0 else if i == 1 then 1 else if i <= 8 then 2 else if i <= 15 then 3 else 4)
    ensures Total(RIGHT_MASK, i) == 2 * i - (if i == 0 then 0 else if i <= 7 then 1 else if i <= 14 then 2 else if i == 15 then 3 else 4)
    ensures i == 16 ==> Total(LEFT_MASK, i) == Total(RIGHT_MASK, i) == 28
  {
    if i > 0 {
      TotalSixteen(i - 1);
      Steps(i - 1);
    }
  }

  /** The rounds of one direction see the register positions of the other in the opposite order: what round
      `i` of the left schedule has turned, and what is still to be turned before it on the right, sum to 28. */
  lemma {:induction false} Mirrored(i: nat)
    requires i < 16
    ensures Total(LEFT_MASK, i + 1) + Total(RIGHT_MASK, 15 - i) == 28
    decreases 15 - i
  {
    if i == 15 {
      TotalSixteen(16);
    } else {
      Mirrored(i + 1);
      Steps(i + 1);
      Steps(14 - i);
    }
  }
}
