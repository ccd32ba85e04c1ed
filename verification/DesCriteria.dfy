/** What the tables of the round function were made for: the criteria of their designers for the S-boxes and the 32-bit
    permutation (D. Coppersmith, The Data Encryption Standard and its strength against attacks, 1994), and what the
    expansion and the choice of key bits promise. */
module DesCriteria {
  import opened Bits
  import opened Lookup
  import opened Rings
  import opened DesTables
  import opened DesRound

  // ---- The S-boxes

  /** How many of the low four bits are set. */
  function Weight(v: byte): byte {
    (v & 1) + ((v >> 1) & 1) + ((v >> 2) & 1) + ((v >> 3) & 1)
  }

  /** Both nibbles have two bits at least. */
  predicate Two(v: byte) {
    Weight(v) >= 2 && Weight(v >> 4) >= 2
  }

  /** Neither nibble is zero. */
  predicate Apart(v: byte) {
    v & 0x0f != 0 && v & 0xf0 != 0
  }

  /** The differences after which two bits of the output change: one bit, and the two middle ones. */
  const Steep: set<byte> := {0x01, 0x02, 0x04, 0x08, 0x10, 0x20, 0x0c}

  /** The differences after which the output changes: within a row, and in the two outer bits with or without those in the
      middle. */
  const Visible: set<byte> := {0x02, 0x04, 0x06, 0x08, 0x0a, 0x0c, 0x0e, 0x10, 0x12, 0x14, 0x16, 0x18, 0x1a, 0x1c, 0x1e,
    0x30, 0x34, 0x38, 0x3c}

  /** How the entry of a double box changes when its input does. */
  function Change(k: nat, x: byte, d: byte): byte
    requires k < 4
  {
    Box(k, x) ^ Box(k, x ^ d)
  }

  /** Every entry of every double box meets the criteria. */
  lemma BoxMeets(k: nat, x: byte, d: byte)
    requires k < 4 && x < 0x40
    ensures d in Steep ==> Two(Change(k, x, d))
    ensures d in Visible ==> Apart(Change(k, x, d))
  {
    hide *;
    if k == 0 { Box0Meets(x, d); } else if k == 1 { Box1Meets(x, d); } else if k == 2 { Box2Meets(x, d); } else { Box3Meets(x, d); }
  }

  lemma Box0Meets(x: byte, d: byte)
    requires x < 0x40
    ensures d in Steep ==> Two(Change(0, x, d))
    ensures d in Visible ==> Apart(Change(0, x, d))
  {
    hide Two, Apart, Box0, Steep, Visible;
    if d in Steep {
      if x < 0x20 { Box0SteepLow(x, d); } else { Box0SteepHigh(x, d); }
    }
    if d in Visible {
      if x < 0x20 { Box0VisibleLow(x, d); } else { Box0VisibleHigh(x, d); }
    }
  }

  lemma Box1Meets(x: byte, d: byte)
    requires x < 0x40
    ensures d in Steep ==> Two(Change(1, x, d))
    ensures d in Visible ==> Apart(Change(1, x, d))
  {
    hide Two, Apart, Box1, Steep, Visible;
    if d in Steep {
      if x < 0x20 { Box1SteepLow(x, d); } else { Box1SteepHigh(x, d); }
    }
    if d in Visible {
      if x < 0x20 { Box1VisibleLow(x, d); } else { Box1VisibleHigh(x, d); }
    }
  }

  lemma Box2Meets(x: byte, d: byte)
    requires x < 0x40
    ensures d in Steep ==> Two(Change(2, x, d))
    ensures d in Visible ==> Apart(Change(2, x, d))
  {
    hide Two, Apart, Box2, Steep, Visible;
    if d in Steep {
      if x < 0x20 { Box2SteepLow(x, d); } else { Box2SteepHigh(x, d); }
    }
    if d in Visible {
      if x < 0x20 { Box2VisibleLow(x, d); } else { Box2VisibleHigh(x, d); }
    }
  }

  lemma Box3Meets(x: byte, d: byte)
    requires x < 0x40
    ensures d in Steep ==> Two(Change(3, x, d))
    ensures d in Visible ==> Apart(Change(3, x, d))
  {
    hide Two, Apart, Box3, Steep, Visible;
    if d in Steep {
      if x < 0x20 { Box3SteepLow(x, d); } else { Box3SteepHigh(x, d); }
    }
    if d in Visible {
      if x < 0x20 { Box3VisibleLow(x, d); } else { Box3VisibleHigh(x, d); }
    }
  }

  lemma Box0SteepLow(x: byte, d: byte)
    requires x < 0x20 && d in Steep
    ensures Two(Box0(x) ^ Box0(x ^ d))
  {
    assert x in {
      0x00, 0x01, 0x02, 0x03, 0x04, 0x05, 0x06, 0x07, 0x08, 0x09, 0x0a, 0x0b, 0x0c, 0x0d, 0x0e, 0x0f,
      0x10, 0x11, 0x12, 0x13, 0x14, 0x15, 0x16, 0x17, 0x18, 0x19, 0x1a, 0x1b, 0x1c, 0x1d, 0x1e, 0x1f};
  }

  lemma Box0SteepHigh(x: byte, d: byte)
    requires 0x20 <= x < 0x40 && d in Steep
    ensures Two(Box0(x) ^ Box0(x ^ d))
  {
    assert x in {
      0x20, 0x21, 0x22, 0x23, 0x24, 0x25, 0x26, 0x27, 0x28, 0x29, 0x2a, 0x2b, 0x2c, 0x2d, 0x2e, 0x2f,
      0x30, 0x31, 0x32, 0x33, 0x34, 0x35, 0x36, 0x37, 0x38, 0x39, 0x3a, 0x3b, 0x3c, 0x3d, 0x3e, 0x3f};
  }

  lemma Box0VisibleLow(x: byte, d: byte)
    requires x < 0x20 && d in Visible
    ensures Apart(Box0(x) ^ Box0(x ^ d))
  {
    assert x in {
      0x00, 0x01, 0x02, 0x03, 0x04, 0x05, 0x06, 0x07, 0x08, 0x09, 0x0a, 0x0b, 0x0c, 0x0d, 0x0e, 0x0f,
      0x10, 0x11, 0x12, 0x13, 0x14, 0x15, 0x16, 0x17, 0x18, 0x19, 0x1a, 0x1b, 0x1c, 0x1d, 0x1e, 0x1f};
  }

  lemma Box0VisibleHigh(x: byte, d: byte)
    requires 0x20 <= x < 0x40 && d in Visible
    ensures Apart(Box0(x) ^ Box0(x ^ d))
  {
    assert x in {
      0x20, 0x21, 0x22, 0x23, 0x24, 0x25, 0x26, 0x27, 0x28, 0x29, 0x2a, 0x2b, 0x2c, 0x2d, 0x2e, 0x2f,
      0x30, 0x31, 0x32, 0x33, 0x34, 0x35, 0x36, 0x37, 0x38, 0x39, 0x3a, 0x3b, 0x3c, 0x3d, 0x3e, 0x3f};
  }

  lemma Box1SteepLow(x: byte, d: byte)
    requires x < 0x20 && d in Steep
    ensures Two(Box1(x) ^ Box1(x ^ d))
  {
    assert x in {
      0x00, 0x01, 0x02, 0x03, 0x04, 0x05, 0x06, 0x07, 0x08, 0x09, 0x0a, 0x0b, 0x0c, 0x0d, 0x0e, 0x0f,
      0x10, 0x11, 0x12, 0x13, 0x14, 0x15, 0x16, 0x17, 0x18, 0x19, 0x1a, 0x1b, 0x1c, 0x1d, 0x1e, 0x1f};
  }

  lemma Box1SteepHigh(x: byte, d: byte)
    requires 0x20 <= x < 0x40 && d in Steep
    ensures Two(Box1(x) ^ Box1(x ^ d))
  {
    assert x in {
      0x20, 0x21, 0x22, 0x23, 0x24, 0x25, 0x26, 0x27, 0x28, 0x29, 0x2a, 0x2b, 0x2c, 0x2d, 0x2e, 0x2f,
      0x30, 0x31, 0x32, 0x33, 0x34, 0x35, 0x36, 0x37, 0x38, 0x39, 0x3a, 0x3b, 0x3c, 0x3d, 0x3e, 0x3f};
  }

  lemma Box1VisibleLow(x: byte, d: byte)
    requires x < 0x20 && d in Visible
    ensures Apart(Box1(x) ^ Box1(x ^ d))
  {
    assert x in {
      0x00, 0x01, 0x02, 0x03, 0x04, 0x05, 0x06, 0x07, 0x08, 0x09, 0x0a, 0x0b, 0x0c, 0x0d, 0x0e, 0x0f,
      0x10, 0x11, 0x12, 0x13, 0x14, 0x15, 0x16, 0x17, 0x18, 0x19, 0x1a, 0x1b, 0x1c, 0x1d, 0x1e, 0x1f};
  }

  lemma Box1VisibleHigh(x: byte, d: byte)
    requires 0x20 <= x < 0x40 && d in Visible
    ensures Apart(Box1(x) ^ Box1(x ^ d))
  {
    assert x in {
      0x20, 0x21, 0x22, 0x23, 0x24, 0x25, 0x26, 0x27, 0x28, 0x29, 0x2a, 0x2b, 0x2c, 0x2d, 0x2e, 0x2f,
      0x30, 0x31, 0x32, 0x33, 0x34, 0x35, 0x36, 0x37, 0x38, 0x39, 0x3a, 0x3b, 0x3c, 0x3d, 0x3e, 0x3f};
  }

  lemma Box2SteepLow(x: byte, d: byte)
    requires x < 0x20 && d in Steep
    ensures Two(Box2(x) ^ Box2(x ^ d))
  {
    assert x in {
      0x00, 0x01, 0x02, 0x03, 0x04, 0x05, 0x06, 0x07, 0x08, 0x09, 0x0a, 0x0b, 0x0c, 0x0d, 0x0e, 0x0f,
      0x10, 0x11, 0x12, 0x13, 0x14, 0x15, 0x16, 0x17, 0x18, 0x19, 0x1a, 0x1b, 0x1c, 0x1d, 0x1e, 0x1f};
  }

  lemma Box2SteepHigh(x: byte, d: byte)
    requires 0x20 <= x < 0x40 && d in Steep
    ensures Two(Box2(x) ^ Box2(x ^ d))
  {
    assert x in {
      0x20, 0x21, 0x22, 0x23, 0x24, 0x25, 0x26, 0x27, 0x28, 0x29, 0x2a, 0x2b, 0x2c, 0x2d, 0x2e, 0x2f,
      0x30, 0x31, 0x32, 0x33, 0x34, 0x35, 0x36, 0x37, 0x38, 0x39, 0x3a, 0x3b, 0x3c, 0x3d, 0x3e, 0x3f};
  }

  lemma Box2VisibleLow(x: byte, d: byte)
    requires x < 0x20 && d in Visible
    ensures Apart(Box2(x) ^ Box2(x ^ d))
  {
    assert x in {
      0x00, 0x01, 0x02, 0x03, 0x04, 0x05, 0x06, 0x07, 0x08, 0x09, 0x0a, 0x0b, 0x0c, 0x0d, 0x0e, 0x0f,
      0x10, 0x11, 0x12, 0x13, 0x14, 0x15, 0x16, 0x17, 0x18, 0x19, 0x1a, 0x1b, 0x1c, 0x1d, 0x1e, 0x1f};
  }

  lemma Box2VisibleHigh(x: byte, d: byte)
    requires 0x20 <= x < 0x40 && d in Visible
    ensures Apart(Box2(x) ^ Box2(x ^ d))
  {
    assert x in {
      0x20, 0x21, 0x22, 0x23, 0x24, 0x25, 0x26, 0x27, 0x28, 0x29, 0x2a, 0x2b, 0x2c, 0x2d, 0x2e, 0x2f,
      0x30, 0x31, 0x32, 0x33, 0x34, 0x35, 0x36, 0x37, 0x38, 0x39, 0x3a, 0x3b, 0x3c, 0x3d, 0x3e, 0x3f};
  }

  lemma Box3SteepLow(x: byte, d: byte)
    requires x < 0x20 && d in Steep
    ensures Two(Box3(x) ^ Box3(x ^ d))
  {
    assert x in {
      0x00, 0x01, 0x02, 0x03, 0x04, 0x05, 0x06, 0x07, 0x08, 0x09, 0x0a, 0x0b, 0x0c, 0x0d, 0x0e, 0x0f,
      0x10, 0x11, 0x12, 0x13, 0x14, 0x15, 0x16, 0x17, 0x18, 0x19, 0x1a, 0x1b, 0x1c, 0x1d, 0x1e, 0x1f};
  }

  lemma Box3SteepHigh(x: byte, d: byte)
    requires 0x20 <= x < 0x40 && d in Steep
    ensures Two(Box3(x) ^ Box3(x ^ d))
  {
    assert x in {
      0x20, 0x21, 0x22, 0x23, 0x24, 0x25, 0x26, 0x27, 0x28, 0x29, 0x2a, 0x2b, 0x2c, 0x2d, 0x2e, 0x2f,
      0x30, 0x31, 0x32, 0x33, 0x34, 0x35, 0x36, 0x37, 0x38, 0x39, 0x3a, 0x3b, 0x3c, 0x3d, 0x3e, 0x3f};
  }

  lemma Box3VisibleLow(x: byte, d: byte)
    requires x < 0x20 && d in Visible
    ensures Apart(Box3(x) ^ Box3(x ^ d))
  {
    assert x in {
      0x00, 0x01, 0x02, 0x03, 0x04, 0x05, 0x06, 0x07, 0x08, 0x09, 0x0a, 0x0b, 0x0c, 0x0d, 0x0e, 0x0f,
      0x10, 0x11, 0x12, 0x13, 0x14, 0x15, 0x16, 0x17, 0x18, 0x19, 0x1a, 0x1b, 0x1c, 0x1d, 0x1e, 0x1f};
  }

  lemma Box3VisibleHigh(x: byte, d: byte)
    requires 0x20 <= x < 0x40 && d in Visible
    ensures Apart(Box3(x) ^ Box3(x ^ d))
  {
    assert x in {
      0x20, 0x21, 0x22, 0x23, 0x24, 0x25, 0x26, 0x27, 0x28, 0x29, 0x2a, 0x2b, 0x2c, 0x2d, 0x2e, 0x2f,
      0x30, 0x31, 0x32, 0x33, 0x34, 0x35, 0x36, 0x37, 0x38, 0x39, 0x3a, 0x3b, 0x3c, 0x3d, 0x3e, 0x3f};
  }

  lemma SelectIs(i: nat, x: byte, y: byte)
    requires i < 8 && x < 64 && y < 64
    ensures var d := Change(i % 4, x, x ^ y); Select(i, x) ^ Select(i, y) == (if i > 3 then d >> 4 else d) & 0x0f
    ensures Select(i, x) < 16
  {
    hide Box;
    XorBack(x, y);
    Nibbles(Box(i % 4, x), Box(i % 4, y));
  }

  lemma Nibbles(v: byte, w: byte)
    ensures (v & 0x0f) ^ (w & 0x0f) == (v ^ w) & 0x0f && ((v >> 4) & 0x0f) ^ ((w >> 4) & 0x0f) == ((v ^ w) >> 4) & 0x0f
    ensures v & 0x0f < 16 && (v >> 4) & 0x0f < 16
  {
  }

  lemma TwoMeans(d: byte)
    ensures Two(d) ==> Weight(d & 0x0f) >= 2 && Weight((d >> 4) & 0x0f) >= 2
    ensures Apart(d) ==> d & 0x0f != 0 && (d >> 4) & 0x0f != 0
  {
  }

  lemma XorBack(x: byte, y: byte)
    ensures x ^ (x ^ y) == y && (x ^ y == 0 ==> x == y)
  {
  }

  /** Inputs that differ in one bit have outputs that differ in two at least. */
  lemma OneBitTwoBits(i: nat, x: byte, y: byte)
    requires i < 8 && x < 64 && y < 64 && x ^ y in {0x01, 0x02, 0x04, 0x08, 0x10, 0x20}
    ensures Weight(Select(i, x) ^ Select(i, y)) >= 2
  {
    hide Change, Select, Two, Apart, Weight;
    BoxMeets(i % 4, x, x ^ y);
    SelectIs(i, x, y);
    TwoMeans(Change(i % 4, x, x ^ y));
  }

  /** So have inputs that differ in just the two middle bits. */
  lemma MiddleBitsTwoBits(i: nat, x: byte, y: byte)
    requires i < 8 && x < 64 && y < 64 && x ^ y == 0x0c
    ensures Weight(Select(i, x) ^ Select(i, y)) >= 2
  {
    hide Change, Select, Two, Apart, Weight;
    BoxMeets(i % 4, x, x ^ y);
    SelectIs(i, x, y);
    TwoMeans(Change(i % 4, x, x ^ y));
  }

  /** Inputs that differ in the first two bits and agree in the last two have different outputs. */
  lemma OuterBitsDiffer(i: nat, x: byte, y: byte)
    requires i < 8 && x < 64 && y < 64 && x ^ y in {0x30, 0x34, 0x38, 0x3c}
    ensures Select(i, x) != Select(i, y)
  {
    hide Change, Select, Two, Apart, Weight;
    BoxMeets(i % 4, x, x ^ y);
    SelectIs(i, x, y);
    TwoMeans(Change(i % 4, x, x ^ y));
    XorBack(Select(i, x), Select(i, y));
    XorSelf(Select(i, x));
  }

  lemma XorSelf(v: byte)
    ensures v ^ v == 0
  {
  }

  lemma RowDifference(x: byte, y: byte)
    requires x < 64 && y < 64 && x != y && x & 0x21 == y & 0x21
    ensures x ^ y in {0x02, 0x04, 0x06, 0x08, 0x0a, 0x0c, 0x0e, 0x10, 0x12, 0x14, 0x16, 0x18, 0x1a, 0x1c, 0x1e}
  {
  }

  /** The outer two of the six bits choose a row, in which no output comes twice. */
  lemma RowsInjective(i: nat, x: byte, y: byte)
    requires i < 8 && x < 64 && y < 64 && x != y && x & 0x21 == y & 0x21
    ensures Select(i, x) != Select(i, y)
  {
    hide Change, Select, Two, Apart, Weight;
    BoxMeets(i % 4, x, x ^ y);
    RowDifference(x, y);
    SelectIs(i, x, y);
    TwoMeans(Change(i % 4, x, x ^ y));
    XorSelf(Select(i, x));
  }

  /** The input in column `c` of a row. */
  function Cell(row: byte, c: byte): byte {
    (row & 0x21) | ((c & 0x0f) << 1)
  }

  lemma CellsApart(row: byte, c: byte, d: byte)
    ensures Cell(row, c) < 64 && Cell(row, c) & 0x21 == row & 0x21
    ensures c < 16 && d < 16 && c != d ==> Cell(row, c) != Cell(row, d)
  {
  }

  /** The output in column `c` of a row. */
  function At(i: nat, row: byte, c: byte): byte
    requires i < 8
  {
    CellsApart(row, c, c);
    Select(i, Cell(row, c))
  }

  /** The outputs of a row. */
  function Outputs(i: nat, row: byte): (s: seq<nat>)
    requires i < 8
    ensures |s| == 16 && forall c :: 0 <= c < 16 ==> s[c] == At(i, row, c as byte) as nat
  {
    seq(16, c requires 0 <= c < 16 => At(i, row, c as byte) as nat)
  }

  lemma {:induction false} Elements(s: seq<nat>)
    requires Distinct(s)
    ensures |set k | 0 <= k < |s| :: s[k]| == |s|
  {
    if s != [] {
      var n := |s| - 1;
      Elements(s[..n]);
      assert (set k | 0 <= k < |s| :: s[k]) == (set k | 0 <= k < n :: s[..n][k]) + {s[n]};
    }
  }

  function Upto(n: nat): set<nat> {
    if n == 0 then {} else Upto(n - 1) + {n - 1}
  }

  lemma {:induction false} UptoIs(n: nat)
    ensures |Upto(n)| == n && forall v: nat :: v in Upto(n) <==> v < n
  {
    if n > 0 {
      UptoIs(n - 1);
    }
  }

  /** As many different numbers below a bound as there are: all of them. */
  lemma Pigeons(s: seq<nat>, v: nat)
    requires Distinct(s) && v < |s| && forall k :: 0 <= k < |s| ==> s[k] < |s|
    ensures v in s
  {
    var a := set k | 0 <= k < |s| :: s[k];
    Elements(s);
    UptoIs(|s|);
    assert a <= Upto(|s|);
    assert |Upto(|s|) - a| == 0;
    assert v !in Upto(|s|) - a;
  }

  /** In every row each of the sixteen outputs comes exactly once. */
  lemma RowsPermute(i: nat, row: byte, v: byte)
    requires i < 8 && v < 16
    ensures exists c: byte :: c < 16 && At(i, row, c) == v && forall d: byte :: d < 16 && d != c ==> At(i, row, d) != v
  {
    hide At, Distinct;
    RowOutputs(i, row);
    Pigeons(Outputs(i, row), v as nat);
    var k :| 0 <= k < 16 && Outputs(i, row)[k] == v as nat;
    var c := k as byte;
    forall d: byte | d < 16 && d != c
      ensures At(i, row, d) != v
    {
      AtDiffers(i, row, d, c);
    }
    assert At(i, row, c) == v;
  }

  lemma AtDiffers(i: nat, row: byte, c: byte, d: byte)
    requires i < 8 && c < 16 && d < 16 && c != d
    ensures At(i, row, c) != At(i, row, d) && At(i, row, c) < 16
  {
    hide Select, Cell;
    CellsApart(row, c, d);
    CellsApart(row, d, c);
    RowsInjective(i, Cell(row, c), Cell(row, d));
    SelectIs(i, Cell(row, c), Cell(row, d));
  }

  lemma RowOutputs(i: nat, row: byte)
    requires i < 8
    ensures Distinct(Outputs(i, row)) && forall k :: 0 <= k < 16 ==> Outputs(i, row)[k] < 16
  {
    hide At;
    var s := Outputs(i, row);
    forall k | 0 <= k < 16
      ensures s[k] < 16
    {
      AtDiffers(i, row, k as byte, if k == 0 then 1 else 0);
    }
    forall j, k | 0 <= j < k < 16
      ensures s[j] != s[k]
    {
      Bytes16(j, k);
      AtDiffers(i, row, j as byte, k as byte);
    }
  }

  lemma Bytes16(j: nat, k: nat)
    requires j < k < 16
    ensures j as byte != k as byte && (j as byte) < 16 && (k as byte) < 16
  {
  }

  // ---- The 32-bit permutation

  /** Where the permutation puts output bit `b`, counted from 0: in which place of the next half. */
  function Where(b: byte): byte {
    var c := b & 0x0f;
    if b < 0x10 then
      Pick(c, 8, 16, 22, 30, 12, 27, 1, 17, 23, 15, 29, 5, 25, 19, 9, 0)
    else
      Pick(c, 7, 13, 24, 2, 3, 28, 10, 18, 31, 11, 21, 6, 4, 26, 14, 20)
  }

  /** Every bit goes to one place, and every place takes one bit. */
  lemma PermutedOnce(b: byte)
    requires b < 0x20
    ensures Where(b) < 0x20 && Permuted(Where(b) as nat) == b as nat + 1
  {
    assert b in {
      0x00, 0x01, 0x02, 0x03, 0x04, 0x05, 0x06, 0x07, 0x08, 0x09, 0x0a, 0x0b, 0x0c, 0x0d, 0x0e, 0x0f,
      0x10, 0x11, 0x12, 0x13, 0x14, 0x15, 0x16, 0x17, 0x18, 0x19, 0x1a, 0x1b, 0x1c, 0x1d, 0x1e, 0x1f};
  }

  /** To which chunk of the next half output `n` of box `a` goes, and whether to one of the middle two of its places. */
  function Next(a: byte, n: byte): byte {
    Where((a << 2) | n) >> 2
  }

  predicate Middle(a: byte, n: byte) {
    var p := Where((a << 2) | n) & 0x03;
    p == 1 || p == 2
  }

  function Flag(b: bool): nat {
    if b then 1 else 0
  }

  /** The four outputs of a box go to four different chunks, none of them its own, two to middle places and two to outer
      ones. */
  lemma OutputsSpread(a: byte)
    requires a < 8
    ensures Next(a, 0) != Next(a, 1) && Next(a, 0) != Next(a, 2) && Next(a, 0) != Next(a, 3)
    ensures Next(a, 1) != Next(a, 2) && Next(a, 1) != Next(a, 3) && Next(a, 2) != Next(a, 3)
    ensures Next(a, 0) != a && Next(a, 1) != a && Next(a, 2) != a && Next(a, 3) != a
    ensures Flag(Middle(a, 0)) + Flag(Middle(a, 1)) + Flag(Middle(a, 2)) + Flag(Middle(a, 3)) == 2
  {
    assert a in {0, 1, 2, 3, 4, 5, 6, 7};
  }

  /** Two boxes do not both reach middle places of one another. */
  lemma NoReturn(a: byte, m: byte, n: byte)
    requires a < 8 && m < 4 && n < 4 && Middle(a, m)
    ensures var b := Next(a, m); b < 8 && !(Next(b, n) == a && Middle(b, n))
  {
    assert a in {0, 1, 2, 3, 4, 5, 6, 7};
    assert m in {0, 1, 2, 3} && n in {0, 1, 2, 3};
  }

  // ---- The expansion and the choice of key bits

  /** The expansion takes the six bits of the half around each group of four. */
  lemma ExpansionIs(i: nat, j: nat)
    requires i < 8 && j < 6
    ensures Expansion(i)[j] == (4 * i + j + 31) % 32 + 1
  {
    assert i in {0, 1, 2, 3, 4, 5, 6, 7};
  }

  /** Which bit of the round key takes key bit `b`, counted from 0: 48 when none does. */
  function Use(b: nat): nat
    requires b < 56
  {
    match b
    case 0 => 4 case 1 => 23 case 2 => 6 case 3 => 15 case 4 => 5 case 5 => 9 case 6 => 19
    case 7 => 17 case 8 => 48 case 9 => 11 case 10 => 2 case 11 => 14 case 12 => 22 case 13 => 0
    case 14 => 8 case 15 => 18 case 16 => 1 case 17 => 48 case 18 => 13 case 19 => 21 case 20 => 10
    case 21 => 48 case 22 => 12 case 23 => 3 case 24 => 48 case 25 => 16 case 26 => 20 case 27 => 7
    case 28 => 46 case 29 => 30 case 30 => 26 case 31 => 47 case 32 => 34 case 33 => 40 case 34 => 48
    case 35 => 45 case 36 => 27 case 37 => 48 case 38 => 38 case 39 => 31 case 40 => 24 case 41 => 43
    case 42 => 48 case 43 => 36 case 44 => 33 case 45 => 42 case 46 => 28 case 47 => 35 case 48 => 37
    case 49 => 44 case 50 => 32 case 51 => 25 case 52 => 41 case 53 => 48 case 54 => 29 case _ => 39
  }

  /** No key bit is used twice, the first four chunks come from the left register and the others from the right one. */
  lemma KeyBitsOnce(i: nat, j: nat)
    requires i < 8 && j < 6
    ensures Use(Pc2(i)[j] - 1) == 6 * i + j && (i < 4 <==> Pc2(i)[j] <= 28)
  {
    assert i in {0, 1, 2, 3, 4, 5, 6, 7};
    assert j in {0, 1, 2, 3, 4, 5};
  }
}
