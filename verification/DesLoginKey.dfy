/** The session key: fourteen bytes mixed from two keys, spread to sixteen with parity bits, and permuted. */
module DesLoginKey {
  import opened Bits

  // ---- Mixing

  /** The first fourteen bytes of `key1`, with `n` bytes of `key2` xored in cyclically. */
  function Mixed(key1: seq<byte>, key2: seq<byte>, n: nat): (m: seq<byte>)
    requires |key1| >= 14 && n <= |key2|
    ensures |m| == 14
  {
    if n == 0 then key1[..14]
    else
      var m := Mixed(key1, key2, n - 1);
      m[(n - 1) % 14 := m[(n - 1) % 14] ^ key2[n - 1]]
  }

  // ---- Spreading

  /** Seven bytes as one number. */
  function Pack(s: seq<byte>): bv64
    requires |s| == 7
  {
    Pack7(s[0], s[1], s[2], s[3], s[4], s[5], s[6])
  }

  function Pack7(a: byte, b: byte, c: byte, d: byte, e: byte, f: byte, g: byte): bv64 {
    ((a as bv64) << 48) | ((b as bv64) << 40) | ((c as bv64) << 32) | ((d as bv64) << 24) |
    ((e as bv64) << 16) | ((f as bv64) << 8) | (g as bv64)
  }

  /** Byte `j` of the spread of seven bytes, its low bit clear: byte `j - 1` gives its last bits, byte `j` its first. */
  function SpreadByte(s: seq<byte>, j: nat): byte
    requires |s| == 7 && j < 8
  {
    match j
    case 0 => s[0] & 0xfe
    case 1 => ((s[0] << 7) | (s[1] >> 1)) & 0xfe
    case 2 => ((s[1] << 6) | (s[2] >> 2)) & 0xfe
    case 3 => ((s[2] << 5) | (s[3] >> 3)) & 0xfe
    case 4 => ((s[3] << 4) | (s[4] >> 4)) & 0xfe
    case 5 => ((s[4] << 3) | (s[5] >> 5)) & 0xfe
    case 6 => ((s[5] << 2) | (s[6] >> 6)) & 0xfe
    case _ => s[6] << 1
  }

  /** Seven bits of a 56-bit number, group 0 being the highest. */
  function Group(w: bv64, j: nat): byte
    requires j < 8
  {
    match j
    case 0 => ((w >> 49) & 0x7f) as bv8
    case 1 => ((w >> 42) & 0x7f) as bv8
    case 2 => ((w >> 35) & 0x7f) as bv8
    case 3 => ((w >> 28) & 0x7f) as bv8
    case 4 => ((w >> 21) & 0x7f) as bv8
    case 5 => ((w >> 14) & 0x7f) as bv8
    case 6 => ((w >> 7) & 0x7f) as bv8
    case _ => (w & 0x7f) as bv8
  }

  /** Spreading cuts the seven bytes into eight groups of seven bits. */
  lemma SpreadIsGroups(s: seq<byte>)
    requires |s| == 7
    ensures forall j :: 0 <= j < 8 ==> SpreadByte(s, j) >> 1 == Group(Pack(s), j)
  {
    hide *;
    forall j | 0 <= j < 8 ensures SpreadByte(s, j) >> 1 == Group(Pack(s), j) {
      SpreadIsGroup(s, j);
    }
  }

  lemma SpreadIsGroup(s: seq<byte>, j: nat)
    requires |s| == 7 && j < 8
    ensures SpreadByte(s, j) >> 1 == Group(Pack(s), j)
  {
    hide *;
    var a, b, c, d, e, f, g := s[0], s[1], s[2], s[3], s[4], s[5], s[6];
    if j < 2 { Cut0(s, a, b, c, d, e, f, g); }
    else if j < 4 { Cut1(s, a, b, c, d, e, f, g); }
    else if j < 6 { Cut2(s, a, b, c, d, e, f, g); }
    else { Cut3(s, a, b, c, d, e, f, g); }
  }

  lemma Cut0(s: seq<byte>, a: byte, b: byte, c: byte, d: byte, e: byte, f: byte, g: byte)
    requires s == [a, b, c, d, e, f, g]
    ensures SpreadByte(s, 0) >> 1 == Group(Pack(s), 0) && SpreadByte(s, 1) >> 1 == Group(Pack(s), 1)
  {}

  lemma Cut1(s: seq<byte>, a: byte, b: byte, c: byte, d: byte, e: byte, f: byte, g: byte)
    requires s == [a, b, c, d, e, f, g]
    ensures SpreadByte(s, 2) >> 1 == Group(Pack(s), 2) && SpreadByte(s, 3) >> 1 == Group(Pack(s), 3)
  {}

  lemma Cut2(s: seq<byte>, a: byte, b: byte, c: byte, d: byte, e: byte, f: byte, g: byte)
    requires s == [a, b, c, d, e, f, g]
    ensures SpreadByte(s, 4) >> 1 == Group(Pack(s), 4) && SpreadByte(s, 5) >> 1 == Group(Pack(s), 5)
  {}

  lemma Cut3(s: seq<byte>, a: byte, b: byte, c: byte, d: byte, e: byte, f: byte, g: byte)
    requires s == [a, b, c, d, e, f, g]
    ensures SpreadByte(s, 6) >> 1 == Group(Pack(s), 6) && SpreadByte(s, 7) >> 1 == Group(Pack(s), 7)
  {}

  lemma GroupsDetermine(v: bv64, w: bv64)
    requires v < 0x100_0000_0000_0000 && w < 0x100_0000_0000_0000
    requires forall j :: 0 <= j < 8 ==> Group(v, j) == Group(w, j)
    ensures v == w
  {
    assert Group(v, 0) == Group(w, 0) && Group(v, 1) == Group(w, 1) && Group(v, 2) == Group(w, 2) && Group(v, 3) == Group(w, 3);
    assert Group(v, 4) == Group(w, 4) && Group(v, 5) == Group(w, 5) && Group(v, 6) == Group(w, 6) && Group(v, 7) == Group(w, 7);
  }

  lemma PackDetermines(a: byte, b: byte, c: byte, d: byte, e: byte, f: byte, g: byte,
      a': byte, b': byte, c': byte, d': byte, e': byte, f': byte, g': byte)
    requires Pack7(a, b, c, d, e, f, g) == Pack7(a', b', c', d', e', f', g')
    ensures a == a' && b == b' && c == c' && d == d' && e == e' && f == f' && g == g'
  {}

  lemma PackSmall(a: byte, b: byte, c: byte, d: byte, e: byte, f: byte, g: byte)
    ensures Pack7(a, b, c, d, e, f, g) < 0x100_0000_0000_0000
  {}

  /** The parity bit: one, toggled by each of the seven high bits that is set. */
  function Parity(k: byte): byte {
    1 ^ ((k >> 1) & 1) ^ ((k >> 2) & 1) ^ ((k >> 3) & 1) ^ ((k >> 4) & 1) ^ ((k >> 5) & 1) ^ ((k >> 6) & 1) ^ (k >> 7)
  }

  function Adjusted(k: byte): byte {
    k | Parity(k)
  }

  /** An adjusted byte with a clear low bit has an odd number of set bits, and keeps the other seven. */
  lemma AdjustedIsOdd(k: byte)
    requires k & 1 == 0
    ensures Adjusted(k) & 1 == Parity(Adjusted(k))
    ensures Adjusted(k) >> 1 == k >> 1
  {}

  function Spread(s: seq<byte>): (r: seq<byte>)
    requires |s| == 14
    ensures |r| == 16
  {
    seq(16, j requires 0 <= j < 16 =>
      Adjusted(if j < 8 then SpreadByte(s[..7], j) else SpreadByte(s[7..], j - 8)))
  }

  lemma SpreadLowClear(s: seq<byte>, j: nat)
    requires |s| == 7 && j < 8
    ensures SpreadByte(s, j) & 1 == 0
  {}

  // ---- The permutation

  function Pc1Hi(j: nat): (row: seq<nat>)
    requires j < 7
    ensures |row| == 8 && forall k :: 0 <= k < 8 ==> row[k] < 8
  {
    match j
    case 0 => [7, 6, 5, 4, 3, 2, 1, 0]
    case 1 => [7, 6, 5, 4, 3, 2, 1, 0]
    case 2 => [7, 6, 5, 4, 3, 2, 1, 0]
    case 3 => [7, 6, 5, 4, 7, 6, 5, 4]
    case 4 => [3, 2, 1, 0, 7, 6, 5, 4]
    case 5 => [3, 2, 1, 0, 7, 6, 5, 4]
    case _ => [3, 2, 1, 0, 3, 2, 1, 0]
  }

  function Pc1Lo(j: nat): (row: seq<nat>)
    requires j < 7
    ensures |row| == 8 && forall k :: 0 <= k < 8 ==> 1 <= row[k] < 8
  {
    match j
    case 0 => [7, 7, 7, 7, 7, 7, 7, 7]
    case 1 => [6, 6, 6, 6, 6, 6, 6, 6]
    case 2 => [5, 5, 5, 5, 5, 5, 5, 5]
    case 3 => [4, 4, 4, 4, 1, 1, 1, 1]
    case 4 => [1, 1, 1, 1, 2, 2, 2, 2]
    case 5 => [2, 2, 2, 2, 3, 3, 3, 3]
    case _ => [3, 3, 3, 3, 4, 4, 4, 4]
  }

  function Bit(n: nat): byte
    requires n < 8
  {
    match n
    case 0 => 0x01
    case 1 => 0x02
    case 2 => 0x04
    case 3 => 0x08
    case 4 => 0x10
    case 5 => 0x20
    case 6 => 0x40
    case _ => 0x80
  }

  function SetBit(b: byte, n: nat, on: bool): byte
    requires n < 8
  {
    b | (if on then Bit(n) else 0)
  }

  lemma SetBitBits(b: byte, n: nat, on: bool, m: nat)
    requires n < 8 && m < 8
    ensures Has(SetBit(b, n, on), m) == (Has(b, m) || (m == n && on))
  {}

  /** The first `n` bits of byte `j`, from the top. */
  function PcBits(d: seq<byte>, j: nat, n: nat): byte
    requires |d| == 8 && j < 7 && n <= 8
  {
    if n == 0 then 0 else SetBit(PcBits(d, j, n - 1), 8 - n, Has(d[Pc1Hi(j)[n - 1]], Pc1Lo(j)[n - 1]))
  }

  function Pc1(d: seq<byte>): (r: seq<byte>)
    requires |d| == 8
    ensures |r| == 8 && r[7] == 0
  {
    seq(8, j requires 0 <= j < 8 => if j < 7 then PcBits(d, j, 8) else 0)
  }

  lemma {:induction false} PcBit(d: seq<byte>, j: nat, n: nat, k: nat)
    requires |d| == 8 && j < 7 && n <= 8 && k < 8
    ensures Has(PcBits(d, j, n), 7 - k) == (k < n && Has(d[Pc1Hi(j)[k]], Pc1Lo(j)[k]))
  {
    hide Has, SetBit, Pc1Hi, Pc1Lo;
    if n == 0 {
      HasZero(7 - k);
    } else {
      PcBit(d, j, n - 1, k);
      SetBitBits(PcBits(d, j, n - 1), 8 - n, Has(d[Pc1Hi(j)[n - 1]], Pc1Lo(j)[n - 1]), 7 - k);
    }
  }

  lemma HasZero(n: nat)
    requires n < 8
    ensures !Has(0, n)
  {}

  /** Where the permutation puts bit `l` of byte `b`; the parity bits, `l == 0`, go nowhere. */
  function Place(b: nat, l: nat): (at: (nat, nat))
    requires b < 8 && 1 <= l < 8
    ensures at.0 < 7 && at.1 < 8
  {
    if l >= 5 then (7 - l, 7 - b)
    else if l == 4 then (if b >= 4 then (3, 7 - b) else (6, 7 - b))
    else (if b >= 4 then (2 + l, 11 - b) else (3 + l, 3 - b))
  }

  lemma PlaceIsRight(b: nat, l: nat)
    requires b < 8 && 1 <= l < 8
    ensures Pc1Hi(Place(b, l).0)[Place(b, l).1] == b && Pc1Lo(Place(b, l).0)[Place(b, l).1] == l
  {
    assert b in {0, 1, 2, 3, 4, 5, 6, 7};
  }

  /** The permutation loses only the parity bits. */
  lemma Pc1Keeps(d: seq<byte>, e: seq<byte>, b: nat)
    requires |d| == 8 && |e| == 8 && Pc1(d) == Pc1(e) && b < 8
    ensures d[b] >> 1 == e[b] >> 1
  {
    hide Has, PcBits, Place, Pc1Hi, Pc1Lo;
    forall l | 1 <= l < 8 ensures Has(d[b], l) == Has(e[b], l) {
      var (j, k) := Place(b, l);
      PlaceIsRight(b, l);
      PcBit(d, j, 8, k);
      PcBit(e, j, 8, k);
      assert Pc1(d)[j] == PcBits(d, j, 8) && Pc1(e)[j] == PcBits(e, j, 8);
    }
    SameHigh(d[b], e[b]);
  }

  lemma SameHigh(x: byte, y: byte)
    requires forall l :: 1 <= l < 8 ==> Has(x, l) == Has(y, l)
    ensures x >> 1 == y >> 1
  {
    assert Has(x, 1) == Has(y, 1) && Has(x, 2) == Has(y, 2) && Has(x, 3) == Has(y, 3) && Has(x, 4) == Has(y, 4);
    assert Has(x, 5) == Has(y, 5) && Has(x, 6) == Has(y, 6) && Has(x, 7) == Has(y, 7);
  }

  // ---- The whole key

  function LoginKey(mixed: seq<byte>): (r: seq<byte>)
    requires |mixed| == 14
    ensures |r| == 16 && r[7] == 0 && r[15] == 0
  {
    Pc1(Spread(mixed)[..8]) + Pc1(Spread(mixed)[8..])
  }

  lemma HalfKept(s: seq<byte>, t: seq<byte>, d: seq<byte>, e: seq<byte>)
    requires |s| == 7 && |t| == 7 && |d| == 8 && |e| == 8
    requires forall j :: 0 <= j < 8 ==> d[j] == Adjusted(SpreadByte(s, j)) && e[j] == Adjusted(SpreadByte(t, j))
    requires Pc1(d) == Pc1(e)
    ensures s == t
  {
    hide Pc1, Adjusted, SpreadByte, Group, Pack7;
    SpreadIsGroups(s); SpreadIsGroups(t);
    forall j | 0 <= j < 8 ensures Group(Pack(s), j) == Group(Pack(t), j) {
      Pc1Keeps(d, e, j);
      SpreadLowClear(s, j); SpreadLowClear(t, j);
      AdjustedIsOdd(SpreadByte(s, j)); AdjustedIsOdd(SpreadByte(t, j));
    }
    PackSmall(s[0], s[1], s[2], s[3], s[4], s[5], s[6]);
    PackSmall(t[0], t[1], t[2], t[3], t[4], t[5], t[6]);
    GroupsDetermine(Pack(s), Pack(t));
    PackDetermines(s[0], s[1], s[2], s[3], s[4], s[5], s[6], t[0], t[1], t[2], t[3], t[4], t[5], t[6]);
  }

  /** No bit of the fourteen mixed bytes is lost on the way to the session key. */
  lemma LoginKeyInjective(m: seq<byte>, n: seq<byte>)
    requires |m| == 14 && |n| == 14 && LoginKey(m) == LoginKey(n)
    ensures m == n
  {
    hide Pc1, Adjusted, SpreadByte;
    var s, t := Spread(m), Spread(n);
    assert LoginKey(m)[..8] == Pc1(s[..8]) && LoginKey(m)[8..] == Pc1(s[8..]);
    assert LoginKey(n)[..8] == Pc1(t[..8]) && LoginKey(n)[8..] == Pc1(t[8..]);
    HalfKept(m[..7], n[..7], s[..8], t[..8]);
    HalfKept(m[7..], n[7..], s[8..], t[8..]);
    assert m == m[..7] + m[7..] && n == n[..7] + n[7..];
  }

  // ---- The loops

  method LoginKeyGet(key1: array<byte>, key2: array<byte>, len: nat, des16: array<byte>)
    requires key1.Length >= 14 && len <= key2.Length && des16.Length == 16
    modifies des16
    ensures des16[..] == LoginKey(Mixed(old(key1[..]), old(key2[..]), len))
  {
    hide Spread, Pc1, Mixed;
    var des14 := MixKeys(key1, key2, len);
    KeySpread(des14, des16);
    PermuteHalves(des16);
  }

  method MixKeys(key1: array<byte>, key2: array<byte>, len: nat) returns (des14: array<byte>)
    requires key1.Length >= 14 && len <= key2.Length
    ensures fresh(des14) && des14.Length == 14 && des14[..] == Mixed(key1[..], key2[..], len)
  {
    hide Mixed;
    ghost var k1, k2 := key1[..], key2[..];
    des14 := new byte[14](i requires 0 <= i < 14 reads key1 => key1[i]);
    MixedNone(k1, k2);
    assert des14[..] == k1[..14];
    var i := 0;
    while i < len
      invariant 0 <= i <= len && des14[..] == Mixed(k1, k2, i)
      invariant key1[..] == k1 && key2[..] == k2
    {
      MixedNext(k1, k2, i);
      XorAt(des14, i % 14, key2[i]);
      i := i + 1;
    }
  }

  lemma MixedNone(key1: seq<byte>, key2: seq<byte>)
    requires |key1| >= 14
    ensures Mixed(key1, key2, 0) == key1[..14]
  {}

  lemma MixedNext(key1: seq<byte>, key2: seq<byte>, i: nat)
    requires |key1| >= 14 && i < |key2|
    ensures var m := Mixed(key1, key2, i);
      Mixed(key1, key2, i + 1) == m[i % 14 := XorByte(m[i % 14], key2[i])]
  {}

  method XorAt(a: array<byte>, j: nat, b: byte)
    requires j < a.Length
    modifies a
    ensures a[..] == old(a[..])[j := XorByte(old(a[j]), b)]
  {
    a[j] := a[j] ^ b;
  }

  method PermuteHalves(des16: array<byte>)
    requires des16.Length == 16
    modifies des16
    ensures des16[..] == Pc1(old(des16[..8])) + Pc1(old(des16[8..]))
  {
    hide Pc1;
    ghost var s := des16[..];
    assert des16[0..8] == s[..8];
    DoPc1(des16, 0);
    assert des16[8..16] == des16[8..] == s[8..];
    DoPc1(des16, 8);
    assert des16[..] == des16[..8] + des16[8..16];
  }

  method KeySpread(normal: array<byte>, spread: array<byte>)
    requires normal.Length == 14 && spread.Length == 16 && normal != spread
    modifies spread
    ensures spread[..] == Spread(normal[..])
  {
    hide SpreadByte, Adjusted;
    ghost var n := normal[..];
    forall j | 0 <= j < 16 {
      spread[j] := if j < 8 then SpreadByte(normal[..7], j) else SpreadByte(normal[7..], j - 8);
    }
    ParityAdjust(spread);
    assert normal[..7] == n[..7] && normal[7..] == n[7..];
  }

  method ParityAdjust(key: array<byte>)
    modifies key
    ensures forall i :: 0 <= i < key.Length ==> key[i] == Adjusted(old(key[i]))
  {
    hide Adjusted;
    ghost var k := key[..];
    var i := 0;
    while i < key.Length
      invariant 0 <= i <= key.Length
      invariant forall q :: 0 <= q < i ==> key[q] == Adjusted(k[q])
      invariant forall q :: i <= q < key.Length ==> key[q] == k[q]
    {
      key[i] := AdjustOne(key[i]);
      i := i + 1;
    }
  }

  /** The unrolled toggles: the parity starts at one. */
  method AdjustOne(k: byte) returns (r: byte)
    ensures r == Adjusted(k)
  {
    var parity: byte := 1;
    if (k >> 1) & 1 != 0 { parity := !parity & 1; }
    if (k >> 2) & 1 != 0 { parity := !parity & 1; }
    if (k >> 3) & 1 != 0 { parity := !parity & 1; }
    if (k >> 4) & 1 != 0 { parity := !parity & 1; }
    if (k >> 5) & 1 != 0 { parity := !parity & 1; }
    if (k >> 6) & 1 != 0 { parity := !parity & 1; }
    if (k >> 7) & 1 != 0 { parity := !parity & 1; }
    r := k | parity;
  }

  method DoPc1(data: array<byte>, o: nat)
    requires o + 8 <= data.Length
    modifies data
    ensures data[o..o + 8] == Pc1(old(data[o..o + 8]))
    ensures data[..o] == old(data[..o]) && data[o + 8..] == old(data[o + 8..])
  {
    hide PcBits;
    ghost var d := data[o..o + 8];
    var buf := new byte[8](_ => 0);
    var j := 0;
    while j < 7
      invariant 0 <= j <= 7 && data[o..o + 8] == d && data[..] == old(data[..])
      invariant forall q :: 0 <= q < j ==> buf[q] == PcBits(d, q, 8)
      invariant forall q :: j <= q < 8 ==> buf[q] == 0
    {
      buf[j] := GatherRow(data, o, j);
      j := j + 1;
    }
    forall i | 0 <= i < 8 { data[o + i] := buf[i]; }
    assert data[o..o + 8] == Pc1(d);
  }

  /** One byte of the permutation, a bit at a time from the top. */
  method GatherRow(data: array<byte>, o: nat, j: nat) returns (b: byte)
    requires o + 8 <= data.Length && j < 7
    ensures b == PcBits(data[o..o + 8], j, 8)
  {
    hide Has, SetBit, Pc1Hi, Pc1Lo;
    ghost var d := data[o..o + 8];
    b := 0;
    var k := 0;
    while k < 8
      invariant 0 <= k <= 8 && b == PcBits(d, j, k)
    {
      b := SetBit(b, 7 - k, Has(data[o + Pc1Hi(j)[k]], Pc1Lo(j)[k]));
      k := k + 1;
    }
  }
}
