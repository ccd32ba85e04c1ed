/** The initial permutation of the block and its inverse, as bit-by-bit loops that shift a byte buffer in place. */
module DesPermutation {
  import opened Bits

  // ---- Pushing bits into a byte from the top

  function Push(x: byte, bit: bool): byte {
    (x >> 1) | (if bit then 0x80 else 0)
  }

  lemma PushBits(x: byte, bit: bool, j: nat)
    requires j < 8
    ensures Has(Push(x, bit), j) == if j == 7 then bit else Has(x, j + 1)
  {}

  /** The top `n` bits. */
  function HighMask(n: nat): byte {
    if n == 0 then 0 else (HighMask(n - 1) >> 1) | 0x80
  }

  predicate Agree(x: byte, y: byte, n: nat) {
    x & HighMask(n) == y & HighMask(n)
  }

  lemma PushAgree(x: byte, y: byte, bit: bool, n: nat)
    requires Agree(x, y, n)
    ensures Agree(Push(x, bit), Push(y, bit), n + 1)
  {}

  /** Eight pushes leave nothing of what a byte held before. */
  lemma AgreeAll(x: byte, y: byte)
    requires Agree(x, y, 8)
    ensures x == y
  {
    assert HighMask(8) == 0xff;
  }

  function ShrN(x: byte, n: nat): byte {
    if n == 0 then x else ShrN(x, n - 1) >> 1
  }

  lemma ShrLow(x: byte, n: nat)
    requires n < 8
    ensures (ShrN(x, n) & 1 != 0) == Has(x, n)
  {
    ShrTable(x);
  }

  lemma ShrTable(x: byte)
    ensures ShrN(x, 0) == x && ShrN(x, 1) == x >> 1 && ShrN(x, 2) == x >> 2 && ShrN(x, 3) == x >> 3
    ensures ShrN(x, 4) == x >> 4 && ShrN(x, 5) == x >> 5 && ShrN(x, 6) == x >> 6 && ShrN(x, 7) == x >> 7
  {}

  // ---- The permutation as a function of the eight bytes

  /** The bit of each source byte that goes to byte `m`. */
  function Source(m: nat): (b: nat)
    requires m < 8
    ensures b < 8
  {
    if m < 4 then 2 * (3 - m) else 2 * (7 - m) + 1
  }

  /** The byte that takes bit `t`. */
  function Slot(t: nat): (m: nat)
    requires t < 8
    ensures m < 8 && Source(m) == t
  {
    if t % 2 == 0 then 3 - t / 2 else 7 - t / 2
  }

  lemma SlotOfSource(m: nat)
    requires m < 8
    ensures Slot(Source(m)) == m
  {}

  /** Bit `b` of the first `n` bytes, pushed into one byte. */
  function Column(d: seq<byte>, b: nat, n: nat): byte
    requires |d| == 8 && b < 8 && n <= 8
  {
    if n == 0 then 0 else Push(Column(d, b, n - 1), Has(d[n - 1], b))
  }

  /** Bit `i` of the bytes in the slots of 0..t, pushed into one byte. */
  function Row(d: seq<byte>, i: nat, t: nat): byte
    requires |d| == 8 && i < 8 && t <= 8
  {
    if t == 0 then 0 else Push(Row(d, i, t - 1), Has(d[Slot(t - 1)], i))
  }

  function Ip(d: seq<byte>): (r: seq<byte>)
    requires |d| == 8
    ensures |r| == 8
  {
    seq(8, m requires 0 <= m < 8 => Column(d, Source(m), 8))
  }

  function IpInverse(d: seq<byte>): (r: seq<byte>)
    requires |d| == 8
    ensures |r| == 8
  {
    seq(8, i requires 0 <= i < 8 => Row(d, i, 8))
  }

  lemma {:induction false} ColumnBit(d: seq<byte>, b: nat, n: nat, i: nat)
    requires |d| == 8 && b < 8 && i < n <= 8
    ensures Has(Column(d, b, n), 8 - n + i) == Has(d[i], b)
  {
    hide Has, Push;
    var rest := Column(d, b, n - 1);
    if i < n - 1 {
      ColumnBit(d, b, n - 1, i);
    }
    PushBits(rest, Has(d[n - 1], b), 8 - n + i);
  }

  lemma {:induction false} RowBit(d: seq<byte>, i: nat, n: nat, t: nat)
    requires |d| == 8 && i < 8 && t < n <= 8
    ensures Has(Row(d, i, n), 8 - n + t) == Has(d[Slot(t)], i)
  {
    hide Has, Push, Slot, Source;
    var rest := Row(d, i, n - 1);
    if t < n - 1 {
      RowBit(d, i, n - 1, t);
    }
    PushBits(rest, Has(d[Slot(n - 1)], i), 8 - n + t);
  }

  /** The two permutations undo each other, in either order. */
  lemma IpRoundTrip(d: seq<byte>)
    requires |d| == 8
    ensures IpInverse(Ip(d)) == d
    ensures Ip(IpInverse(d)) == d
  {
    hide Has, Column, Row, Slot, Source;
    forall i | 0 <= i < 8 ensures IpInverse(Ip(d))[i] == d[i] {
      forall t | 0 <= t < 8 ensures Has(IpInverse(Ip(d))[i], t) == Has(d[i], t) {
        RowBit(Ip(d), i, 8, t);
        ColumnBit(d, t, 8, i);
      }
      SameBits(IpInverse(Ip(d))[i], d[i]);
    }
    forall m | 0 <= m < 8 ensures Ip(IpInverse(d))[m] == d[m] {
      forall i | 0 <= i < 8 ensures Has(Ip(IpInverse(d))[m], i) == Has(d[m], i) {
        ColumnBit(IpInverse(d), Source(m), 8, i);
        RowBit(d, i, 8, Source(m));
        SlotOfSource(m);
      }
      SameBits(Ip(IpInverse(d))[m], d[m]);
    }
  }

  // ---- The loops

  /** After `i` whole source bytes and `t` bits of the next, what of the buffer has been overwritten. */
  ghost predicate Scattered(buf: seq<byte>, d: seq<byte>, i: nat, t: nat)
    requires |d| == 8 && |buf| == 8 && t <= 8 && i <= 8 && (i == 8 ==> t == 0)
  {
    forall m :: 0 <= m < 8 ==>
      var n := if Source(m) < t then i + 1 else i;
      Agree(buf[m], Column(d, Source(m), n), n)
  }

  lemma ScatterOne(buf: seq<byte>, d: seq<byte>, i: nat, t: nat)
    requires |d| == 8 && |buf| == 8 && t < 8 && i < 8
    requires Scattered(buf, d, i, t)
    ensures Scattered(buf[Slot(t) := Push(buf[Slot(t)], Has(d[i], t))], d, i, t + 1)
  {
    hide Has, Push, Agree;
    PushAgree(buf[Slot(t)], Column(d, t, i), Has(d[i], t), i);
    forall m | 0 <= m < 8 ensures Source(m) == t <==> m == Slot(t) {
      SlotOfSource(m);
    }
  }

  method DoIp(data: array<byte>)
    requires data.Length == 8
    modifies data
    ensures data[..] == Ip(old(data[..]))
  {
    hide *;
    ghost var d := data[..];
    var buf := new byte[8];
    assert Scattered(buf[..], d, 0, 0) by { NothingYet(buf[..], d); }
    var i := 0;
    while i < 8
      invariant 0 <= i <= 8 && data[..] == d
      invariant Scattered(buf[..], d, i, 0)
    {
      ScatterByte(data[i], buf, d, i);
      i := i + 1;
    }
    AllScattered(buf[..], d);
    forall m | 0 <= m < 8 { data[m] := buf[m]; }
    assert data[..] == buf[..];
  }

  /** The two inner loops: one source byte is shifted out, a bit to each byte of the buffer. */
  method ScatterByte(v: byte, buf: array<byte>, ghost d: seq<byte>, ghost i: nat)
    requires buf.Length == 8 && |d| == 8 && i < 8 && v == d[i]
    requires Scattered(buf[..], d, i, 0)
    modifies buf
    ensures Scattered(buf[..], d, i + 1, 0)
  {
    hide *;
    var val := v;
    var p := 3;
    var j := 4;
    assert val == ShrN(d[i], 0) by { ShrZero(val); }
    ghost var t := 0;
    while j > 0
      invariant 0 <= j <= 4 && p == j - 1 && t == 8 - 2 * j
      invariant val == ShrN(d[i], t) && Scattered(buf[..], d, i, t)
    {
      BitAt(j);
      var k := 0;
      while k <= 4
        invariant (k == 0 && t == 8 - 2 * j) || (k == 4 && t == 9 - 2 * j) || (k == 8 && t == 10 - 2 * j)
        invariant val == ShrN(d[i], t) && Scattered(buf[..], d, i, t)
      {
        val := ScatterBit(val, buf, p + k, d, i, t);
        t := t + 1;
        k := k + 4;
      }
      p := p - 1;
      j := j - 1;
    }
    NextByte(buf[..], d, i);
  }

  /** Which bytes of the buffer the two bits of pass `j` belong to. */
  lemma BitAt(j: nat)
    requires 1 <= j <= 4
    ensures Slot(8 - 2 * j) == j - 1 && Slot(9 - 2 * j) == j + 3
  {}

  method ScatterBit(val: byte, buf: array<byte>, m: nat, ghost d: seq<byte>, ghost i: nat, ghost t: nat) returns (next: byte)
    requires buf.Length == 8 && |d| == 8 && i < 8 && t < 8 && m == Slot(t)
    requires val == ShrN(d[i], t) && Scattered(buf[..], d, i, t)
    modifies buf
    ensures next == ShrN(d[i], t + 1) && Scattered(buf[..], d, i, t + 1)
  {
    hide Has, Push, Source, Slot, ShrN, Scattered;
    ShrLow(d[i], t);
    ShrNext(d[i], t);
    ScatterOne(buf[..], d, i, t);
    ghost var before := buf[..];
    buf[m] := Push(buf[m], val & 1 != 0);
    assert buf[..] == before[m := Push(before[m], Has(d[i], t))];
    next := val >> 1;
  }

  lemma ShrZero(x: byte)
    ensures ShrN(x, 0) == x
  {}

  lemma ShrNext(x: byte, n: nat)
    ensures ShrN(x, n + 1) == ShrN(x, n) >> 1
  {}

  lemma NothingYet(buf: seq<byte>, d: seq<byte>)
    requires |d| == 8 && |buf| == 8
    ensures Scattered(buf, d, 0, 0)
  {}

  lemma NextByte(buf: seq<byte>, d: seq<byte>, i: nat)
    requires |d| == 8 && |buf| == 8 && i < 8 && Scattered(buf, d, i, 8)
    ensures Scattered(buf, d, i + 1, 0)
  {
    hide Has, Push, Agree, Column;
  }

  lemma AllScattered(buf: seq<byte>, d: seq<byte>)
    requires |d| == 8 && |buf| == 8 && Scattered(buf, d, 8, 0)
    ensures buf == Ip(d)
  {
    hide Agree, Column, Source;
    forall m | 0 <= m < 8 ensures buf[m] == Ip(d)[m] {
      AgreeAll(buf[m], Column(d, Source(m), 8));
    }
  }

  /** The source bytes after `i` whole passes and `t` bits of the next one. */
  ghost predicate Drained(data: seq<byte>, d: seq<byte>, i: nat, t: nat)
    requires |d| == 8 && |data| == 8 && i <= 8 && t <= 8
  {
    forall m :: 0 <= m < 8 ==> data[m] == ShrN(d[m], if Source(m) < t then i + 1 else i)
  }

  lemma DrainOne(data: seq<byte>, d: seq<byte>, i: nat, t: nat)
    requires |d| == 8 && |data| == 8 && i < 8 && t < 8 && Drained(data, d, i, t)
    ensures (data[Slot(t)] & 1 != 0) == Has(d[Slot(t)], i)
    ensures Drained(data[Slot(t) := data[Slot(t)] >> 1], d, i, t + 1)
  {
    hide Has, ShrN;
    ShrLow(d[Slot(t)], i);
    ShrNext(d[Slot(t)], i);
    forall m | 0 <= m < 8 ensures Source(m) == t <==> m == Slot(t) {
      SlotOfSource(m);
    }
  }

  lemma DrainEnds(data: seq<byte>, d: seq<byte>, i: nat)
    requires |d| == 8 && |data| == 8 && i <= 8
    ensures data == d && i == 0 ==> Drained(data, d, i, 0)
    ensures i < 8 && Drained(data, d, i, 8) ==> Drained(data, d, i + 1, 0)
  {
    hide ShrN;
    forall m | 0 <= m < 8 ensures d[m] == ShrN(d[m], 0) { ShrZero(d[m]); }
  }

  /** The inverse reads the bits off the bottom of `data`, which it shifts away. */
  method DoIpInverse(data: array<byte>)
    requires data.Length == 8
    modifies data
    ensures data[..] == IpInverse(old(data[..]))
  {
    hide Row, Drained;
    ghost var d := data[..];
    DrainEnds(data[..], d, 0);
    var r: byte := 0;
    var buf := new byte[8];
    var i := 0;
    while i < 8
      invariant 0 <= i <= 8
      invariant Drained(data[..], d, i, 0)
      invariant forall q :: 0 <= q < i ==> buf[q] == Row(d, q, 8)
    {
      r := GatherByte(r, data, d, i);
      buf[i] := r;
      i := i + 1;
    }
    forall m | 0 <= m < 8 { data[m] := buf[m]; }
    assert data[..] == IpInverse(d);
  }

  /** The two inner loops: the low bit of each byte in turn, eight of them, pushed into `r`. */
  method GatherByte(before: byte, data: array<byte>, ghost d: seq<byte>, ghost i: nat) returns (r: byte)
    requires data.Length == 8 && |d| == 8 && i < 8 && Drained(data[..], d, i, 0)
    modifies data
    ensures r == Row(d, i, 8)
    ensures Drained(data[..], d, i + 1, 0)
  {
    hide *;
    r := before;
    var p := 3;
    var j := 4;
    RowStart(r, d, i);
    ghost var t := 0;
    while j > 0
      invariant 0 <= j <= 4 && p == j - 1 && t == 8 - 2 * j
      invariant Drained(data[..], d, i, t) && Agree(r, Row(d, i, t), t)
    {
      BitAt(j);
      var k := 0;
      while k <= 4
        invariant (k == 0 && t == 8 - 2 * j) || (k == 4 && t == 9 - 2 * j) || (k == 8 && t == 10 - 2 * j)
        invariant Drained(data[..], d, i, t) && Agree(r, Row(d, i, t), t)
      {
        r := GatherBit(r, data, p + k, d, i, t);
        t := t + 1;
        k := k + 4;
      }
      p := p - 1;
      j := j - 1;
    }
    AgreeAll(r, Row(d, i, 8));
    DrainEnds(data[..], d, i);
  }

  method GatherBit(before: byte, data: array<byte>, m: nat, ghost d: seq<byte>, ghost i: nat, ghost t: nat) returns (r: byte)
    requires data.Length == 8 && |d| == 8 && i < 8 && t < 8 && m == Slot(t)
    requires Drained(data[..], d, i, t) && Agree(before, Row(d, i, t), t)
    modifies data
    ensures Drained(data[..], d, i, t + 1) && Agree(r, Row(d, i, t + 1), t + 1)
  {
    hide *;
    ghost var now := data[..];
    DrainOne(now, d, i, t);
    RowNext(before, d, i, t);
    r := Push(before, data[m] & 1 != 0);
    data[m] := data[m] >> 1;
    assert data[..] == now[m := now[m] >> 1];
  }

  lemma RowStart(r: byte, d: seq<byte>, i: nat)
    requires |d| == 8 && i < 8
    ensures Agree(r, Row(d, i, 0), 0)
  {}

  lemma RowNext(r: byte, d: seq<byte>, i: nat, t: nat)
    requires |d| == 8 && i < 8 && t < 8 && Agree(r, Row(d, i, t), t)
    ensures Agree(Push(r, Has(d[Slot(t)], i)), Row(d, i, t + 1), t + 1)
  {
    hide Has, Push, Agree;
    PushAgree(r, Row(d, i, t), Has(d[Slot(t)], i), t);
  }
}
