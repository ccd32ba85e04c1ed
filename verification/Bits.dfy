/** Bytes, 32-bit words and the passage between them, shared by every cipher and digest. */
module Bits {
  type byte = bv8

  /** The big-endian word made of four bytes. */
  function Word(a: byte, b: byte, c: byte, d: byte): bv32 {
    ((a as bv32) << 24) | ((b as bv32) << 16) | ((c as bv32) << 8) | (d as bv32)
  }

  function B0(w: bv32): byte { (w >> 24) as bv8 }

  function B1(w: bv32): byte { ((w >> 16) & 0xff) as bv8 }

  function B2(w: bv32): byte { ((w >> 8) & 0xff) as bv8 }

  function B3(w: bv32): byte { (w & 0xff) as bv8 }

  function Bytes(w: bv32): (s: seq<byte>)
    ensures |s| == 4
  {
    [B0(w), B1(w), B2(w), B3(w)]
  }

  lemma BytesOfWord(a: byte, b: byte, c: byte, d: byte)
    ensures B0(Word(a, b, c, d)) == a && B1(Word(a, b, c, d)) == b
    ensures B2(Word(a, b, c, d)) == c && B3(Word(a, b, c, d)) == d
  {}

  lemma WordOfBytes(w: bv32)
    ensures Word(B0(w), B1(w), B2(w), B3(w)) == w
  {}

  lemma BytesOfXor(v: bv32, w: bv32)
    ensures B0(v ^ w) == B0(v) ^ B0(w) && B1(v ^ w) == B1(v) ^ B1(w)
    ensures B2(v ^ w) == B2(v) ^ B2(w) && B3(v ^ w) == B3(v) ^ B3(w)
  {}

  /** The test `b & (1 << n)`. */
  predicate Has(b: byte, n: nat)
    requires n < 8
  {
    match n
    case 0 => b & 0x01 != 0
    case 1 => b & 0x02 != 0
    case 2 => b & 0x04 != 0
    case 3 => b & 0x08 != 0
    case 4 => b & 0x10 != 0
    case 5 => b & 0x20 != 0
    case 6 => b & 0x40 != 0
    case _ => b & 0x80 != 0
  }

  /** A byte is determined by its eight bits. */
  lemma SameBits(x: byte, y: byte)
    requires forall n :: 0 <= n < 8 ==> Has(x, n) == Has(y, n)
    ensures x == y
  {
    assert Has(x, 0) == Has(y, 0) && Has(x, 1) == Has(y, 1) && Has(x, 2) == Has(y, 2) && Has(x, 3) == Has(y, 3);
    assert Has(x, 4) == Has(y, 4) && Has(x, 5) == Has(y, 5) && Has(x, 6) == Has(y, 6) && Has(x, 7) == Has(y, 7);
  }

  lemma XorCancels(x: byte, k: byte)
    ensures (x ^ k) ^ k == x
  {}

  lemma XorCancels32(x: bv32, k: bv32)
    ensures (x ^ k) ^ k == x
  {}

  function XorByte(a: byte, b: byte): byte {
    a ^ b
  }

  function Zeros(n: nat): (z: seq<byte>)
    ensures |z| == n && forall i :: 0 <= i < n ==> z[i] == 0
  {
    seq(n, _ => 0)
  }

  /** A run of bytes xored with a run of the same length. */
  function Xor(s: seq<byte>, t: seq<byte>): (r: seq<byte>)
    requires |s| == |t|
    ensures |r| == |s| && forall i :: 0 <= i < |s| ==> r[i] == s[i] ^ t[i]
  {
    seq(|s|, i requires 0 <= i < |s| => s[i] ^ t[i])
  }

  lemma XorTwice(s: seq<byte>, t: seq<byte>)
    requires |s| == |t|
    ensures Xor(Xor(s, t), t) == s
  {
    forall i | 0 <= i < |s| ensures Xor(Xor(s, t), t)[i] == s[i] {
      XorCancels(s[i], t[i]);
    }
  }

  // ---- Lengths as big-endian bytes

  function ToByte(n: nat): byte {
    (n % 256) as bv8
  }

  /** The byte `(n >> 8 * k)`, truncated. */
  function ByteAt(n: nat, k: nat): byte {
    if k == 0 then ToByte(n) else ByteAt(n / 256, k - 1)
  }

  /** The last `k` bytes of `n`, most significant first. */
  function BigEndian(n: nat, k: nat): (s: seq<byte>)
    ensures |s| == k
  {
    hide ToByte;
    if k == 0 then [] else BigEndian(n / 256, k - 1) + [ToByte(n)]
  }

  lemma {:induction false} BigEndianAt(n: nat, k: nat, i: nat)
    requires i < k
    ensures BigEndian(n, k)[i] == ByteAt(n, k - 1 - i)
  {
    hide ToByte;
    if i < k - 1 {
      BigEndianAt(n / 256, k - 1, i);
    }
  }
}
