/** The authenticated mode of the byte-wise AES-256. The tag is what the program computes; it is not the tag of
    NIST SP 800-38D. */
module AesGcm {
  import opened Bits
  import opened AesSpec
  import opened AesModes
  import AesBytes

  // ---- The authentication hash, as the program computes it

  function ShiftUp(a: byte, next: byte): byte {
    (a << 1) | (next >> 7)
  }

  function ShiftLast(a: byte, carry: bool): byte {
    (a << 1) ^ (if carry then 0xe1 else 0)
  }

  /** Sixteen bytes shifted left by one bit, the bit that falls out folded back at the end. */
  function Double(v: seq<byte>): (r: seq<byte>)
    requires |v| == 16
    ensures |r| == 16
  {
    seq(16, k requires 0 <= k < 16 => if k < 15 then ShiftUp(v[k], v[k + 1]) else ShiftLast(v[15], Has(v[0], 7)))
  }

  /** The sum so far, and the multiple to add next. */
  datatype Acc = Acc(z: seq<byte>, v: seq<byte>) {
    predicate Valid() { |z| == 16 && |v| == 16 }
  }

  function BitStep(a: Acc, on: bool): (r: Acc)
    requires a.Valid()
    ensures r.Valid()
  {
    Acc(if on then Xor(a.z, a.v) else a.z, Double(a.v))
  }

  /** The `j` high bits of one byte of the factor. */
  function BitSteps(a: Acc, b: byte, j: nat): (r: Acc)
    requires a.Valid() && j <= 8
    ensures r.Valid()
  {
    hide BitStep;
    if j == 0 then a else BitStep(BitSteps(a, b, j - 1), Has(b, 8 - j))
  }

  function ByteSteps(a: Acc, x: seq<byte>, i: nat): (r: Acc)
    requires a.Valid() && i <= |x|
    ensures r.Valid()
  {
    if i == 0 then a else BitSteps(ByteSteps(a, x, i - 1), x[i - 1], 8)
  }

  /** `y`, plus the product of `h` and `x` that the program computes. */
  function AddProduct(y: seq<byte>, h: seq<byte>, x: seq<byte>): (r: seq<byte>)
    requires |y| == 16 && |h| == 16 && |x| == 16
    ensures |r| == 16
  {
    hide ByteSteps, Xor;
    Xor(y, ByteSteps(Acc(Zeros(16), h), x, 16).z)
  }

  function HashBlocks(h: seq<byte>, ct: seq<byte>, n: nat): (y: seq<byte>)
    requires |h| == 16 && 16 * n <= |ct|
    ensures |y| == 16
  {
    hide AddProduct;
    if n == 0 then Zeros(16) else AddProduct(HashBlocks(h, ct, n - 1), h, ct[16 * (n - 1)..16 * n])
  }

  function LengthBlock(len: nat): (b: seq<byte>)
    ensures |b| == 16
  {
    hide BigEndian;
    Zeros(8) + BigEndian(8 * len, 8)
  }

  function Ghash(h: seq<byte>, ct: seq<byte>): (y: seq<byte>)
    requires |h| == 16
    ensures |y| == 16
  {
    hide AddProduct, HashBlocks, LengthBlock;
    var n := |ct| / 16;
    var whole := HashBlocks(h, ct, n);
    var all := if |ct| % 16 == 0 then whole else AddProduct(whole, h, ct[16 * n..] + Zeros(16 - |ct| % 16));
    AddProduct(all, h, LengthBlock(|ct|))
  }

  function FirstCounter(iv: seq<byte>): (c: seq<byte>)
    requires |iv| == 12
    ensures |c| == 16
  {
    iv + [0, 0, 0, 1]
  }

  function Tag(w: seq<bv32>, iv: seq<byte>, ct: seq<byte>): (t: seq<byte>)
    requires |w| == 60 && |iv| == 12
    ensures |t| == 16
  {
    hide Enc, Ghash, Xor, FirstCounter;
    Xor(Ghash(Enc(w, Zeros(16)), ct), Enc(w, FirstCounter(iv)))
  }

  datatype Opened = Plain(pt: seq<byte>) | BadTag

  function Open(w: seq<bv32>, iv: seq<byte>, ct: seq<byte>, tag: seq<byte>): Opened
    requires |w| == 60 && |iv| == 12 && |tag| == 16
  {
    if tag == Tag(w, iv, ct) then Plain(Ctr(w, FirstCounter(iv), ct)) else BadTag
  }

  /** Opening what was sealed under the same key and vector succeeds and gives the plaintext, for every length. */
  lemma GcmRoundTrip(w: seq<bv32>, iv: seq<byte>, pt: seq<byte>)
    requires |w| == 60 && |iv| == 12
    ensures
      var ct := Ctr(w, FirstCounter(iv), pt);
      Open(w, iv, ct, Tag(w, iv, ct)) == Plain(pt)
  {
    hide Ctr, Tag, FirstCounter;
    CtrRoundTrip(w, FirstCounter(iv), pt);
  }

  // ---- The loops

  method DoubleInPlace(v: array<byte>)
    requires v.Length == 16
    modifies v
    ensures v[..] == Double(old(v[..]))
  {
    hide Has, ShiftUp, ShiftLast;
    ghost var was := v[..];
    var carry := Has(v[0], 7);
    var k := 0;
    while k < 15
      invariant 0 <= k <= 15
      invariant forall q :: 0 <= q < k ==> v[q] == ShiftUp(was[q], was[q + 1])
      invariant forall q :: k <= q < 16 ==> v[q] == was[q]
    {
      v[k] := ShiftUp(v[k], v[k + 1]);
      k := k + 1;
    }
    v[15] := ShiftLast(v[15], carry);
  }

  /** The two nested loops over the bits of the factor, then the addition to `y`. */
  method Gf128Mul(y: array<byte>, h: seq<byte>, x: seq<byte>)
    requires y.Length == 16 && |h| == 16 && |x| == 16
    modifies y
    ensures y[..] == AddProduct(old(y[..]), h, x)
  {
    hide *;
    ghost var was := y[..];
    var z := new byte[16](_ => 0);
    var v := new byte[16](i requires 0 <= i < 16 => h[i]);
    ghost var a := Acc(z[..], v[..]);
    assert z[..] == Zeros(16) && v[..] == h;
    ByteStepsZero(a, x);
    var i := 0;
    while i < 16
      invariant 0 <= i <= 16 && y[..] == was
      invariant Acc(z[..], v[..]) == ByteSteps(a, x, i)
    {
      MulByte(z, v, x[i]);
      ByteStepsNext(a, x, i);
      i := i + 1;
    }
    AddProductIs(was, h, x);
    XorInto(y, z);
  }

  lemma ByteStepsZero(a: Acc, x: seq<byte>)
    requires |a.z| == 16 && |a.v| == 16
    ensures a.Valid() && ByteSteps(a, x, 0) == a
  {}

  lemma ByteStepsNext(a: Acc, x: seq<byte>, i: nat)
    requires a.Valid() && i < |x|
    ensures ByteSteps(a, x, i + 1) == BitSteps(ByteSteps(a, x, i), x[i], 8)
  {
    hide BitSteps;
  }

  lemma AddProductIs(y: seq<byte>, h: seq<byte>, x: seq<byte>)
    requires |y| == 16 && |h| == 16 && |x| == 16
    ensures Acc(Zeros(16), h).Valid() && AddProduct(y, h, x) == Xor(y, ByteSteps(Acc(Zeros(16), h), x, 16).z)
  {
    hide ByteSteps, Xor, Zeros;
  }

  lemma BitStepsNext(a: Acc, b: byte, j: nat)
    requires |a.z| == 16 && |a.v| == 16 && j < 8
    ensures a.Valid() && BitSteps(a, b, 0) == a && BitSteps(a, b, j + 1) == BitStep(BitSteps(a, b, j), Has(b, 7 - j))
  {
    hide BitStep;
  }

  method MulByte(z: array<byte>, v: array<byte>, b: byte)
    requires z.Length == 16 && v.Length == 16 && z != v
    requires Acc(z[..], v[..]).Valid()
    modifies z, v
    ensures old(Acc(z[..], v[..])).Valid()
    ensures Acc(z[..], v[..]) == BitSteps(old(Acc(z[..], v[..])), b, 8)
  {
    hide *;
    ghost var a := Acc(z[..], v[..]);
    BitStepsNext(a, b, 0);
    var j := 0;
    while j < 8
      invariant 0 <= j <= 8
      invariant Acc(z[..], v[..]) == BitSteps(a, b, j)
    {
      BitStepsNext(a, b, j);
      MulBit(z, v, Has(b, 7 - j));
      j := j + 1;
    }
  }

  method MulBit(z: array<byte>, v: array<byte>, on: bool)
    requires z.Length == 16 && v.Length == 16 && z != v
    modifies z, v
    ensures old(Acc(z[..], v[..])).Valid()
    ensures Acc(z[..], v[..]) == BitStep(old(Acc(z[..], v[..])), on)
  {
    hide Double, Xor;
    if on { XorInto(z, v); }
    DoubleInPlace(v);
  }

  method XorInto(y: array<byte>, z: array<byte>)
    requires y.Length == 16 && z.Length == 16 && y != z
    modifies y
    ensures y[..] == Xor(old(y[..]), z[..])
  {
    forall k | 0 <= k < 16 { y[k] := y[k] ^ z[k]; }
  }

  method GhashOf(h: seq<byte>, ct: seq<byte>) returns (out: array<byte>)
    requires |h| == 16
    ensures fresh(out) && out.Length == 16 && out[..] == Ghash(h, ct)
  {
    hide AddProduct, LengthBlock;
    out := new byte[16](_ => 0);
    assert out[..] == Zeros(16);
    var nblocks := |ct| / 16;
    var i := 0;
    while i < nblocks
      invariant 0 <= i <= nblocks && out[..] == HashBlocks(h, ct, i)
    {
      Gf128Mul(out, h, ct[16 * i..16 * (i + 1)]);
      i := i + 1;
    }
    if |ct| % 16 != 0 {
      Gf128Mul(out, h, ct[16 * nblocks..] + Zeros(16 - |ct| % 16));
    }
    var lblock := LengthInto(|ct|);
    Gf128Mul(out, h, lblock[..]);
  }

  method LengthInto(len: nat) returns (lblock: array<byte>)
    ensures fresh(lblock) && lblock.Length == 16 && lblock[..] == LengthBlock(len)
  {
    hide BigEndian, ByteAt;
    lblock := new byte[16](_ => 0);
    var i := 0;
    while i < 8
      invariant 0 <= i <= 8
      invariant forall q :: 0 <= q < 8 + i ==> lblock[q] == LengthBlock(len)[q]
    {
      BigEndianAt(8 * len, 8, i);
      lblock[8 + i] := ByteAt(8 * len, 7 - i);
      i := i + 1;
    }
  }

  method Encrypt(key: seq<byte>, iv: seq<byte>, pt: seq<byte>, ct: array<byte>, tag: array<byte>)
    requires |key| == 32 && |iv| == 12 && |pt| <= ct.Length && tag.Length == 16 && ct != tag
    modifies ct, tag
    ensures ct[..|pt|] == Ctr(Schedule(key), FirstCounter(iv), pt) && ct[|pt|..] == old(ct[|pt|..])
    ensures tag[..] == Tag(Schedule(key), iv, ct[..|pt|])
  {
    hide *;
    ScheduleIs(key);
    var rk := AesBytes.KeySchedule(key);
    ghost var w := rk[..];
    forall i | 0 <= i < |pt| { ct[i] := pt[i]; }
    assert ct[..|pt|] == pt && rk[..] == w;
    var ctr := new byte[16](i requires 0 <= i < 16 => FirstCounter(iv)[i]);
    assert ctr[..] == FirstCounter(iv);
    CtrInPlace(rk, ctr, ct, |pt|);
    var t := TagOf(rk, iv, ct[..|pt|]);
    ghost var sealed := ct[..];
    forall i | 0 <= i < 16 { tag[i] := t[i]; }
    assert tag[..] == t && ct[..] == sealed;
  }

  method TagOf(rk: array<bv32>, iv: seq<byte>, ct: seq<byte>) returns (t: seq<byte>)
    requires rk.Length == 60 && |iv| == 12
    ensures t == Tag(rk[..], iv, ct)
  {
    hide CipherBlock, Ghash, Zeros, FirstCounter;
    var H := AesBytes.EncryptBlock(rk, Zeros(16));
    var s := GhashOf(H, ct);
    var ej0 := AesBytes.EncryptBlock(rk, FirstCounter(iv));
    t := seq(16, i requires 0 <= i < 16 reads s => s[i] ^ ej0[i]);
    assert t == Xor(s[..], ej0);
  }

  /** -1 when the tag does not fit, and then the plaintext buffer is not touched. */
  method Decrypt(key: seq<byte>, iv: seq<byte>, ct: seq<byte>, tag: seq<byte>, pt: array<byte>) returns (status: int)
    requires |key| == 32 && |iv| == 12 && |tag| == 16 && |ct| <= pt.Length
    modifies pt
    ensures
      match Open(Schedule(key), iv, ct, tag)
      case Plain(p) => status == 0 && pt[..|ct|] == p && pt[|ct|..] == old(pt[|ct|..])
      case BadTag => status == -1 && pt[..] == old(pt[..])
  {
    hide *;
    ScheduleIs(key);
    OpenIs(Schedule(key), iv, ct, tag);
    var rk := AesBytes.KeySchedule(key);
    ghost var w := rk[..];
    var t := TagOf(rk, iv, ct);
    var i := 0;
    while i < 16
      invariant 0 <= i <= 16 && forall q :: 0 <= q < i ==> t[q] == tag[q]
    {
      if t[i] != tag[i] { return -1; }
      i := i + 1;
    }
    assert t == tag;
    forall i | 0 <= i < |ct| { pt[i] := ct[i]; }
    assert pt[..|ct|] == ct && rk[..] == w;
    var ctr := new byte[16](i requires 0 <= i < 16 => FirstCounter(iv)[i]);
    assert ctr[..] == FirstCounter(iv);
    CtrInPlace(rk, ctr, pt, |ct|);
    return 0;
  }

  lemma OpenIs(w: seq<bv32>, iv: seq<byte>, ct: seq<byte>, tag: seq<byte>)
    requires |w| == 60 && |iv| == 12 && |tag| == 16
    ensures Open(w, iv, ct, tag) == if tag == Tag(w, iv, ct) then Plain(Ctr(w, FirstCounter(iv), ct)) else BadTag
  {
    hide Tag, Ctr, FirstCounter;
  }
}
