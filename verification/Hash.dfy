/** The one-shot digests: whole blocks where they lie, then the padding in a buffer. */
module Hash {
  import opened Bits
  import opened HashSpec
  import HashBlocks

  method CompressAt(alg: Algorithm, h: array<bv32>, data: array<byte>, off: nat)
    requires h.Length == Words(alg) && off + 64 <= data.Length
    modifies h
    ensures h[..] == Compress(alg, old(h[..]), data[off..off + 64])
  {
    hide Compress;
    if alg == Sha1 {
      HashBlocks.CompressSha1(h, data, off);
    } else {
      HashBlocks.CompressSha256(h, data, off);
    }
  }

  // ---- The padding

  lemma FoldNext(alg: Algorithm, h: seq<bv32>, s: seq<byte>, blk: seq<byte>, n: nat)
    requires |h| == Words(alg) && |s| == 64 * n && |blk| == 64
    ensures Fold(alg, h, s + blk, n + 1) == Compress(alg, Fold(alg, h, s, n), blk)
  {
    hide Compress;
    assert (s + blk)[..64 * n] == s && (s + blk)[64 * n..] == blk;
  }

  lemma FoldNone(alg: Algorithm, h: seq<bv32>)
    requires |h| == Words(alg)
    ensures Fold(alg, h, [], 0) == h
  {
  }

  lemma GapIs(n: nat, r: nat)
    requires r < 64
    ensures Gap(64 * n + r) == if r < 56 then 55 - r else 119 - r
    ensures Blocks(64 * n + r) == if r < 56 then n + 1 else n + 2
  {
  }

  /** A short rest is padded in one block. */
  lemma PaddedOnce(head: seq<byte>, tail: seq<byte>, n: nat)
    requires |head| == 64 * n && |tail| < 56
    ensures Blocks(|head + tail|) == n + 1
    ensures Padded(head + tail) == head + (tail + [0x80] + Zeros(55 - |tail|) + BigEndian(8 * |head + tail|, 8))
  {
    hide BigEndian, Zeros;
    GapIs(n, |tail|);
  }

  /** A longer one is padded in two. */
  lemma PaddedTwice(head: seq<byte>, tail: seq<byte>, n: nat)
    requires |head| == 64 * n && 56 <= |tail| < 64
    ensures Blocks(|head + tail|) == n + 2
    ensures Padded(head + tail) ==
      head + (tail + [0x80] + Zeros(63 - |tail|)) + (Zeros(56) + BigEndian(8 * |head + tail|, 8))
  {
    hide BigEndian, Zeros;
    GapIs(n, |tail|);
    assert Zeros(119 - |tail|) == Zeros(63 - |tail|) + Zeros(56);
  }

  /** Fills the buffer with zeros up to `limit`. */
  method ZeroTo(buf: array<byte>, rem: nat, limit: nat, ghost s: seq<byte>)
    requires rem == |s| <= limit <= buf.Length && buf[..rem] == s
    modifies buf
    ensures buf[..limit] == s + Zeros(limit - rem)
  {
    var i := rem;
    while i < limit
      invariant rem <= i <= limit && buf[..i] == s + Zeros(i - rem)
    {
      ghost var was := buf[..i];
      buf[i] := 0;
      assert buf[..i] == was;
      i := i + 1;
    }
  }

  function LengthByte(bitlen: nat, i: nat): byte
    requires i < 8
  {
    ByteAt(bitlen, 7 - i)
  }

  method PutLength(buf: array<byte>, bitlen: nat, ghost s: seq<byte>)
    requires |s| == 56 && buf.Length >= 64 && buf[..56] == s
    modifies buf
    ensures buf[..64] == s + BigEndian(bitlen, 8)
  {
    hide ByteAt, BigEndian;
    var i := 0;
    while i < 8
      invariant 0 <= i <= 8 && buf[..56 + i] == s + BigEndian(bitlen, 8)[..i]
    {
      BigEndianAt(bitlen, 8, i);
      ghost var was := buf[..56 + i];
      buf[56 + i] := LengthByte(bitlen, i);
      assert buf[..56 + i] == was;
      i := i + 1;
    }
    assert BigEndian(bitlen, 8)[..8] == BigEndian(bitlen, 8);
  }

  /** The last one or two blocks. */
  method Finish(alg: Algorithm, h: array<bv32>, buf: array<byte>, rem0: nat, bitlen: nat, ghost head: seq<byte>, ghost tail: seq<byte>, ghost n: nat)
    requires h.Length == Words(alg) && buf.Length == 128 && rem0 == |tail| < 64 && buf[..rem0] == tail
    requires |head| == 64 * n && bitlen == 8 * |head + tail|
    requires h[..] == Fold(alg, Start(alg), head, n)
    modifies h, buf
    ensures h[..] == Fold(alg, Start(alg), Padded(head + tail), Blocks(|head + tail|))
  {
    hide Compress, Fold, Start, Zeros, BigEndian, Padded, Gap, Blocks;
    var rem := rem0;
    ghost var s := tail + [0x80];
    buf[rem] := 0x80;
    rem := rem + 1;
    assert buf[..rem] == s;
    ghost var size := BigEndian(bitlen, 8);
    if rem > 56 {
      ZeroTo(buf, rem, 64, s);
      ghost var blk := s + Zeros(64 - rem);
      assert buf[0..64] == blk;
      CompressAt(alg, h, buf, 0);
      FoldNext(alg, Start(alg), head, blk, n);
      rem := 0;
      ZeroTo(buf, 0, 56, []);
      assert buf[..56] == Zeros(56);
      PutLength(buf, bitlen, Zeros(56));
      assert buf[0..64] == Zeros(56) + size;
      CompressAt(alg, h, buf, 0);
      FoldNext(alg, Start(alg), head + blk, Zeros(56) + size, n + 1);
      PaddedTwice(head, tail, n);
    } else {
      ZeroTo(buf, rem, 56, s);
      PutLength(buf, bitlen, s + Zeros(56 - rem));
      assert buf[0..64] == s + Zeros(56 - rem) + size;
      CompressAt(alg, h, buf, 0);
      FoldNext(alg, Start(alg), head, s + Zeros(56 - rem) + size, n);
      PaddedOnce(head, tail, n);
    }
  }

  // ---- The digests

  method PutWords(out: array<byte>, h: array<bv32>)
    requires out.Length >= 4 * h.Length
    modifies out
    ensures out[..4 * h.Length] == Joined(h[..]) && out[4 * h.Length..] == old(out[4 * h.Length..])
  {
    hide Bytes;
    ghost var tail := out[4 * h.Length..];
    ghost var w := h[..];
    var i := 0;
    while i < h.Length
      invariant 0 <= i <= h.Length && h[..] == w
      invariant out[..4 * i] == Joined(w[..i]) && out[4 * h.Length..] == tail
    {
      PutWord(out, h[i], i);
      assert w[..i + 1][..i] == w[..i];
      i := i + 1;
    }
    assert w[..i] == w;
  }

  method PutWord(out: array<byte>, w: bv32, i: nat)
    requires 4 * i + 4 <= out.Length
    modifies out
    ensures out[..4 * i + 4] == old(out[..4 * i]) + Bytes(w) && out[4 * i + 4..] == old(out[4 * i + 4..])
  {
    hide B0, B1, B2, B3;
    ghost var head, tail := out[..4 * i], out[4 * i + 4..];
    out[i * 4] := B0(w);
    out[i * 4 + 1] := B1(w);
    out[i * 4 + 2] := B2(w);
    out[i * 4 + 3] := B3(w);
    assert out[..4 * i] == head;
  }

  method StartWords(alg: Algorithm) returns (h: array<bv32>)
    ensures fresh(h) && h.Length == Words(alg) && h[..] == Start(alg)
  {
    var s := Start(alg);
    h := new bv32[Words(alg)](i requires 0 <= i < |s| => s[i]);
  }

  /** The digest of the first `len` bytes; `out` may be `data` itself. */
  method Compute(alg: Algorithm, data: array<byte>, len: nat, out: array<byte>)
    requires len <= data.Length && out.Length >= 4 * Words(alg)
    modifies out
    ensures out[..4 * Words(alg)] == Digest(alg, old(data[..len]))
    ensures out[4 * Words(alg)..] == old(out[4 * Words(alg)..])
  {
    hide Compress, Fold, Start, Padded, Gap, Blocks, Joined;
    ghost var msg, all := data[..len], out[..];
    var h := StartWords(alg);
    FoldNone(alg, Start(alg));
    var i := 0;
    ghost var n := 0;
    while i + 64 <= len
      invariant i == 64 * n <= len && data[..len] == msg && out[..] == all
      invariant h[..] == Fold(alg, Start(alg), msg[..i], n)
    {
      assert data[i..i + 64] == data[..len][i..i + 64] == msg[i..i + 64];
      assert msg[..i + 64] == msg[..i] + msg[i..i + 64];
      CompressAt(alg, h, data, i);
      FoldNext(alg, Start(alg), msg[..i], msg[i..i + 64], n);
      i, n := i + 64, n + 1;
    }
    var rem := len - i;
    var buf := new byte[128];
    ghost var head, tail := msg[..i], msg[i..];
    Copy(buf, 0, data, i, rem);
    assert msg == head + tail && buf[..rem] == tail;
    Finish(alg, h, buf, rem, len * 8, head, tail, n);
    assert out[..] == all;
    PutWords(out, h);
    DigestIs(alg, msg);
  }

  lemma DigestIs(alg: Algorithm, msg: seq<byte>)
    ensures Digest(alg, msg) == Joined(Fold(alg, Start(alg), Padded(msg), Blocks(|msg|)))
  {
  }

  /** `memcpy` between different arrays. */
  method Copy(to: array<byte>, at: nat, from: array<byte>, off: nat, n: nat)
    requires at + n <= to.Length && off + n <= from.Length && to != from
    modifies to
    ensures to[at..at + n] == from[off..off + n]
    ensures to[..at] == old(to[..at]) && to[at + n..] == old(to[at + n..])
  {
    forall i | 0 <= i < n {
      to[at + i] := from[off + i];
    }
  }
}
