/** SHA-1 and SHA-256 as FIPS 180-4 defines them. */
module HashSpec {
  import opened Bits

  datatype Algorithm = Sha1 | Sha256

  function Rol(v: bv32, n: nat): bv32
    requires 0 < n < 32
  {
    (v << n) | (v >> (32 - n))
  }

  function Ror(v: bv32, n: nat): bv32
    requires 0 < n < 32
  {
    (v >> n) | (v << (32 - n))
  }

  function Plus(a: bv32, b: bv32): bv32 {
    a + b
  }

  function Choose(x: bv32, y: bv32, z: bv32): bv32 {
    (x & y) ^ (!x & z)
  }

  function Parity(x: bv32, y: bv32, z: bv32): bv32 {
    x ^ y ^ z
  }

  function Majority(x: bv32, y: bv32, z: bv32): bv32 {
    (x & y) ^ (x & z) ^ (y & z)
  }

  /** Word `t` of a block. */
  function BlockWord(blk: seq<byte>, t: nat): bv32
    requires |blk| == 64 && t < 16
  {
    Word(blk[4 * t], blk[4 * t + 1], blk[4 * t + 2], blk[4 * t + 3])
  }

  // ---- SHA-1, sections 4.1.1, 4.2.1 and 6.1.2

  function Sha1Next(a: bv32, b: bv32, c: bv32, d: bv32): bv32 {
    Rol(a ^ b ^ c ^ d, 1)
  }

  function Sha1Word(blk: seq<byte>, t: nat): bv32
    requires |blk| == 64
  {
    if t < 16 then BlockWord(blk, t)
    else Sha1Next(Sha1Word(blk, t - 3), Sha1Word(blk, t - 8), Sha1Word(blk, t - 14), Sha1Word(blk, t - 16))
  }

  datatype Five = Five(a: bv32, b: bv32, c: bv32, d: bv32, e: bv32)

  function Sha1Mix(t: nat, b: bv32, c: bv32, d: bv32): bv32 {
    if t < 20 then Choose(b, c, d) else if t < 40 then Parity(b, c, d) else if t < 60 then Majority(b, c, d) else Parity(b, c, d)
  }

  function Sha1K(t: nat): bv32 {
    if t < 20 then 0x5A827999 else if t < 40 then 0x6ED9EBA1 else if t < 60 then 0x8F1BBCDC else 0xCA62C1D6
  }

  function Sha1Round(s: Five, t: nat, w: bv32): Five {
    Five(Plus(Plus(Plus(Plus(Rol(s.a, 5), Sha1Mix(t, s.b, s.c, s.d)), s.e), Sha1K(t)), w), s.a, Rol(s.b, 30), s.c, s.d)
  }

  function Sha1Rounds(h: Five, blk: seq<byte>, t: nat): Five
    requires |blk| == 64
  {
    if t == 0 then h else Sha1Round(Sha1Rounds(h, blk, t - 1), t - 1, Sha1Word(blk, t - 1))
  }

  function Sha1Block(h: Five, blk: seq<byte>): Five
    requires |blk| == 64
  {
    var s := Sha1Rounds(h, blk, 80);
    Five(Plus(h.a, s.a), Plus(h.b, s.b), Plus(h.c, s.c), Plus(h.d, s.d), Plus(h.e, s.e))
  }

  // ---- SHA-256, sections 4.1.2, 4.2.2 and 6.2.2

  function Low0(w: bv32): bv32 {
    Ror(w, 7) ^ Ror(w, 18) ^ (w >> 3)
  }

  function Low1(w: bv32): bv32 {
    Ror(w, 17) ^ Ror(w, 19) ^ (w >> 10)
  }

  function Sum0(a: bv32): bv32 {
    Ror(a, 2) ^ Ror(a, 13) ^ Ror(a, 22)
  }

  function Sum1(e: bv32): bv32 {
    Ror(e, 6) ^ Ror(e, 11) ^ Ror(e, 25)
  }

  function Sha256Word(blk: seq<byte>, t: nat): bv32
    requires |blk| == 64
  {
    if t < 16 then BlockWord(blk, t)
    else Plus(Plus(Plus(Sha256Word(blk, t - 16), Low0(Sha256Word(blk, t - 15))), Sha256Word(blk, t - 7)), Low1(Sha256Word(blk, t - 2)))
  }

  function Sha256K(t: nat): bv32
    requires t < 64
  {
    match t
    case 0 => 0x428a2f98 case 1 => 0x71374491 case 2 => 0xb5c0fbcf case 3 => 0xe9b5dba5
    case 4 => 0x3956c25b case 5 => 0x59f111f1 case 6 => 0x923f82a4 case 7 => 0xab1c5ed5
    case 8 => 0xd807aa98 case 9 => 0x12835b01 case 10 => 0x243185be case 11 => 0x550c7dc3
    case 12 => 0x72be5d74 case 13 => 0x80deb1fe case 14 => 0x9bdc06a7 case 15 => 0xc19bf174
    case 16 => 0xe49b69c1 case 17 => 0xefbe4786 case 18 => 0x0fc19dc6 case 19 => 0x240ca1cc
    case 20 => 0x2de92c6f case 21 => 0x4a7484aa case 22 => 0x5cb0a9dc case 23 => 0x76f988da
    case 24 => 0x983e5152 case 25 => 0xa831c66d case 26 => 0xb00327c8 case 27 => 0xbf597fc7
    case 28 => 0xc6e00bf3 case 29 => 0xd5a79147 case 30 => 0x06ca6351 case 31 => 0x14292967
    case 32 => 0x27b70a85 case 33 => 0x2e1b2138 case 34 => 0x4d2c6dfc case 35 => 0x53380d13
    case 36 => 0x650a7354 case 37 => 0x766a0abb case 38 => 0x81c2c92e case 39 => 0x92722c85
    case 40 => 0xa2bfe8a1 case 41 => 0xa81a664b case 42 => 0xc24b8b70 case 43 => 0xc76c51a3
    case 44 => 0xd192e819 case 45 => 0xd6990624 case 46 => 0xf40e3585 case 47 => 0x106aa070
    case 48 => 0x19a4c116 case 49 => 0x1e376c08 case 50 => 0x2748774c case 51 => 0x34b0bcb5
    case 52 => 0x391c0cb3 case 53 => 0x4ed8aa4a case 54 => 0x5b9cca4f case 55 => 0x682e6ff3
    case 56 => 0x748f82ee case 57 => 0x78a5636f case 58 => 0x84c87814 case 59 => 0x8cc70208
    case 60 => 0x90befffa case 61 => 0xa4506ceb case 62 => 0xbef9a3f7 case _ => 0xc67178f2
  }

  datatype Eight = Eight(a: bv32, b: bv32, c: bv32, d: bv32, e: bv32, f: bv32, g: bv32, h: bv32)

  function Sha256Round(s: Eight, t: nat, w: bv32): Eight
    requires t < 64
  {
    var t1 := Plus(Plus(Plus(Plus(s.h, Sum1(s.e)), Choose(s.e, s.f, s.g)), Sha256K(t)), w);
    var t2 := Plus(Sum0(s.a), Majority(s.a, s.b, s.c));
    Eight(Plus(t1, t2), s.a, s.b, s.c, Plus(s.d, t1), s.e, s.f, s.g)
  }

  function Sha256Rounds(h: Eight, blk: seq<byte>, t: nat): Eight
    requires |blk| == 64 && t <= 64
  {
    if t == 0 then h else Sha256Round(Sha256Rounds(h, blk, t - 1), t - 1, Sha256Word(blk, t - 1))
  }

  function Sha256Block(h: Eight, blk: seq<byte>): Eight
    requires |blk| == 64
  {
    var s := Sha256Rounds(h, blk, 64);
    Eight(Plus(h.a, s.a), Plus(h.b, s.b), Plus(h.c, s.c), Plus(h.d, s.d),
          Plus(h.e, s.e), Plus(h.f, s.f), Plus(h.g, s.g), Plus(h.h, s.h))
  }

  // ---- Both digests

  function Words(alg: Algorithm): nat {
    if alg == Sha1 then 5 else 8
  }

  /** The initial hash value, section 5.3. */
  function Start(alg: Algorithm): (h: seq<bv32>)
    ensures |h| == Words(alg)
  {
    match alg
    case Sha1 => [0x67452301, 0xEFCDAB89, 0x98BADCFE, 0x10325476, 0xC3D2E1F0]
    case Sha256 => [0x6a09e667, 0xbb67ae85, 0x3c6ef372, 0xa54ff53a, 0x510e527f, 0x9b05688c, 0x1f83d9ab, 0x5be0cd19]
  }

  /** One block. */
  function Compress(alg: Algorithm, h: seq<bv32>, blk: seq<byte>): (r: seq<bv32>)
    requires |h| == Words(alg) && |blk| == 64
    ensures |r| == Words(alg)
  {
    match alg
    case Sha1 =>
      var s := Sha1Block(Five(h[0], h[1], h[2], h[3], h[4]), blk);
      [s.a, s.b, s.c, s.d, s.e]
    case Sha256 =>
      var s := Sha256Block(Eight(h[0], h[1], h[2], h[3], h[4], h[5], h[6], h[7]), blk);
      [s.a, s.b, s.c, s.d, s.e, s.f, s.g, s.h]
  }

  /** The hash value after the `n` blocks of `s`. */
  function Fold(alg: Algorithm, h: seq<bv32>, s: seq<byte>, n: nat): (r: seq<bv32>)
    requires |h| == Words(alg) && |s| == 64 * n
    ensures |r| == Words(alg)
  {
    hide Compress;
    if n == 0 then h else Compress(alg, Fold(alg, h, s[..64 * (n - 1)], n - 1), s[64 * (n - 1)..])
  }

  /** How many zero bytes follow the mark: the least number that fills a block with the eight bytes of the length. */
  function Gap(len: nat): (k: nat)
    ensures k < 64 && (len + 1 + k + 8) % 64 == 0
  {
    (55 - len) % 64
  }

  /** The padded message of section 5.1.1. */
  function Padded(msg: seq<byte>): (p: seq<byte>)
    ensures |p| == |msg| + 1 + Gap(|msg|) + 8
  {
    msg + [0x80] + Zeros(Gap(|msg|)) + BigEndian(8 * |msg|, 8)
  }

  function Blocks(len: nat): (n: nat)
    ensures 64 * n == len + 1 + Gap(len) + 8
  {
    (len + 1 + Gap(len) + 8) / 64
  }

  function Joined(h: seq<bv32>): (s: seq<byte>)
    ensures |s| == 4 * |h|
  {
    if h == [] then [] else Joined(h[..|h| - 1]) + Bytes(h[|h| - 1])
  }

  function Digest(alg: Algorithm, msg: seq<byte>): (d: seq<byte>)
    ensures |d| == 4 * Words(alg)
  {
    Joined(Fold(alg, Start(alg), Padded(msg), Blocks(|msg|)))
  }
}
