/** Keyed hashing and the derivation of keys from passwords, on SHA-256. */
module Hmac {
  import opened Bits
  import opened HashSpec
  import Hash

  function Sha(msg: seq<byte>): (d: seq<byte>)
    ensures |d| == 32
  {
    Digest(Sha256, msg)
  }

  function Repeated(b: byte, n: nat): (s: seq<byte>)
    ensures |s| == n && forall i :: 0 <= i < n ==> s[i] == b
  {
    if n == 0 then [] else Repeated(b, n - 1) + [b]
  }

  /** A key longer than a block is hashed, and filled up with zeros to a block. */
  function BlockKey(key: seq<byte>): (k: seq<byte>)
    ensures |k| == 64
  {
    hide Sha, Zeros;
    if |key| > 64 then Sha(key) + Zeros(32) else key + Zeros(64 - |key|)
  }

  /** Section 2 of RFC 2104. */
  function Mac(key: seq<byte>, text: seq<byte>): (d: seq<byte>)
    ensures |d| == 32
  {
    hide Sha, BlockKey, Xor;
    var k := BlockKey(key);
    Sha(Xor(k, Repeated(0x5c, 64)) + Sha(Xor(k, Repeated(0x36, 64)) + text))
  }

  /** The key block of the source. */
  method LoadKey(key: array<byte>, keylen: nat) returns (k: array<byte>)
    requires keylen <= key.Length
    ensures fresh(k) && k.Length == 64 && k[..] == BlockKey(key[..keylen])
  {
    hide Digest;
    k := new byte[64](_ => 0);
    if keylen > 64 {
      var ih := new byte[32];
      Hash.Compute(Sha256, key, keylen, ih);
      Hash.Copy(k, 0, ih, 0, 32);
      assert k[0..32] == ih[..32] == Sha(key[..keylen]);
      assert k[..] == k[0..32] + k[32..];
      assert k[32..] == Zeros(32);
    } else {
      Hash.Copy(k, 0, key, 0, keylen);
      assert k[0..keylen] == key[..keylen];
      assert k[..] == k[0..keylen] + k[keylen..];
      assert k[keylen..] == Zeros(64 - keylen);
    }
  }

  /** Hashes a block that is xored with `pad`, followed by `text`. */
  method HashKeyed(k: array<byte>, pad: byte, text: array<byte>, len: nat, out: array<byte>)
    requires k.Length == 64 && len <= text.Length && out.Length >= 32
    modifies out
    ensures out[..32] == Sha(Xor(old(k[..]), Repeated(pad, 64)) + old(text[..len])) && out[32..] == old(out[32..])
  {
    hide Digest, Repeated;
    ghost var keyed, m := Xor(k[..], Repeated(pad, 64)), text[..len];
    var tmp := new byte[64 + len];
    forall i | 0 <= i < 64 {
      tmp[i] := k[i] ^ pad;
    }
    assert tmp[..64] == keyed;
    assert text[0..len] == m;
    Hash.Copy(tmp, 64, text, 0, len);
    assert tmp[..64] == keyed && tmp[64..64 + len] == m;
    ghost var all := tmp[..64 + len];
    assert all == keyed + m;
    Hash.Compute(Sha256, tmp, 64 + len, out);
  }

  /** `ccam3_hmac_sha256`; `out` may be `text` itself. */
  method Compute(key: array<byte>, keylen: nat, text: array<byte>, len: nat, out: array<byte>)
    requires keylen <= key.Length && len <= text.Length && out.Length >= 32
    modifies out
    ensures out[..32] == Mac(old(key[..keylen]), old(text[..len])) && out[32..] == old(out[32..])
  {
    hide Sha, BlockKey, Repeated, Xor;
    ghost var k0, m := BlockKey(key[..keylen]), text[..len];
    var k := LoadKey(key, keylen);
    var ih := new byte[32];
    HashKeyed(k, 0x36, text, len, ih);
    assert ih[..32] == Sha(Xor(k0, Repeated(0x36, 64)) + m);
    HashKeyed(k, 0x5c, ih, 32, out);
  }

  // ---- Keys from passwords

  /** The four bytes of a block number. */
  function Int(block: bv32): (s: seq<byte>)
    ensures |s| == 4
  {
    Bytes(block)
  }

  /** `U_j` of section 5.2 of RFC 8018, for `j` from 1. */
  function U(pass: seq<byte>, salt: seq<byte>, block: bv32, j: nat): (u: seq<byte>)
    requires j >= 1
    ensures |u| == 32
  {
    hide Mac, Int;
    if j == 1 then Mac(pass, salt + Int(block)) else Mac(pass, U(pass, salt, block, j - 1))
  }

  /** `F(P, S, c, i)`: the first `c` of them, xored. */
  function F(pass: seq<byte>, salt: seq<byte>, c: nat, block: bv32): (t: seq<byte>)
    requires c >= 1
    ensures |t| == 32
  {
    hide U, Xor;
    if c == 1 then U(pass, salt, block, 1) else Xor(F(pass, salt, c - 1, block), U(pass, salt, block, c))
  }

  function Successor(b: bv32): bv32 {
    b + 1
  }

  function Number(n: nat): bv32 {
    if n == 0 then 0 else Successor(Number(n - 1))
  }

  /** The first `n` blocks of the derived key. */
  function Blocks(pass: seq<byte>, salt: seq<byte>, c: nat, n: nat): (t: seq<byte>)
    requires c >= 1
    ensures |t| == 32 * n
  {
    hide F;
    if n == 0 then [] else Blocks(pass, salt, c, n - 1) + F(pass, salt, c, Number(n))
  }

  /** Fewer than one iteration counts as one. */
  function Count(iterations: int): (c: nat)
    ensures c >= 1
  {
    if iterations < 1 then 1 else iterations
  }

  method XorInto(t: array<byte>, u: array<byte>)
    requires t.Length == u.Length == 32 && t != u
    modifies t
    ensures t[..] == Xor(old(t[..]), u[..])
  {
    forall j | 0 <= j < 32 {
      t[j] := t[j] ^ u[j];
    }
  }

  /** One block of the derived key; `u` is hashed where it lies. */
  method OneBlock(pass: array<byte>, passlen: nat, salt: array<byte>, saltlen: nat, iterations: int, block: bv32) returns (t: array<byte>)
    requires passlen <= pass.Length && saltlen <= salt.Length
    ensures fresh(t) && t.Length == 32
    ensures t[..] == F(pass[..passlen], salt[..saltlen], Count(iterations), block)
  {
    hide Mac, Int, U, F, Xor;
    ghost var p, s := pass[..passlen], salt[..saltlen];
    var tmp := new byte[saltlen + 4];
    Hash.Copy(tmp, 0, salt, 0, saltlen);
    PutNumber(tmp, saltlen, block);
    assert tmp[..saltlen + 4] == s + Int(block);
    var u := new byte[32];
    Compute(pass, passlen, tmp, saltlen + 4, u);
    t := new byte[32];
    Hash.Copy(t, 0, u, 0, 32);
    UFirst(p, s, block);
    assert u[..] == u[..32] == u[0..32] && t[..] == t[0..32];
    var i := 1;
    while i < iterations
      invariant 1 <= i <= Count(iterations)
      invariant u[..] == U(p, s, block, i) && t[..] == F(p, s, i, block)
      invariant pass[..passlen] == p
    {
      ghost var before := u[..];
      assert u[..32] == before;
      Compute(pass, passlen, u, 32, u);
      assert u[..] == u[..32] == Mac(p, before);
      UNext(p, s, block, i);
      XorInto(t, u);
      i := i + 1;
    }
  }

  lemma UFirst(pass: seq<byte>, salt: seq<byte>, block: bv32)
    ensures U(pass, salt, block, 1) == Mac(pass, salt + Int(block)) == F(pass, salt, 1, block)
  {
    hide Mac, Int;
  }

  lemma UNext(pass: seq<byte>, salt: seq<byte>, block: bv32, i: nat)
    requires i >= 1
    ensures U(pass, salt, block, i + 1) == Mac(pass, U(pass, salt, block, i))
    ensures F(pass, salt, i + 1, block) == Xor(F(pass, salt, i, block), U(pass, salt, block, i + 1))
  {
    hide Mac, Int, Xor;
  }

  method PutNumber(tmp: array<byte>, at: nat, block: bv32)
    requires at + 4 <= tmp.Length
    modifies tmp
    ensures tmp[at..at + 4] == Int(block) && tmp[..at] == old(tmp[..at])
  {
    hide B0, B1, B2, B3;
    tmp[at] := B0(block);
    tmp[at + 1] := B1(block);
    tmp[at + 2] := B2(block);
    tmp[at + 3] := B3(block);
  }

  function BlockCount(outlen: nat): (n: nat)
    ensures outlen <= 32 * n < outlen + 32
  {
    (outlen + 31) / 32
  }

  /** The derived key of section 5.2 of RFC 8018. */
  function Derived(pass: seq<byte>, salt: seq<byte>, c: nat, outlen: nat): (k: seq<byte>)
    requires c >= 1
    ensures |k| == outlen
  {
    Blocks(pass, salt, c, BlockCount(outlen))[..outlen]
  }

  lemma NumberNext(n: nat)
    ensures Number(1) == 1 && Number(n + 1) == Successor(Number(n))
  {
  }

  lemma BlocksNext(pass: seq<byte>, salt: seq<byte>, c: nat, n: nat, m: nat)
    requires c >= 1 && m <= 32
    ensures var t := F(pass, salt, c, Number(n + 1));
      Blocks(pass, salt, c, n + 1)[..32 * n + m] == Blocks(pass, salt, c, n) + t[..m]
  {
    hide F, Number;
  }

  /** `ccam3_pbkdf2_sha256`. */
  method Pbkdf2(pass: array<byte>, passlen: nat, salt: array<byte>, saltlen: nat, iterations: int, out: array<byte>, outlen: nat)
    requires passlen <= pass.Length && saltlen <= salt.Length && outlen <= out.Length
    requires out != pass && out != salt
    modifies out
    ensures out[..outlen] == Derived(pass[..passlen], salt[..saltlen], Count(iterations), outlen)
    ensures out[outlen..] == old(out[outlen..])
  {
    hide F, Number, Blocks, Successor;
    ghost var p, s, c, tail := pass[..passlen], salt[..saltlen], Count(iterations), out[outlen..];
    ghost var n := 0;
    var block, done := 1 as bv32, 0;
    NumberNext(0);
    while done < outlen
      invariant done == (if 32 * n < outlen then 32 * n else outlen) && 32 * n < outlen + 32
      invariant block == Number(n + 1)
      invariant pass[..passlen] == p && salt[..saltlen] == s && out[outlen..] == tail
      invariant out[..done] == Blocks(p, s, c, n)[..done]
    {
      var m := if outlen - done < 32 then outlen - done else 32;
      var t := OneBlock(pass, passlen, salt, saltlen, iterations, block);
      ghost var head, f := out[..done], F(p, s, c, Number(n + 1));
      assert head == Blocks(p, s, c, n) && t[..] == f && t[..m] == f[..m];
      PutBlock(out, done, outlen, t, m);
      BlocksNext(p, s, c, n, m);
      NumberNext(n + 1);
      assert out[..done + m] == Blocks(p, s, c, n + 1)[..done + m];
      done := done + m;
      n := n + 1;
      block := Successor(block);
    }
  }

  method PutBlock(out: array<byte>, done: nat, outlen: nat, t: array<byte>, m: nat)
    requires t.Length == 32 && m <= 32 && done + m <= outlen <= out.Length && t != out
    modifies out
    ensures out[..done + m] == old(out[..done]) + t[..m] && out[outlen..] == old(out[outlen..])
  {
    ghost var rest, head := out[outlen..], out[..done];
    assert out[done + m..][outlen - (done + m)..] == rest;
    Hash.Copy(out, done, t, 0, m);
    assert out[..done + m] == out[..done] + out[done..done + m];
    assert t[0..m] == t[..m];
    assert out[outlen..] == out[done + m..][outlen - (done + m)..];
  }
}
