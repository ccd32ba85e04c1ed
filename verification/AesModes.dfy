/** Modes of the byte-wise AES-256: ECB in place and the counter mode. */
module AesModes {
  import opened Bits
  import opened AesSpec
  import opened AesSchedule
  import AesBytes
  import AesWord

  /** The sixty words of the schedule of a 32 byte key. */
  function Schedule(key: seq<byte>): (w: seq<bv32>)
    requires |key| == 32
    ensures |w| == 60
  {
    Expand(WordsOf(key, 8), 60)
  }

  lemma ScheduleIs(key: seq<byte>)
    requires |key| == 32
    ensures Schedule(key) == Expand(WordsOf(key, 8), 60)
  {}

  function Enc(w: seq<bv32>, b: seq<byte>): (r: seq<byte>)
    requires |w| == 60 && |b| == 16
    ensures |r| == 16
  {
    CipherBlock(w, 14, b)
  }

  function Dec(w: seq<bv32>, b: seq<byte>): (r: seq<byte>)
    requires |w| == 60 && |b| == 16
    ensures |r| == 16
  {
    InvCipherBlock(w, 14, b)
  }

  lemma EncUndone(w: seq<bv32>, b: seq<byte>)
    requires |w| == 60 && |b| == 16
    ensures Dec(w, Enc(w, b)) == b
  {
    hide CipherBlock, InvCipherBlock;
    BlockRoundTrip(w, 14, b);
  }

  // ---- The two implementations agree

  /** For 256 bit keys the table-driven cipher and the byte-wise one make the same schedule and the same block. */
  method BothImplementations(userKey: array<byte>, block: seq<byte>)
      returns (fastKey: seq<bv32>, slowKey: seq<bv32>, fast: seq<byte>, slow: seq<byte>)
    requires userKey.Length == 32 && |block| == 16
    ensures fastKey == slowKey == Schedule(userKey[..])
    ensures fast == slow == Enc(Schedule(userKey[..]), block)
  {
    hide Expand, WordsOf, CipherBlock;
    var key := new AesWord.Key();
    var k := userKey[..];
    var status := AesWord.SetEncryptKey(userKey, 256, key);
    assert key.rdKey[..60] == key.rdKey[..];
    fastKey := key.rdKey[..];
    fast := AesWord.Encrypt(block, key);
    var rk := AesBytes.KeySchedule(k);
    slowKey := rk[..];
    slow := AesBytes.EncryptBlock(rk, block);
  }

  // ---- ECB

  function Ecb(w: seq<bv32>, d: seq<byte>, encrypt: bool): (r: seq<byte>)
    requires |w| == 60
    ensures |r| == |d|
  {
    hide Enc, Dec;
    if |d| < 16 then d
    else (if encrypt then Enc(w, d[..16]) else Dec(w, d[..16])) + Ecb(w, d[16..], encrypt)
  }

  /** Deciphering undoes enciphering for every length; a last partial block is left as it is. */
  lemma {:induction false} EcbRoundTrip(w: seq<bv32>, d: seq<byte>)
    requires |w| == 60
    ensures Ecb(w, Ecb(w, d, true), false) == d
  {
    hide Enc, Dec;
    if |d| >= 16 {
      var c, rest := Enc(w, d[..16]), Ecb(w, d[16..], true);
      assert Ecb(w, d, true) == c + rest;
      assert (c + rest)[..16] == c && (c + rest)[16..] == rest;
      EncUndone(w, d[..16]);
      EcbRoundTrip(w, d[16..]);
      assert d == d[..16] + d[16..];
    }
  }

  method EcbInPlace(key: seq<byte>, data: array<byte>, len: nat, encrypt: bool)
    requires |key| == 32 && len <= data.Length
    modifies data
    ensures data[..len] == Ecb(Schedule(key), old(data[..len]), encrypt)
    ensures data[len..] == old(data[len..])
  {
    hide *;
    ghost var w, was := Schedule(key), data[..];
    ScheduleIs(key);
    var rk := AesBytes.KeySchedule(key);
    var off := 0;
    while off + 16 <= len
      invariant 0 <= off <= len && rk[..] == w && data[off..] == was[off..]
      invariant Ecb(w, was[..len], encrypt) == data[..off] + Ecb(w, was[off..len], encrypt)
    {
      EcbOne(rk, data, off, len, encrypt, was, Ecb(w, was[..len], encrypt));
      off := off + 16;
    }
    EcbEnd(w, was[off..len], encrypt);
    assert data[..len] == data[..off] + data[off..len];
    assert data[off..len] == data[off..][..len - off] == was[off..len];
  }

  /** One block of `EcbInPlace`; `all` is the text to be reached. */
  method EcbOne(rk: array<bv32>, data: array<byte>, off: nat, len: nat, encrypt: bool, ghost was: seq<byte>, ghost all: seq<byte>)
    requires rk.Length == 60 && off + 16 <= len <= data.Length == |was|
    requires data[off..] == was[off..] && all == data[..off] + Ecb(rk[..], was[off..len], encrypt)
    modifies data
    ensures rk[..] == old(rk[..]) && data[off + 16..] == was[off + 16..]
    ensures all == data[..off + 16] + Ecb(rk[..], was[off + 16..len], encrypt)
  {
    hide *;
    ghost var w, head, rest := rk[..], data[..off], was[off..len];
    assert data[off..off + 16] == data[off..][..16] == rest[..16];
    assert data[off + 16..] == data[off..][16..] == was[off + 16..];
    CryptAt(rk, data, off, encrypt);
    assert data[..off + 16] == head + data[off..off + 16];
    assert rest[16..] == was[off + 16..len];
    EcbGrow(w, head, data[off..off + 16], rest, encrypt);
  }

  lemma EcbGrow(w: seq<bv32>, head: seq<byte>, mid: seq<byte>, rest: seq<byte>, encrypt: bool)
    requires |w| == 60 && |rest| >= 16 && mid == if encrypt then Enc(w, rest[..16]) else Dec(w, rest[..16])
    ensures head + Ecb(w, rest, encrypt) == (head + mid) + Ecb(w, rest[16..], encrypt)
  {
    hide *;
    EcbStep(w, rest, encrypt);
    Regroup(head, mid, Ecb(w, rest[16..], encrypt));
  }

  lemma EcbStep(w: seq<bv32>, d: seq<byte>, encrypt: bool)
    requires |w| == 60 && |d| >= 16
    ensures Ecb(w, d, encrypt) == (if encrypt then Enc(w, d[..16]) else Dec(w, d[..16])) + Ecb(w, d[16..], encrypt)
  {
    hide Enc, Dec;
  }

  lemma EcbEnd(w: seq<bv32>, d: seq<byte>, encrypt: bool)
    requires |w| == 60 && |d| < 16
    ensures Ecb(w, d, encrypt) == d
  {}

  method CryptAt(rk: array<bv32>, data: array<byte>, off: nat, encrypt: bool)
    requires rk.Length == 60 && off + 16 <= data.Length
    modifies data
    ensures data[off..off + 16] ==
      if encrypt then Enc(rk[..], old(data[off..off + 16])) else Dec(rk[..], old(data[off..off + 16]))
    ensures data[..off] == old(data[..off]) && data[off + 16..] == old(data[off + 16..])
  {
    hide CipherBlock, InvCipherBlock;
    var out;
    if encrypt {
      out := AesBytes.EncryptBlock(rk, data[off..off + 16]);
    } else {
      out := AesBytes.DecryptBlock(rk, data[off..off + 16]);
    }
    ghost var w := rk[..];
    forall i | 0 <= i < 16 { data[off + i] := out[i]; }
    assert data[off..off + 16] == out && rk[..] == w;
  }

  // ---- Counter mode

  function Successor(w: bv32): bv32 { w + 1 }

  /** The counter block after one increment: its last four bytes, as a big-endian number, plus one modulo 2^32. */
  function Increment(c: seq<byte>): (r: seq<byte>)
    requires |c| == 16
    ensures |r| == 16
  {
    c[..12] + Bytes(Successor(Word(c[12], c[13], c[14], c[15])))
  }

  function Next(x: byte): byte { x + 1 }

  lemma NextZero(x: byte)
    ensures Next(x) == 0 <==> x == 0xff
  {}

  lemma Carry3(a: byte, b: byte, c: byte, d: byte)
    requires d != 0xff
    ensures Successor(Word(a, b, c, d)) == Word(a, b, c, Next(d))
  {}

  lemma Carry2(a: byte, b: byte, c: byte)
    requires c != 0xff
    ensures Successor(Word(a, b, c, 0xff)) == Word(a, b, Next(c), 0)
  {}

  lemma Carry1(a: byte, b: byte)
    requires b != 0xff
    ensures Successor(Word(a, b, 0xff, 0xff)) == Word(a, Next(b), 0, 0)
  {}

  lemma Carry0(a: byte)
    ensures Successor(Word(a, 0xff, 0xff, 0xff)) == Word(Next(a), 0, 0, 0)
  {}

  /** The carry stopped at byte `k`: everything behind it wrapped to zero, and it is one more than before. */
  lemma CarriedTo(was: seq<byte>, now: seq<byte>, k: nat)
    requires |was| == 16 && |now| == 16 && 12 <= k < 16
    requires forall q :: 0 <= q < k ==> now[q] == was[q]
    requires now[k] == Next(was[k]) && (k > 12 ==> was[k] != 0xff)
    requires forall q :: k < q < 16 ==> was[q] == 0xff && now[q] == 0
    ensures now == Increment(was)
  {
    hide *;
    if k == 12 { Carry0(was[12]); }
    else if k == 13 { Carry1(was[12], was[13]); }
    else if k == 14 { Carry2(was[12], was[13], was[14]); }
    else { Carry3(was[12], was[13], was[14], was[15]); }
    IncrementOf(was, now);
  }

  lemma IncrementOf(was: seq<byte>, now: seq<byte>)
    requires |was| == 16 && |now| == 16 && forall q :: 0 <= q < 12 ==> now[q] == was[q]
    requires Word(now[12], now[13], now[14], now[15]) == Successor(Word(was[12], was[13], was[14], was[15]))
    ensures now == Increment(was)
  {
    hide Word, B0, B1, B2, B3, Successor;
    BytesOfWord(now[12], now[13], now[14], now[15]);
  }

  method IncrementInPlace(ctr: array<byte>)
    requires ctr.Length == 16
    modifies ctr
    ensures ctr[..] == Increment(old(ctr[..]))
  {
    hide Increment, Next;
    ghost var was := ctr[..];
    var k := 15;
    while k >= 12
      invariant 11 <= k <= 15
      invariant forall q :: 0 <= q <= k ==> ctr[q] == was[q]
      invariant forall q :: k < q < 16 ==> was[q] == 0xff && ctr[q] == 0
      invariant k == 11 ==> ctr[..] == Increment(was)
    {
      NextZero(ctr[k]);
      ctr[k] := Next(ctr[k]);
      if ctr[k] != 0 || k == 12 { CarriedTo(was, ctr[..], k); }
      if ctr[k] != 0 { break; }
      k := k - 1;
    }
  }

  /** `d` xored with the enciphered counters that follow `c`. */
  function Ctr(w: seq<bv32>, c: seq<byte>, d: seq<byte>): (r: seq<byte>)
    requires |w| == 60 && |c| == 16
    ensures |r| == |d|
    decreases |d|
  {
    hide Enc, Increment, Xor;
    if d == [] then []
    else
      var n := if |d| < 16 then |d| else 16;
      Xor(d[..n], Enc(w, c)[..n]) + Ctr(w, Increment(c), d[n..])
  }

  /** Counter mode is its own inverse. */
  lemma {:induction false} CtrRoundTrip(w: seq<bv32>, c: seq<byte>, d: seq<byte>)
    requires |w| == 60 && |c| == 16
    ensures Ctr(w, c, Ctr(w, c, d)) == d
    decreases |d|
  {
    hide Enc, Increment, Xor;
    if d != [] {
      var n := if |d| < 16 then |d| else 16;
      var x, rest := Xor(d[..n], Enc(w, c)[..n]), Ctr(w, Increment(c), d[n..]);
      assert Ctr(w, c, d) == x + rest;
      assert (x + rest)[..n] == x && (x + rest)[n..] == rest;
      XorTwice(d[..n], Enc(w, c)[..n]);
      CtrRoundTrip(w, Increment(c), d[n..]);
      assert d == d[..n] + d[n..];
    }
  }

  /** `data` is xored with the key stream where it lies, and the counter counts the blocks. */
  method CtrInPlace(rk: array<bv32>, ctr: array<byte>, data: array<byte>, len: nat)
    requires rk.Length == 60 && ctr.Length == 16 && len <= data.Length && ctr != data
    modifies ctr, data
    ensures data[..len] == Ctr(rk[..], old(ctr[..]), old(data[..len]))
    ensures data[len..] == old(data[len..])
  {
    hide *;
    ghost var w, was, c := rk[..], data[..], ctr[..];
    var off := 0;
    while off < len
      invariant 0 <= off <= len && rk[..] == w && data[off..] == was[off..]
      invariant Ctr(w, c, was[..len]) == data[..off] + Ctr(w, ctr[..], was[off..len])
    {
      var n := if len - off < 16 then len - off else 16;
      CtrOne(rk, ctr, data, off, len, n, was, Ctr(w, c, was[..len]));
      off := off + n;
    }
    CtrEnd(w, ctr[..], was[off..len]);
  }

  /** One block of `CtrInPlace`; `all` is the text to be reached. */
  method CtrOne(rk: array<bv32>, ctr: array<byte>, data: array<byte>, off: nat, len: nat, n: nat, ghost was: seq<byte>,
                ghost all: seq<byte>)
    requires rk.Length == 60 && ctr.Length == 16 && off < len <= data.Length == |was| && ctr != data
    requires n == if len - off < 16 then len - off else 16
    requires data[off..] == was[off..] && all == data[..off] + Ctr(rk[..], ctr[..], was[off..len])
    modifies ctr, data
    ensures rk[..] == old(rk[..]) && data[off + n..] == was[off + n..]
    ensures all == data[..off + n] + Ctr(rk[..], ctr[..], was[off + n..len])
  {
    hide *;
    ghost var w, head, rest, now := rk[..], data[..off], was[off..len], ctr[..];
    var keystream := AesBytes.EncryptBlock(rk, ctr[..]);
    assert data[off..off + n] == data[off..][..n] == rest[..n];
    assert data[off + n..] == data[off..][n..] == was[off + n..];
    XorAt(data, off, keystream[..n]);
    assert data[..off + n] == head + data[off..off + n];
    assert rest[n..] == was[off + n..len];
    IncrementInPlace(ctr);
    CtrGrow(w, now, head, data[off..off + n], rest);
  }

  lemma CtrGrow(w: seq<bv32>, c: seq<byte>, head: seq<byte>, mid: seq<byte>, rest: seq<byte>)
    requires |w| == 60 && |c| == 16 && rest != []
    requires var n := if |rest| < 16 then |rest| else 16; mid == Xor(rest[..n], CipherBlock(w, 14, c)[..n])
    ensures var n := if |rest| < 16 then |rest| else 16;
      head + Ctr(w, c, rest) == (head + mid) + Ctr(w, Increment(c), rest[n..])
  {
    hide *;
    CtrStep(w, c, rest);
    var n := if |rest| < 16 then |rest| else 16;
    Regroup(head, mid, Ctr(w, Increment(c), rest[n..]));
  }

  lemma Regroup(a: seq<byte>, b: seq<byte>, c: seq<byte>)
    ensures (a + b) + c == a + (b + c)
  {
  }

  lemma CtrStep(w: seq<bv32>, c: seq<byte>, d: seq<byte>)
    requires |w| == 60 && |c| == 16 && d != []
    ensures
      var n := if |d| < 16 then |d| else 16;
      Ctr(w, c, d) == Xor(d[..n], CipherBlock(w, 14, c)[..n]) + Ctr(w, Increment(c), d[n..])
  {
    hide CipherBlock, Increment, Xor;
  }

  lemma CtrEnd(w: seq<bv32>, c: seq<byte>, d: seq<byte>)
    requires |w| == 60 && |c| == 16 && d == []
    ensures Ctr(w, c, d) == []
  {}

  method XorAt(data: array<byte>, o: nat, k: seq<byte>)
    requires o + |k| <= data.Length
    modifies data
    ensures data[o..o + |k|] == Xor(old(data[o..o + |k|]), k)
    ensures data[..o] == old(data[..o]) && data[o + |k|..] == old(data[o + |k|..])
  {
    forall i | 0 <= i < |k| { data[o + i] := data[o + i] ^ k[i]; }
  }
}
