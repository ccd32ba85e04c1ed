/** The message format built on the triple cipher: padding, checksum, cipher block chaining with the
    initialisation vector at the end, and the session key. */
module DesMessage {
  import opened Bits
  import opened DesCipher
  import DesLoginKey

  const FLAGS: byte := 3

  // ---- Sequences of bytes

  /** The exclusive or of all bytes. */
  function Checksum(s: seq<byte>): byte {
    if s == [] then 0 else Checksum(s[..|s| - 1]) ^ s[|s| - 1]
  }

  lemma ChecksumNext(s: seq<byte>, i: nat)
    requires i < |s|
    ensures Checksum(s[..i + 1]) == Checksum(s[..i]) ^ s[i]
  {
    assert s[..i + 1][..i] == s[..i];
  }

  /** A run of bytes followed by its checksum has checksum zero. */
  lemma ChecksumCancels(s: seq<byte>)
    ensures Checksum(s + [Checksum(s)]) == 0
  {
    var t := s + [Checksum(s)];
    assert t[..|t| - 1] == s;
  }

  // ---- Cipher block chaining

  /** One block through the triple cipher, under the two halves of a sixteen byte key. */
  function Crypt(key: seq<byte>, op: byte, data: seq<byte>): (r: seq<byte>)
    requires |key| == 16 && |data| == 8
    ensures |r| == 8
  {
    EuroBlock(key[..8], key[8..], FLAGS, op, data)
  }

  lemma CryptRoundTrip(key: seq<byte>, data: seq<byte>)
    requires |key| == 16 && |data| == 8
    ensures Crypt(key, CRYPT, Crypt(key, HASH, data)) == data
  {
    hide EuroBlock;
    EuroRoundTrip(key[..8], key[8..], FLAGS, data);
  }

  function Enciphered(key: seq<byte>, b: seq<byte>, iv: seq<byte>): (c: seq<byte>)
    requires |key| == 16 && |b| == 8 && |iv| == 8
    ensures |c| == 8
  {
    Crypt(key, HASH, Xor(b, iv))
  }

  function Deciphered(key: seq<byte>, c: seq<byte>, iv: seq<byte>): (b: seq<byte>)
    requires |key| == 16 && |c| == 8 && |iv| == 8
    ensures |b| == 8
  {
    Xor(Crypt(key, CRYPT, c), iv)
  }

  lemma BlockRoundTrip(key: seq<byte>, b: seq<byte>, iv: seq<byte>)
    requires |key| == 16 && |b| == 8 && |iv| == 8
    ensures Deciphered(key, Enciphered(key, b, iv), iv) == b
  {
    hide Crypt, Xor;
    CryptRoundTrip(key, Xor(b, iv));
    XorTwice(b, iv);
  }

  /** The `n` blocks of `d`, each xored with the one enciphered before it. */
  function Chain(key: seq<byte>, d: seq<byte>, iv: seq<byte>, n: nat): (r: seq<byte>)
    requires |key| == 16 && |iv| == 8 && |d| == 8 * n
    ensures |r| == |d|
    decreases n
  {
    hide Enciphered;
    if n == 0 then []
    else
      var c := Enciphered(key, d[..8], iv);
      c + Chain(key, d[8..], c, n - 1)
  }

  function Unchain(key: seq<byte>, d: seq<byte>, iv: seq<byte>, n: nat): (r: seq<byte>)
    requires |key| == 16 && |iv| == 8 && |d| == 8 * n
    ensures |r| == |d|
    decreases n
  {
    hide Deciphered;
    if n == 0 then []
    else Deciphered(key, d[..8], iv) + Unchain(key, d[8..], d[..8], n - 1)
  }

  lemma {:induction false} ChainRoundTrip(key: seq<byte>, d: seq<byte>, iv: seq<byte>, n: nat)
    requires |key| == 16 && |iv| == 8 && |d| == 8 * n
    ensures Unchain(key, Chain(key, d, iv, n), iv, n) == d
    decreases n
  {
    hide Enciphered, Deciphered;
    if n > 0 {
      var c := Enciphered(key, d[..8], iv);
      var rest := Chain(key, d[8..], c, n - 1);
      assert Chain(key, d, iv, n) == c + rest;
      assert (c + rest)[..8] == c && (c + rest)[8..] == rest;
      BlockRoundTrip(key, d[..8], iv);
      ChainRoundTrip(key, d[8..], c, n - 1);
      assert d == d[..8] + d[8..];
    }
  }

  // ---- The message

  /** The remainder as C computes it, with the sign of the dividend. */
  function CRem(a: int, b: int): int
    requires b > 0
  {
    if a >= 0 then a % b else -((-a) % b)
  }

  function PadBytes(len: nat): nat {
    var n := CRem(8 - CRem(len - 1, 8), 8);
    if n < 0 then 0 else n
  }

  /** Padding brings the length, with the checksum, to two more than a multiple of eight. */
  lemma PadAligns(len: nat)
    ensures PadBytes(len) <= 7 && (len + PadBytes(len) + 1) % 8 == 2
  {
    if len > 0 {
      var q, r := (len - 1) / 8, (len - 1) % 8;
      assert len + PadBytes(len) + 1 == 8 * (q + (if r == 0 then 0 else 1)) + 2;
    }
  }

  /** Message, padding and checksum, before encryption. */
  function Body(msg: seq<byte>, pad: seq<byte>): (r: seq<byte>)
    requires |pad| == PadBytes(|msg|)
    ensures |r| == |msg| + |pad| + 1 && |r| % 8 == 2
  {
    PadAligns(|msg|);
    msg + pad + [Checksum(Tail(msg + pad))]
  }

  /** What follows the two header bytes. */
  function Tail(s: seq<byte>): seq<byte> {
    if |s| < 2 then [] else s[2..]
  }

  /** How many blocks follow the two header bytes. */
  function Blocks(len: nat): (n: nat)
    requires len % 8 == 2
    ensures len == 2 + 8 * n
  {
    (len - 2) / 8
  }

  function Encrypted(msg: seq<byte>, pad: seq<byte>, iv: seq<byte>, key: seq<byte>): (r: seq<byte>)
    requires |pad| == PadBytes(|msg|) && |iv| == 8 && |key| == 16
    ensures |r| == |msg| + |pad| + 9
  {
    var body := Body(msg, pad);
    body[..2] + Chain(key, body[2..], iv, Blocks(|body|)) + iv
  }

  datatype Result = Accepted(plain: seq<byte>) | Rejected

  predicate WellSized(len: nat) {
    CRem(len - 2, 8) == 0 && len - 2 >= 16
  }

  /** What the receiver has in its buffer once the blocks are deciphered. */
  function Opened(wire: seq<byte>, key: seq<byte>): (r: seq<byte>)
    requires |key| == 16 && WellSized(|wire|)
    ensures |r| == |wire| - 8
  {
    var n := |wire| - 8;
    wire[..2] + Unchain(key, wire[2..n], wire[n..], Blocks(n))
  }

  function Decrypted(wire: seq<byte>, key: seq<byte>): Result
    requires |key| == 16
  {
    if !WellSized(|wire|) then Rejected
    else if Checksum(Opened(wire, key)[2..]) != 0 then Rejected
    else Accepted(Opened(wire, key))
  }

  /** Decryption accepts an encrypted message exactly when the message has its two header bytes; what it then
      returns is the message, the padding and one checksum byte. */
  lemma MessageRoundTrip(msg: seq<byte>, pad: seq<byte>, iv: seq<byte>, key: seq<byte>)
    requires |pad| == PadBytes(|msg|) && |iv| == 8 && |key| == 16
    ensures Decrypted(Encrypted(msg, pad, iv, key), key).Accepted? <==> |msg| >= 2
    ensures |msg| >= 2 ==>
      var plain := Decrypted(Encrypted(msg, pad, iv, key), key).plain;
      msg + pad <= plain && |plain| == |msg| + |pad| + 1
  {
    hide Checksum, Chain, Unchain;
    var body := Body(msg, pad);
    var wire := Encrypted(msg, pad, iv, key);
    PadAligns(|msg|);
    if |msg| >= 2 {
      var n := |wire| - 8;
      assert wire[..2] == body[..2];
      assert wire[2..n] == Chain(key, body[2..], iv, Blocks(|body|));
      assert wire[n..] == iv;
      ChainRoundTrip(key, body[2..], iv, Blocks(|body|));
      assert Opened(wire, key) == body;
      assert body[2..] == Tail(msg + pad) + [Checksum(Tail(msg + pad))];
      ChecksumCancels(Tail(msg + pad));
    } else {
      assert |wire| == 10;
    }
  }

  // ---- The loops

  method Encrypt(buffer: array<byte>, msgLen: nat, deskey: array?<byte>, pad: seq<byte>, iv: seq<byte>) returns (n: nat)
    requires deskey != null ==> deskey.Length == 16 && deskey != buffer && deskey[7] == 0
    requires |pad| == PadBytes(msgLen) && |iv| == 8
    // room for the padding, the checksum and the vector; the block index is a C short
    requires msgLen + |pad| + 9 <= buffer.Length && msgLen + |pad| + 1 <= 32767
    modifies buffer
    ensures deskey == null ==> n == msgLen && buffer[..] == old(buffer[..])
    ensures deskey != null ==> n == msgLen + |pad| + 9
    ensures deskey != null ==> buffer[..n] == Encrypted(old(buffer[..msgLen]), pad, iv, deskey[..])
    ensures n <= buffer.Length && buffer[n..] == old(buffer[n..])
  {
    hide Checksum, Chain, Xor, Crypt, PadBytes, Body, Blocks, Encrypted;
    if deskey == null { return msgLen; }
    ghost var msg, rest, key := buffer[..msgLen], buffer[msgLen + |pad| + 9..], deskey[..];
    PadAligns(msgLen);
    var len := Prepare(buffer, msgLen, pad, iv);
    ghost var body := buffer[..len];
    assert buffer[2..len] == body[2..] && buffer[..2] == body[..2];
    n := len + 8;
    assert buffer[len..] == iv + rest;
    ChainBlocks(buffer, len, iv, deskey);
    ghost var chained := Chain(key, body[2..], iv, Blocks(len));
    assert buffer[len..] == iv + rest;
    assert buffer[len..n] == buffer[len..][..8] == iv && buffer[n..] == buffer[len..][8..] == rest;
    assert buffer[..n] == buffer[..2] + buffer[2..len] + buffer[len..n];
    EncryptedIs(msg, pad, iv, key, body, chained);
  }

  lemma EncryptedIs(msg: seq<byte>, pad: seq<byte>, iv: seq<byte>, key: seq<byte>, body: seq<byte>, chained: seq<byte>)
    requires |pad| == PadBytes(|msg|) && |iv| == 8 && |key| == 16 && body == Body(msg, pad)
    requires chained == Chain(key, body[2..], iv, Blocks(|body|))
    ensures Encrypted(msg, pad, iv, key) == body[..2] + chained + iv
  {
    hide Checksum, Chain, PadBytes, Body;
  }

  /** The padding, the checksum and the vector behind the message. */
  method Prepare(buffer: array<byte>, msgLen: nat, pad: seq<byte>, iv: seq<byte>) returns (len: nat)
    requires |pad| == PadBytes(msgLen) && |iv| == 8 && msgLen + |pad| + 9 <= buffer.Length
    modifies buffer
    ensures len == msgLen + |pad| + 1 && buffer[..len] == Body(old(buffer[..msgLen]), pad)
    ensures buffer[len..] == iv + old(buffer[msgLen + |pad| + 9..])
  {
    hide Checksum, Chain, Xor, Crypt, PadBytes;
    ghost var msg, rest := buffer[..msgLen], buffer[msgLen + |pad| + 9..];
    AppendPadding(buffer, msgLen, pad);
    len := msgLen + |pad|;
    assert buffer[len..][9..] == rest;
    var checksum := XorFrom(buffer, 2, len);
    TailOf(msg, pad, buffer[..len]);
    buffer[len] := checksum;
    len := len + 1;
    ghost var body := buffer[..len];
    assert body == Body(msg, pad);
    assert buffer[len + 8..] == rest;
    forall i | 0 <= i < 8 { buffer[len + i] := iv[i]; }
    assert buffer[..len] == body && buffer[len + 8..] == rest;
  }

  lemma TailOf(msg: seq<byte>, pad: seq<byte>, all: seq<byte>)
    requires all == msg + pad
    ensures Tail(all) == if |all| < 2 then [] else all[2..]
  {}

  method AppendPadding(buffer: array<byte>, len: nat, pad: seq<byte>)
    requires len + |pad| <= buffer.Length
    modifies buffer
    ensures buffer[..len + |pad|] == old(buffer[..len]) + pad
    ensures buffer[len + |pad|..] == old(buffer[len + |pad|..])
  {
    ghost var was := buffer[..];
    var i := 0;
    while i < |pad|
      invariant 0 <= i <= |pad|
      invariant buffer[..len + i] == was[..len] + pad[..i]
      invariant buffer[len + i..] == was[len + i..]
    {
      buffer[len + i] := pad[i];
      i := i + 1;
    }
  }

  method XorFrom(buffer: array<byte>, lo: nat, hi: nat) returns (checksum: byte)
    requires hi <= buffer.Length
    ensures checksum == Checksum(if hi < lo then [] else buffer[lo..hi])
  {
    checksum := 0;
    if hi < lo { return; }
    ghost var s := buffer[lo..hi];
    var i := lo;
    while i < hi
      invariant lo <= i <= hi
      invariant checksum == Checksum(s[..i - lo])
    {
      ChecksumNext(s, i - lo);
      checksum := checksum ^ buffer[i];
      i := i + 1;
    }
    assert s[..hi - lo] == s;
  }

  /** The chaining loop, in place: each block is xored with the previous one and enciphered where it lies. */
  method ChainBlocks(buffer: array<byte>, len: nat, iv: seq<byte>, deskey: array<byte>)
    requires |iv| == 8 && 2 <= len <= buffer.Length && len % 8 == 2
    requires deskey.Length == 16 && deskey != buffer && deskey[7] == 0
    modifies buffer
    ensures buffer[2..len] == Chain(deskey[..], old(buffer[2..len]), iv, Blocks(len))
    ensures buffer[..2] == old(buffer[..2]) && buffer[len..] == old(buffer[len..])
  {
    hide *;
    ghost var key, was := deskey[..], buffer[..];
    var ivec := iv;
    ghost var n := Blocks(len);
    var i := 2;
    while i < len
      invariant 2 <= i <= len && len == i + 8 * n && |ivec| == 8
      invariant deskey[..] == key
      invariant buffer[..2] == was[..2] && buffer[i..] == was[i..]
      invariant Chain(key, was[2..len], iv, Blocks(len)) == buffer[2..i] + Chain(key, was[i..len], ivec, n)
    {
      ghost var head := buffer[2..i];
      ChainStep(key, was[i..len], ivec, n);
      assert buffer[i..i + 8] == buffer[i..][..8] == was[i..len][..8];
      EncipherAt(buffer, i, ivec, deskey);
      ivec := buffer[i..i + 8];
      assert buffer[2..i + 8] == head + ivec;
      assert was[i..len][8..] == was[i + 8..len];
      ghost var tail := Chain(key, was[i + 8..len], ivec, n - 1);
      assert (head + ivec) + tail == head + (ivec + tail);
      i, n := i + 8, n - 1;
    }
    ChainEmpty(key, was[len..len], iv);
  }

  lemma ChainStep(key: seq<byte>, d: seq<byte>, iv: seq<byte>, n: nat)
    requires |key| == 16 && |iv| == 8 && |d| == 8 * n && n > 0
    ensures Chain(key, d, iv, n) ==
      Enciphered(key, d[..8], iv) + Chain(key, d[8..], Enciphered(key, d[..8], iv), n - 1)
  {
    hide Enciphered, Deciphered;
  }

  method EncipherAt(buffer: array<byte>, o: nat, ivec: seq<byte>, deskey: array<byte>)
    requires |ivec| == 8 && o + 8 <= buffer.Length
    requires deskey.Length == 16 && deskey != buffer && deskey[7] == 0
    modifies buffer
    ensures buffer[o..o + 8] == Enciphered(deskey[..], old(buffer[o..o + 8]), ivec)
    ensures buffer[..o] == old(buffer[..o]) && buffer[o + 8..] == old(buffer[o + 8..])
  {
    hide Crypt, Xor;
    ghost var x := Xor(buffer[o..o + 8], ivec);
    CryptIs(deskey[..], HASH, x);
    assert deskey[..][..8] == deskey[..8] && deskey[..][8..] == deskey[8..];
    XorBlock(buffer, o, ivec);
    EuroDes(deskey[..8], deskey[8..], FLAGS, HASH, buffer, o);
  }

  method DecipherAt(buffer: array<byte>, o: nat, ivec: seq<byte>, deskey: array<byte>)
    requires |ivec| == 8 && o + 8 <= buffer.Length
    requires deskey.Length == 16 && deskey != buffer && deskey[7] == 0
    modifies buffer
    ensures buffer[o..o + 8] == Deciphered(deskey[..], old(buffer[o..o + 8]), ivec)
    ensures buffer[..o] == old(buffer[..o]) && buffer[o + 8..] == old(buffer[o + 8..])
  {
    hide Crypt, Xor;
    CryptIs(deskey[..], CRYPT, buffer[o..o + 8]);
    assert deskey[..][..8] == deskey[..8] && deskey[..][8..] == deskey[8..];
    EuroDes(deskey[..8], deskey[8..], FLAGS, CRYPT, buffer, o);
    XorBlock(buffer, o, ivec);
  }

  lemma ChainEmpty(key: seq<byte>, d: seq<byte>, iv: seq<byte>)
    requires |key| == 16 && |iv| == 8 && |d| == 0
    ensures Chain(key, d, iv, 0) == [] && Unchain(key, d, iv, 0) == []
  {}

  lemma CryptIs(key: seq<byte>, op: byte, data: seq<byte>)
    requires |key| == 16 && |data| == 8
    ensures Crypt(key, op, data) == EuroBlock(key[..8], key[8..], FLAGS, op, data)
  {}

  method XorBlock(buffer: array<byte>, o: nat, ivec: seq<byte>)
    requires |ivec| == 8 && o + 8 <= buffer.Length
    modifies buffer
    ensures buffer[o..o + 8] == Xor(old(buffer[o..o + 8]), ivec)
    ensures buffer[..o] == old(buffer[..o]) && buffer[o + 8..] == old(buffer[o + 8..])
  {
    forall j | 0 <= j < 8 { buffer[o + j] := buffer[o + j] ^ ivec[j]; }
  }

  /** -1 stands for the source's error return. */
  method Decrypt(buffer: array<byte>, wireLen: nat, deskey: array?<byte>) returns (n: int)
    requires deskey != null ==> deskey.Length == 16 && deskey != buffer && deskey[7] == 0
    requires wireLen <= buffer.Length
    modifies buffer
    ensures deskey == null ==> n == wireLen && buffer[..] == old(buffer[..])
    ensures deskey != null ==>
      match Decrypted(old(buffer[..wireLen]), deskey[..])
      case Rejected => n == -1
      case Accepted(plain) => n == |plain| && buffer[..n] == plain
    ensures deskey != null && !WellSized(wireLen) ==> buffer[..] == old(buffer[..])
  {
    hide Checksum, Unchain;
    if deskey == null { return wireLen; }
    if CRem(wireLen - 2, 8) != 0 || wireLen - 2 < 16 { return -1; }
    ghost var wire := buffer[..wireLen];
    var len := wireLen - 8;
    ghost var key, head := deskey[..], buffer[..2];
    assert buffer[..wireLen][2..len] == buffer[2..len] && buffer[..wireLen][len..] == buffer[len..wireLen];
    assert wire[..2] == head;
    UnchainBlocks(buffer, len, buffer[len..wireLen], deskey);
    ghost var tail := buffer[2..len];
    OpenedIs(wire, key, len, tail);
    assert buffer[..len] == head + tail;
    var checksum := XorFrom(buffer, 2, len);
    assert (head + tail)[2..] == tail;
    n := if checksum != 0 then -1 else len;
  }

  lemma OpenedIs(wire: seq<byte>, key: seq<byte>, len: nat, tail: seq<byte>)
    requires |key| == 16 && WellSized(|wire|) && len == |wire| - 8
    requires tail == Unchain(key, wire[2..len], wire[len..], Blocks(len))
    ensures Opened(wire, key) == wire[..2] + tail
  {
    hide Unchain;
  }

  method UnchainBlocks(buffer: array<byte>, len: nat, iv: seq<byte>, deskey: array<byte>)
    requires |iv| == 8 && 2 <= len <= buffer.Length && len % 8 == 2
    requires deskey.Length == 16 && deskey != buffer && deskey[7] == 0
    modifies buffer
    ensures buffer[2..len] == Unchain(deskey[..], old(buffer[2..len]), iv, Blocks(len))
    ensures buffer[..2] == old(buffer[..2]) && buffer[len..] == old(buffer[len..])
  {
    hide *;
    ghost var key, was := deskey[..], buffer[..];
    var nextIvec := iv;
    ghost var n := Blocks(len);
    var i := 2;
    while i < len
      invariant 2 <= i <= len && len == i + 8 * n && |nextIvec| == 8
      invariant deskey[..] == key
      invariant buffer[..2] == was[..2] && buffer[i..] == was[i..]
      invariant Unchain(key, was[2..len], iv, Blocks(len)) == buffer[2..i] + Unchain(key, was[i..len], nextIvec, n)
    {
      ghost var head := buffer[2..i];
      UnchainStep(key, was[i..len], nextIvec, n);
      var ivec := nextIvec;
      nextIvec := buffer[i..i + 8];
      assert nextIvec == buffer[i..][..8] == was[i..len][..8];
      DecipherAt(buffer, i, ivec, deskey);
      assert buffer[2..i + 8] == head + buffer[i..i + 8];
      assert was[i..len][8..] == was[i + 8..len];
      ghost var tail := Unchain(key, was[i + 8..len], nextIvec, n - 1);
      assert (head + buffer[i..i + 8]) + tail == head + (buffer[i..i + 8] + tail);
      i, n := i + 8, n - 1;
    }
    ChainEmpty(key, was[len..len], iv);
  }

  lemma UnchainStep(key: seq<byte>, d: seq<byte>, iv: seq<byte>, n: nat)
    requires |key| == 16 && |iv| == 8 && |d| == 8 * n && n > 0
    ensures Unchain(key, d, iv, n) == Deciphered(key, d[..8], iv) + Unchain(key, d[8..], d[..8], n - 1)
  {
    hide Enciphered, Deciphered;
  }

  // ---- The two ends of a session

  /** One end makes the session key and encrypts in its buffer; the other end has made the same key and decrypts
      in place: it gets the message back exactly when the message has its two header bytes. */
  method Exchange(key1: array<byte>, key2: array<byte>, keyLen: nat, buffer: array<byte>, msgLen: nat, pad: seq<byte>, iv: seq<byte>)
      returns (n: int)
    requires key1.Length >= 14 && keyLen <= key2.Length
    requires |pad| == PadBytes(msgLen) && |iv| == 8
    requires msgLen + |pad| + 9 <= buffer.Length && msgLen + |pad| + 1 <= 32767
    modifies buffer
    ensures msgLen >= 2 ==> n == msgLen + |pad| + 1 && buffer[..msgLen] == old(buffer[..msgLen])
    ensures msgLen < 2 ==> n == -1
  {
    hide *;
    ghost var msg := buffer[..msgLen];
    var des16 := new byte[16];
    DesLoginKey.LoginKeyGet(key1, key2, keyLen, des16);
    ghost var key := des16[..];
    assert key[7] == 0;
    var wireLen := Encrypt(buffer, msgLen, des16, pad, iv);
    MessageRoundTrip(msg, pad, iv, key);
    n := Decrypt(buffer, wireLen, des16);
    if msgLen >= 2 {
      assert buffer[..n][..msgLen] == (msg + pad)[..msgLen] == msg;
    }
  }
}
