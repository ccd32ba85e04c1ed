/** The stream cipher: a permutation of the bytes that is shuffled by the key and then by its own output. */
module Rc4 {
  import opened Bits

  /** The permutation and the two indices. */
  datatype State = State(s: seq<byte>, i: nat, j: nat)

  predicate Valid(st: State) {
    |st.s| == 256 && st.i < 256 && st.j < 256
  }

  /** The sum of bytes, cut to a byte. */
  function Sum(a: nat, b: byte, c: byte): (r: nat)
    ensures r < 256
  {
    (a + b as int + c as int) % 256
  }

  function Swapped(s: seq<byte>, i: nat, j: nat): (r: seq<byte>)
    requires i < |s| && j < |s|
    ensures |r| == |s|
  {
    s[i := s[j]][j := s[i]]
  }

  /** The bytes in order. */
  function Ordered(n: nat): (s: seq<byte>)
    requires n <= 256
    ensures |s| == n && forall k :: 0 <= k < n ==> s[k] == ToByte(k)
  {
    hide ToByte;
    if n == 0 then [] else Ordered(n - 1) + [ToByte(n - 1)]
  }

  /** The key schedule after its first `n` steps. */
  function Scheduled(key: seq<byte>, n: nat): (st: State)
    requires key != [] && n <= 256
    ensures Valid(st)
  {
    hide Ordered, Sum, Swapped;
    if n == 0 then State(Ordered(256), 0, 0)
    else
      var b := Scheduled(key, n - 1);
      var j := Sum(b.j, b.s[n - 1], key[(n - 1) % |key|]);
      State(Swapped(b.s, n - 1, j), 0, j)
  }

  /** The generator after `n` bytes. */
  function Turned(key: seq<byte>, n: nat): (st: State)
    requires key != []
    ensures Valid(st)
  {
    hide Ordered, Scheduled, Sum, Swapped;
    if n == 0 then Scheduled(key, 256).(j := 0)
    else
      var b := Turned(key, n - 1);
      var i := Sum(b.i, 1, 0);
      var j := Sum(b.j, b.s[i], 0);
      State(Swapped(b.s, i, j), i, j)
  }

  function Output(st: State): byte
    requires Valid(st)
  {
    st.s[Sum(0, st.s[st.i], st.s[st.j])]
  }

  /** The first `n` bytes of the key stream. */
  function Stream(key: seq<byte>, n: nat): (r: seq<byte>)
    requires key != []
    ensures |r| == n
  {
    hide Turned;
    if n == 0 then [] else Stream(key, n - 1) + [Output(Turned(key, n))]
  }

  function Crypted(key: seq<byte>, d: seq<byte>): (r: seq<byte>)
    requires key != []
    ensures |r| == |d|
  {
    Xor(d, Stream(key, |d|))
  }

  lemma SwapKeeps(s: seq<byte>, i: nat, j: nat)
    requires i < |s| && j < |s|
    ensures multiset(Swapped(s, i, j)) == multiset(s)
  {
  }

  lemma ScheduledSwaps(key: seq<byte>, n: nat)
    requires key != [] && 0 < n <= 256
    ensures Scheduled(key, n).s == Swapped(Scheduled(key, n - 1).s, n - 1, Scheduled(key, n).j)
  {
    hide Swapped, Sum;
  }

  lemma TurnedSwaps(key: seq<byte>, n: nat)
    requires key != [] && 0 < n
    ensures Turned(key, n).s == Swapped(Turned(key, n - 1).s, Turned(key, n).i, Turned(key, n).j)
  {
    hide Swapped, Sum, Scheduled;
  }

  /** However the key shuffles them, each byte stays there once. */
  lemma {:induction false} StaysPermutation(key: seq<byte>, n: nat)
    requires key != []
    ensures multiset(Turned(key, n).s) == multiset(Ordered(256))
  {
    hide Turned, Scheduled, Ordered, Sum, Swapped;
    if n == 0 {
      ScheduledPermutation(key, 256);
      NextTurn(key, 0);
    } else {
      StaysPermutation(key, n - 1);
      TurnedSwaps(key, n);
      SwapKeeps(Turned(key, n - 1).s, Turned(key, n).i, Turned(key, n).j);
    }
  }

  lemma {:induction false} ScheduledPermutation(key: seq<byte>, n: nat)
    requires key != [] && n <= 256
    ensures multiset(Scheduled(key, n).s) == multiset(Ordered(256))
  {
    hide Ordered, Sum, Swapped;
    if n > 0 {
      ScheduledPermutation(key, n - 1);
      ScheduledSwaps(key, n);
      SwapKeeps(Scheduled(key, n - 1).s, n - 1, Scheduled(key, n).j);
    }
  }

  /** Encryption is its own inverse, because the key stream does not depend on the text. */
  lemma CryptedTwice(key: seq<byte>, d: seq<byte>)
    requires key != []
    ensures Crypted(key, Crypted(key, d)) == d
  {
    hide Stream, Xor;
    XorTwice(d, Stream(key, |d|));
  }

  // ---- The loops

  method SwapBytes(s: array<byte>, i: nat, j: nat)
    requires s.Length == 256 && i < 256 && j < 256
    modifies s
    ensures s[..] == Swapped(old(s[..]), i, j)
  {
    var t := s[i];
    s[i] := s[j];
    s[j] := t;
  }

  method Schedule(key: array<byte>, keylen: nat) returns (s: array<byte>)
    requires 0 < keylen <= key.Length
    ensures fresh(s) && s.Length == 256 && s[..] == Scheduled(key[..keylen], 256).s
  {
    hide Swapped, Scheduled, ToByte, Ordered, Sum;
    ghost var k := key[..keylen];
    s := new byte[256];
    var i, j := 0, 0;
    while i < 256
      invariant 0 <= i <= 256 && forall m :: 0 <= m < i ==> s[m] == ToByte(m)
    {
      s[i] := ToByte(i);
      i := i + 1;
    }
    FirstState(k, s[..]);
    i := 0;
    while i < 256
      invariant 0 <= i <= 256 && 0 <= j < 256 && key[..keylen] == k
      invariant Scheduled(k, i) == State(s[..], 0, j)
    {
      NextState(k, i, s[..], j);
      assert key[i % keylen] == k[i % keylen];
      j := Sum(j, s[i], key[i % keylen]);
      SwapBytes(s, i, j);
      i := i + 1;
    }
  }

  lemma FirstState(key: seq<byte>, s: seq<byte>)
    requires key != [] && |s| == 256 && forall m :: 0 <= m < 256 ==> s[m] == ToByte(m)
    ensures Scheduled(key, 0) == State(s, 0, 0)
  {
    hide ToByte;
    assert s == Ordered(256);
  }

  lemma NextState(key: seq<byte>, i: nat, s: seq<byte>, j: nat)
    requires key != [] && i < 256 && |s| == 256 && j < 256 && Scheduled(key, i) == State(s, 0, j)
    ensures var k := Sum(j, s[i], key[i % |key|]);
      Scheduled(key, i + 1) == State(Swapped(s, i, k), 0, k)
  {
    hide Swapped, Sum;
  }

  lemma NextTurn(key: seq<byte>, n: nat)
    requires key != []
    ensures Turned(key, 0) == Scheduled(key, 256).(j := 0)
    ensures var b := Turned(key, n); var i := Sum(b.i, 1, 0); var j := Sum(b.j, b.s[i], 0);
      Turned(key, n + 1) == State(Swapped(b.s, i, j), i, j)
  {
    hide Swapped, Scheduled, Sum;
  }

  lemma ScheduledIndex(key: seq<byte>)
    requires key != []
    ensures Scheduled(key, 256).i == 0
  {
    hide Swapped, Sum;
  }

  /** `ccam3_rc4`. */
  method Rc4(key: array<byte>, keylen: nat, data: array<byte>, len: nat)
    requires 0 < keylen <= key.Length && len <= data.Length && key != data
    modifies data
    ensures data[..len] == Crypted(key[..keylen], old(data[..len])) && data[len..] == old(data[len..])
  {
    hide Swapped, Scheduled, Turned, Stream, Xor, Sum, XorByte;
    ghost var p, was := key[..keylen], data[..];
    var s := Schedule(key, keylen);
    NextTurn(p, 0);
    ScheduledIndex(p);
    var i, j, k := 0, 0, 0;
    while k < len
      invariant 0 <= k <= len && 0 <= i < 256 && 0 <= j < 256
      invariant Turned(p, k) == State(s[..], i, j)
      invariant data[..k] == Xor(was[..k], Stream(p, k))
      invariant data[k..] == was[k..]
    {
      NextTurn(p, k);
      i := Sum(i, 1, 0);
      j := Sum(j, s[i], 0);
      SwapBytes(s, i, j);
      StreamNext(p, k, was);
      ghost var head := data[..k];
      assert data[k] == data[k..][0] == was[k];
      data[k] := XorByte(data[k], s[Sum(0, s[i], s[j])]);
      assert data[..k + 1] == head + [data[k]];
      assert data[k + 1..] == was[k + 1..];
      k := k + 1;
    }
  }

  lemma XorSnoc(a: seq<byte>, b: seq<byte>, x: byte, y: byte)
    requires |a| == |b|
    ensures Xor(a + [x], b + [y]) == Xor(a, b) + [XorByte(x, y)]
  {
  }

  lemma StreamNext(key: seq<byte>, k: nat, was: seq<byte>)
    requires key != [] && k < |was|
    ensures Stream(key, 0) == []
    ensures Xor(was[..k + 1], Stream(key, k + 1)) == Xor(was[..k], Stream(key, k)) + [XorByte(was[k], Output(Turned(key, k + 1)))]
  {
    hide Turned, Output, Xor, XorByte;
    XorSnoc(was[..k], Stream(key, k), was[k], Output(Turned(key, k + 1)));
    assert was[..k + 1] == was[..k] + [was[k]];
  }
}
