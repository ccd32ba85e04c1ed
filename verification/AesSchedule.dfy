/** The key expansion of FIPS 197, section 5.2, one word at a time. */
module AesSchedule {
  import opened Bits
  import opened AesTables
  import opened AesField
  import opened AesSpec

  function RotWord(w: bv32): bv32 {
    Word(B1(w), B2(w), B3(w), B0(w))
  }

  /** The round constant: a power of two in the field. */
  function Rcon(i: nat): byte
    requires i > 0
  {
    if i == 1 then 1 else Xtime(Rcon(i - 1))
  }

  /** What is added to word `n - nk` to make word `n`; `q` and `j` are the quotient and remainder of `n` by `nk`. */
  function Temp(last: bv32, nk: nat, q: nat, j: nat): bv32 {
    if j == 0 && q > 0 then AddWord(SubWord(RotWord(last)), Word(Rcon(q), 0, 0, 0))
    else if nk > 6 && j == 4 then SubWord(last)
    else last
  }

  /** The first `n` words of the schedule of `key`. */
  function Expand(key: seq<bv32>, n: nat): (w: seq<bv32>)
    requires |key| > 0
    ensures |w| == n
  {
    if n <= |key| then key[..n]
    else
      var w := Expand(key, n - 1);
      w + [AddWord(w[n - 1 - |key|], Temp(w[n - 2], |key|, (n - 1) / |key|, (n - 1) % |key|))]
  }

  /** Word `n` of the schedule, with the quotient and the remainder given. */
  lemma ExpandNext(key: seq<bv32>, n: nat, q: nat, j: nat)
    requires n >= |key| > 0 && n / |key| == q && n % |key| == j
    ensures
      var w := Expand(key, n);
      Expand(key, n + 1) == w + [AddWord(w[n - |key|], Temp(w[n - 1], |key|, q, j))]
  {
    hide Temp;
  }

  lemma Quotient(m: nat, n: nat, q: nat, j: nat)
    requires (m == 4 && n == 4 * q + j) || (m == 6 && n == 6 * q + j) || (m == 8 && n == 8 * q + j)
    requires j < m
    ensures n / m == q && n % m == j
  {}

  lemma ExpandPrefix(key: seq<bv32>, n: nat)
    requires |key| > 0 && n <= |key|
    ensures Expand(key, n) == key[..n]
  {}

  /** The first `n` words of a byte key. */
  function WordsOf(key: seq<byte>, n: nat): (w: seq<bv32>)
    requires |key| >= 4 * n
    ensures |w| == n
  {
    seq(n, i requires 0 <= i < n => Word(key[4 * i], key[4 * i + 1], key[4 * i + 2], key[4 * i + 3]))
  }

  lemma RconTable()
    ensures Rcon(1) == 0x01 && Rcon(2) == 0x02 && Rcon(3) == 0x04 && Rcon(4) == 0x08 && Rcon(5) == 0x10
    ensures Rcon(6) == 0x20 && Rcon(7) == 0x40 && Rcon(8) == 0x80 && Rcon(9) == 0x1b && Rcon(10) == 0x36
  {}
}
