/** Where the constants of the digests come from: those of SHA-256 are the first bits of roots of the first primes (sections
    4.2.2 and 5.3.3 of FIPS 180-4), those of SHA-1 of roots of small numbers, and its initial words count nibbles. */
module HashConstants {
  import opened Bits
  import opened HashSpec

  // ---- Primes

  predicate Prime(n: nat) {
    n >= 2 && forall d :: 2 <= d < n ==> n % d != 0
  }

  /** How many primes are below `n`. */
  function Primes(n: nat): nat {
    if n == 0 then 0 else Primes(n - 1) + if Prime(n - 1) then 1 else 0
  }

  lemma {:induction false} PrimesGrow(m: nat, n: nat)
    requires m <= n
    ensures Primes(m) <= Primes(n)
    decreases n
  {
    hide Prime;
    if m < n {
      PrimesGrow(m, n - 1);
    }
  }

  lemma FewerBelow(p: nat, q: nat)
    requires Prime(p) && p < q
    ensures Primes(p) < Primes(q)
  {
    hide Prime;
    PrimesGrow(p + 1, q);
  }

  /** A prime is known by how many are below it. */
  lemma SamePrime(p: nat, q: nat)
    requires Prime(p) && Prime(q) && Primes(p) == Primes(q)
    ensures p == q
  {
    hide Prime, Primes;
    if p < q {
      FewerBelow(p, q);
    }
    if q < p {
      FewerBelow(q, p);
    }
  }

  /** Among the numbers below the square of 18 those above 17 without a divisor up to 17 are primes. */
  predicate Undivided(n: nat) {
    && 17 < n < 324
    && n % 2 != 0 && n % 3 != 0 && n % 4 != 0 && n % 5 != 0 && n % 6 != 0 && n % 7 != 0 && n % 8 != 0 && n % 9 != 0
    && n % 10 != 0 && n % 11 != 0 && n % 12 != 0 && n % 13 != 0 && n % 14 != 0 && n % 15 != 0 && n % 16 != 0 && n % 17 != 0
  }

  predicate Divided(n: nat) {
    && 17 < n
    && (n % 2 == 0 || n % 3 == 0 || n % 5 == 0 || n % 7 == 0 || n % 11 == 0 || n % 13 == 0 || n % 17 == 0)
  }

  lemma SmallDivisor(n: nat, d: nat)
    requires Undivided(n) && 2 <= d <= 17
    ensures n % d != 0
  {
    assert d in {2, 3, 4, 5, 6, 7, 8, 9, 10, 11, 12, 13, 14, 15, 16, 17};
  }

  /** A number below 324 with a divisor of at least 18 has one of at most 17. */
  lemma Cofactor(n: nat, d: nat) returns (e: nat)
    requires 0 < n < 324 && 18 <= d < n && n % d == 0
    ensures 2 <= e <= 17 && n % e == 0
  {
    e := n / d;
    assert n == e * d;
    SmallFactor(e, d);
    Exact(d, e);
  }

  lemma SmallFactor(e: nat, d: nat)
    requires d >= 18 && 0 < e * d < 324 && e * d > d
    ensures 2 <= e <= 17
  {
    if e >= 18 {
      Larger(e, d);
    }
  }

  lemma Larger(e: nat, d: nat)
    requires d >= 18 && e >= 18
    ensures e * d >= 324
  {
    assert e * d == (e - 18) * d + 18 * d;
  }

  lemma Exact(d: nat, e: nat)
    requires e > 0
    ensures (e * d) % e == 0
  {
    var n := e * d;
    var k := d - n / e;
    assert e * k == e * d - e * (n / e) == n % e;
    Multiple(e, k);
  }

  lemma Multiple(e: int, k: int)
    requires e > 0
    ensures 0 <= e * k < e ==> k == 0
  {
    if k >= 1 {
      AtLeast(e, k);
    } else if k <= -1 {
      AtLeast(e, -k);
    }
  }

  lemma AtLeast(e: int, k: int)
    requires e > 0 && k >= 1
    ensures e * k >= e && e * -k <= -e
  {
    assert e * k == e + e * (k - 1);
  }

  lemma UndividedIsPrime(n: nat)
    requires Undivided(n)
    ensures Prime(n)
  {
    forall d | 2 <= d < n
      ensures n % d != 0
    {
      if d <= 17 {
        SmallDivisor(n, d);
      } else if n % d == 0 {
        var e := Cofactor(n, d);
        SmallDivisor(n, e);
      }
    }
  }

  lemma DividedIsNot(n: nat)
    requires Divided(n)
    ensures !Prime(n)
  {
  }

  /** All numbers between two have a small divisor. */
  predicate Gap(p: nat, q: nat)
    decreases q
  {
    q <= p + 1 || (Divided(q - 1) && Gap(p, q - 1))
  }

  lemma {:induction false} Between(p: nat, q: nat)
    requires p < q && Prime(p) && Gap(p, q)
    ensures Primes(q) == Primes(p) + 1
    decreases q
  {
    hide Prime, Divided;
    if p + 1 < q {
      Between(p, q - 1);
      DividedIsNot(q - 1);
    }
  }

  lemma NextPrime(p: nat, q: nat, t: nat)
    requires Prime(p) && Primes(p) == t && p < q && Undivided(q) && Gap(p, q)
    ensures Prime(q) && Primes(q) == t + 1
  {
    hide Prime, Gap, Undivided;
    UndividedIsPrime(q);
    Between(p, q);
  }

  /** The prime with `t` primes below it. */
  function Nth(t: nat): nat
    requires t < 64
  {
    match t
    case 0 => 2 case 1 => 3 case 2 => 5 case 3 => 7 case 4 => 11 case 5 => 13 case 6 => 17 case 7 => 19
    case 8 => 23 case 9 => 29 case 10 => 31 case 11 => 37 case 12 => 41 case 13 => 43 case 14 => 47 case 15 => 53
    case 16 => 59 case 17 => 61 case 18 => 67 case 19 => 71 case 20 => 73 case 21 => 79 case 22 => 83 case 23 => 89
    case 24 => 97 case 25 => 101 case 26 => 103 case 27 => 107 case 28 => 109 case 29 => 113 case 30 => 127 case 31 => 131
    case 32 => 137 case 33 => 139 case 34 => 149 case 35 => 151 case 36 => 157 case 37 => 163 case 38 => 167 case 39 => 173
    case 40 => 179 case 41 => 181 case 42 => 191 case 43 => 193 case 44 => 197 case 45 => 199 case 46 => 211 case 47 => 223
    case 48 => 227 case 49 => 229 case 50 => 233 case 51 => 239 case 52 => 241 case 53 => 251 case 54 => 257 case 55 => 263
    case 56 => 269 case 57 => 271 case 58 => 277 case 59 => 281 case 60 => 283 case 61 => 293 case 62 => 307 case _ => 311
  }

  lemma SmallPrimes()
    ensures Prime(2) && Prime(3) && Prime(5) && Prime(7) && Prime(11) && Prime(13) && Prime(17)
  {
  }

  lemma SmallComposites()
    ensures !Prime(0) && !Prime(1) && !Prime(4) && !Prime(6) && !Prime(8) && !Prime(9) && !Prime(10) && !Prime(12)
    ensures !Prime(14) && !Prime(15) && !Prime(16)
  {
    assert 4 % 2 == 0 && 6 % 2 == 0 && 8 % 2 == 0 && 9 % 3 == 0 && 10 % 2 == 0 && 12 % 2 == 0;
    assert 14 % 2 == 0 && 15 % 3 == 0 && 16 % 2 == 0;
  }

  /** The first seven primes. */
  lemma FirstPrimes()
    ensures Prime(2) && Prime(3) && Prime(5) && Prime(7) && Prime(11) && Prime(13) && Prime(17)
    ensures Primes(2) == 0 && Primes(3) == 1 && Primes(5) == 2 && Primes(7) == 3 && Primes(11) == 4 && Primes(13) == 5 && Primes(17) == 6
  {
    hide Prime, Primes;
    SmallPrimes();
    SmallComposites();
    OneMore(0); OneMore(1); OneMore(2); OneMore(3); OneMore(4); OneMore(5); OneMore(6); OneMore(7); OneMore(8);
    OneMore(9); OneMore(10); OneMore(11); OneMore(12); OneMore(13); OneMore(14); OneMore(15); OneMore(16);
  }

  lemma OneMore(n: nat)
    ensures Primes(0) == 0 && Primes(n + 1) == Primes(n) + if Prime(n) then 1 else 0
  {
    hide Prime;
  }

  lemma PrimesTo14()
    ensures Prime(19) && Primes(19) == 7
    ensures Prime(23) && Primes(23) == 8
    ensures Prime(29) && Primes(29) == 9
    ensures Prime(31) && Primes(31) == 10
    ensures Prime(37) && Primes(37) == 11
    ensures Prime(41) && Primes(41) == 12
    ensures Prime(43) && Primes(43) == 13
    ensures Prime(47) && Primes(47) == 14
  {
    hide Prime, Primes;
    FirstPrimes();
    NextPrime(17, 19, 6);
    NextPrime(19, 23, 7);
    NextPrime(23, 29, 8);
    NextPrime(29, 31, 9);
    NextPrime(31, 37, 10);
    NextPrime(37, 41, 11);
    NextPrime(41, 43, 12);
    NextPrime(43, 47, 13);
  }

  lemma PrimesTo22()
    ensures Prime(53) && Primes(53) == 15
    ensures Prime(59) && Primes(59) == 16
    ensures Prime(61) && Primes(61) == 17
    ensures Prime(67) && Primes(67) == 18
    ensures Prime(71) && Primes(71) == 19
    ensures Prime(73) && Primes(73) == 20
    ensures Prime(79) && Primes(79) == 21
    ensures Prime(83) && Primes(83) == 22
  {
    hide Prime, Primes;
    PrimesTo14();
    NextPrime(47, 53, 14);
    NextPrime(53, 59, 15);
    NextPrime(59, 61, 16);
    NextPrime(61, 67, 17);
    NextPrime(67, 71, 18);
    NextPrime(71, 73, 19);
    NextPrime(73, 79, 20);
    NextPrime(79, 83, 21);
  }

  lemma PrimesTo30()
    ensures Prime(89) && Primes(89) == 23
    ensures Prime(97) && Primes(97) == 24
    ensures Prime(101) && Primes(101) == 25
    ensures Prime(103) && Primes(103) == 26
    ensures Prime(107) && Primes(107) == 27
    ensures Prime(109) && Primes(109) == 28
    ensures Prime(113) && Primes(113) == 29
    ensures Prime(127) && Primes(127) == 30
  {
    hide Prime, Primes;
    PrimesTo22();
    NextPrime(83, 89, 22);
    NextPrime(89, 97, 23);
    NextPrime(97, 101, 24);
    NextPrime(101, 103, 25);
    NextPrime(103, 107, 26);
    NextPrime(107, 109, 27);
    NextPrime(109, 113, 28);
    NextPrime(113, 127, 29);
  }

  lemma PrimesTo38()
    ensures Prime(131) && Primes(131) == 31
    ensures Prime(137) && Primes(137) == 32
    ensures Prime(139) && Primes(139) == 33
    ensures Prime(149) && Primes(149) == 34
    ensures Prime(151) && Primes(151) == 35
    ensures Prime(157) && Primes(157) == 36
    ensures Prime(163) && Primes(163) == 37
    ensures Prime(167) && Primes(167) == 38
  {
    hide Prime, Primes;
    PrimesTo30();
    NextPrime(127, 131, 30);
    NextPrime(131, 137, 31);
    NextPrime(137, 139, 32);
    NextPrime(139, 149, 33);
    NextPrime(149, 151, 34);
    NextPrime(151, 157, 35);
    NextPrime(157, 163, 36);
    NextPrime(163, 167, 37);
  }

  lemma PrimesTo46()
    ensures Prime(173) && Primes(173) == 39
    ensures Prime(179) && Primes(179) == 40
    ensures Prime(181) && Primes(181) == 41
    ensures Prime(191) && Primes(191) == 42
    ensures Prime(193) && Primes(193) == 43
    ensures Prime(197) && Primes(197) == 44
    ensures Prime(199) && Primes(199) == 45
    ensures Prime(211) && Primes(211) == 46
  {
    hide Prime, Primes;
    PrimesTo38();
    NextPrime(167, 173, 38);
    NextPrime(173, 179, 39);
    NextPrime(179, 181, 40);
    NextPrime(181, 191, 41);
    NextPrime(191, 193, 42);
    NextPrime(193, 197, 43);
    NextPrime(197, 199, 44);
    NextPrime(199, 211, 45);
  }

  lemma PrimesTo54()
    ensures Prime(223) && Primes(223) == 47
    ensures Prime(227) && Primes(227) == 48
    ensures Prime(229) && Primes(229) == 49
    ensures Prime(233) && Primes(233) == 50
    ensures Prime(239) && Primes(239) == 51
    ensures Prime(241) && Primes(241) == 52
    ensures Prime(251) && Primes(251) == 53
    ensures Prime(257) && Primes(257) == 54
  {
    hide Prime, Primes;
    PrimesTo46();
    NextPrime(211, 223, 46);
    NextPrime(223, 227, 47);
    NextPrime(227, 229, 48);
    NextPrime(229, 233, 49);
    NextPrime(233, 239, 50);
    NextPrime(239, 241, 51);
    NextPrime(241, 251, 52);
    NextPrime(251, 257, 53);
  }

  lemma PrimesTo62()
    ensures Prime(263) && Primes(263) == 55
    ensures Prime(269) && Primes(269) == 56
    ensures Prime(271) && Primes(271) == 57
    ensures Prime(277) && Primes(277) == 58
    ensures Prime(281) && Primes(281) == 59
    ensures Prime(283) && Primes(283) == 60
    ensures Prime(293) && Primes(293) == 61
    ensures Prime(307) && Primes(307) == 62
  {
    hide Prime, Primes;
    PrimesTo54();
    NextPrime(257, 263, 54);
    NextPrime(263, 269, 55);
    NextPrime(269, 271, 56);
    NextPrime(271, 277, 57);
    NextPrime(277, 281, 58);
    NextPrime(281, 283, 59);
    NextPrime(283, 293, 60);
    NextPrime(293, 307, 61);
  }

  lemma PrimesTo63()
    ensures Prime(311) && Primes(311) == 63
  {
    hide Prime, Primes;
    PrimesTo62();
    NextPrime(307, 311, 62);
  }

  lemma NthIsPrime(t: nat)
    requires t < 64
    ensures Prime(Nth(t)) && Primes(Nth(t)) == t
  {
    hide Prime, Primes;
    FirstPrimes();
    PrimesTo14();
    PrimesTo22();
    PrimesTo30();
    PrimesTo38();
    PrimesTo46();
    PrimesTo54();
    PrimesTo62();
    PrimesTo63();
    assert t in {
      0, 1, 2, 3, 4, 5, 6, 7, 8, 9, 10, 11, 12, 13, 14, 15,
      16, 17, 18, 19, 20, 21, 22, 23, 24, 25, 26, 27, 28, 29, 30, 31,
      32, 33, 34, 35, 36, 37, 38, 39, 40, 41, 42, 43, 44, 45, 46, 47,
      48, 49, 50, 51, 52, 53, 54, 55, 56, 57, 58, 59, 60, 61, 62, 63};
  }

  // ---- Roots

  function Square(n: nat): nat {
    n * n
  }

  function Cube(n: nat): nat {
    n * n * n
  }

  function Number(w: bv32): nat {
    w as nat
  }

  /** `k` is the first 32 bits behind the point of the cube root of `n`. */
  ghost predicate CubeRootBits(n: nat, k: nat) {
    exists i: nat :: Cube(i) <= n < Cube(i + 1) &&
      Cube(i * 0x1_0000_0000 + k) <= n * 0x1_0000_0000_0000_0000_0000_0000 < Cube(i * 0x1_0000_0000 + k + 1)
  }

  /** The same for the square root. */
  ghost predicate SquareRootBits(n: nat, k: nat) {
    exists i: nat :: Square(i) <= n < Square(i + 1) &&
      Square(i * 0x1_0000_0000 + k) <= n * 0x1_0000_0000_0000_0000 < Square(i * 0x1_0000_0000 + k + 1)
  }

  lemma IsCubeRoot(n: nat, k: nat, i: nat)
    requires Cube(i) <= n < Cube(i + 1)
    requires Cube(i * 0x1_0000_0000 + k) <= n * 0x1_0000_0000_0000_0000_0000_0000 < Cube(i * 0x1_0000_0000 + k + 1)
    ensures CubeRootBits(n, k)
  {
  }

  lemma IsSquareRoot(n: nat, k: nat, i: nat)
    requires Square(i) <= n < Square(i + 1)
    requires Square(i * 0x1_0000_0000 + k) <= n * 0x1_0000_0000_0000_0000 < Square(i * 0x1_0000_0000 + k + 1)
    ensures SquareRootBits(n, k)
  {
  }

  lemma Constants0()
    ensures Sha256K(0) == 0x428a2f98 && Sha256K(1) == 0x71374491
    ensures Sha256K(2) == 0xb5c0fbcf && Sha256K(3) == 0xe9b5dba5
  {}

  lemma CubeRoots0(t: nat)
    requires 0 <= t < 4
    ensures CubeRootBits(Nth(t), Number(Sha256K(t)))
  {
    hide CubeRootBits, Sha256K;
    Constants0();
    IsCubeRoot(2, 0x428a2f98, 1);
    IsCubeRoot(3, 0x71374491, 1);
    IsCubeRoot(5, 0xb5c0fbcf, 1);
    IsCubeRoot(7, 0xe9b5dba5, 1);
    assert t in {0, 1, 2, 3};
  }

  lemma Constants4()
    ensures Sha256K(4) == 0x3956c25b && Sha256K(5) == 0x59f111f1
    ensures Sha256K(6) == 0x923f82a4 && Sha256K(7) == 0xab1c5ed5
  {}

  lemma CubeRoots4(t: nat)
    requires 4 <= t < 8
    ensures CubeRootBits(Nth(t), Number(Sha256K(t)))
  {
    hide CubeRootBits, Sha256K;
    Constants4();
    IsCubeRoot(11, 0x3956c25b, 2);
    IsCubeRoot(13, 0x59f111f1, 2);
    IsCubeRoot(17, 0x923f82a4, 2);
    IsCubeRoot(19, 0xab1c5ed5, 2);
    assert t in {4, 5, 6, 7};
  }

  lemma Constants8()
    ensures Sha256K(8) == 0xd807aa98 && Sha256K(9) == 0x12835b01
    ensures Sha256K(10) == 0x243185be && Sha256K(11) == 0x550c7dc3
  {}

  lemma CubeRoots8(t: nat)
    requires 8 <= t < 12
    ensures CubeRootBits(Nth(t), Number(Sha256K(t)))
  {
    hide CubeRootBits, Sha256K;
    Constants8();
    IsCubeRoot(23, 0xd807aa98, 2);
    IsCubeRoot(29, 0x12835b01, 3);
    IsCubeRoot(31, 0x243185be, 3);
    IsCubeRoot(37, 0x550c7dc3, 3);
    assert t in {8, 9, 10, 11};
  }

  lemma Constants12()
    ensures Sha256K(12) == 0x72be5d74 && Sha256K(13) == 0x80deb1fe
    ensures Sha256K(14) == 0x9bdc06a7 && Sha256K(15) == 0xc19bf174
  {}

  lemma CubeRoots12(t: nat)
    requires 12 <= t < 16
    ensures CubeRootBits(Nth(t), Number(Sha256K(t)))
  {
    hide CubeRootBits, Sha256K;
    Constants12();
    IsCubeRoot(41, 0x72be5d74, 3);
    IsCubeRoot(43, 0x80deb1fe, 3);
    IsCubeRoot(47, 0x9bdc06a7, 3);
    IsCubeRoot(53, 0xc19bf174, 3);
    assert t in {12, 13, 14, 15};
  }

  lemma Constants16()
    ensures Sha256K(16) == 0xe49b69c1 && Sha256K(17) == 0xefbe4786
    ensures Sha256K(18) == 0x0fc19dc6 && Sha256K(19) == 0x240ca1cc
  {}

  lemma CubeRoots16(t: nat)
    requires 16 <= t < 20
    ensures CubeRootBits(Nth(t), Number(Sha256K(t)))
  {
    hide CubeRootBits, Sha256K;
    Constants16();
    IsCubeRoot(59, 0xe49b69c1, 3);
    IsCubeRoot(61, 0xefbe4786, 3);
    IsCubeRoot(67, 0x0fc19dc6, 4);
    IsCubeRoot(71, 0x240ca1cc, 4);
    assert t in {16, 17, 18, 19};
  }

  lemma Constants20()
    ensures Sha256K(20) == 0x2de92c6f && Sha256K(21) == 0x4a7484aa
    ensures Sha256K(22) == 0x5cb0a9dc && Sha256K(23) == 0x76f988da
  {}

  lemma CubeRoots20(t: nat)
    requires 20 <= t < 24
    ensures CubeRootBits(Nth(t), Number(Sha256K(t)))
  {
    hide CubeRootBits, Sha256K;
    Constants20();
    IsCubeRoot(73, 0x2de92c6f, 4);
    IsCubeRoot(79, 0x4a7484aa, 4);
    IsCubeRoot(83, 0x5cb0a9dc, 4);
    IsCubeRoot(89, 0x76f988da, 4);
    assert t in {20, 21, 22, 23};
  }

  lemma Constants24()
    ensures Sha256K(24) == 0x983e5152 && Sha256K(25) == 0xa831c66d
    ensures Sha256K(26) == 0xb00327c8 && Sha256K(27) == 0xbf597fc7
  {}

  lemma CubeRoots24(t: nat)
    requires 24 <= t < 28
    ensures CubeRootBits(Nth(t), Number(Sha256K(t)))
  {
    hide CubeRootBits, Sha256K;
    Constants24();
    IsCubeRoot(97, 0x983e5152, 4);
    IsCubeRoot(101, 0xa831c66d, 4);
    IsCubeRoot(103, 0xb00327c8, 4);
    IsCubeRoot(107, 0xbf597fc7, 4);
    assert t in {24, 25, 26, 27};
  }

  lemma Constants28()
    ensures Sha256K(28) == 0xc6e00bf3 && Sha256K(29) == 0xd5a79147
    ensures Sha256K(30) == 0x06ca6351 && Sha256K(31) == 0x14292967
  {}

  lemma CubeRoots28(t: nat)
    requires 28 <= t < 32
    ensures CubeRootBits(Nth(t), Number(Sha256K(t)))
  {
    hide CubeRootBits, Sha256K;
    Constants28();
    IsCubeRoot(109, 0xc6e00bf3, 4);
    IsCubeRoot(113, 0xd5a79147, 4);
    IsCubeRoot(127, 0x06ca6351, 5);
    IsCubeRoot(131, 0x14292967, 5);
    assert t in {28, 29, 30, 31};
  }

  lemma Constants32()
    ensures Sha256K(32) == 0x27b70a85 && Sha256K(33) == 0x2e1b2138
    ensures Sha256K(34) == 0x4d2c6dfc && Sha256K(35) == 0x53380d13
  {}

  lemma CubeRoots32(t: nat)
    requires 32 <= t < 36
    ensures CubeRootBits(Nth(t), Number(Sha256K(t)))
  {
    hide CubeRootBits, Sha256K;
    Constants32();
    IsCubeRoot(137, 0x27b70a85, 5);
    IsCubeRoot(139, 0x2e1b2138, 5);
    IsCubeRoot(149, 0x4d2c6dfc, 5);
    IsCubeRoot(151, 0x53380d13, 5);
    assert t in {32, 33, 34, 35};
  }

  lemma Constants36()
    ensures Sha256K(36) == 0x650a7354 && Sha256K(37) == 0x766a0abb
    ensures Sha256K(38) == 0x81c2c92e && Sha256K(39) == 0x92722c85
  {}

  lemma CubeRoots36(t: nat)
    requires 36 <= t < 40
    ensures CubeRootBits(Nth(t), Number(Sha256K(t)))
  {
    hide CubeRootBits, Sha256K;
    Constants36();
    IsCubeRoot(157, 0x650a7354, 5);
    IsCubeRoot(163, 0x766a0abb, 5);
    IsCubeRoot(167, 0x81c2c92e, 5);
    IsCubeRoot(173, 0x92722c85, 5);
    assert t in {36, 37, 38, 39};
  }

  lemma Constants40()
    ensures Sha256K(40) == 0xa2bfe8a1 && Sha256K(41) == 0xa81a664b
    ensures Sha256K(42) == 0xc24b8b70 && Sha256K(43) == 0xc76c51a3
  {}

  lemma CubeRoots40(t: nat)
    requires 40 <= t < 44
    ensures CubeRootBits(Nth(t), Number(Sha256K(t)))
  {
    hide CubeRootBits, Sha256K;
    Constants40();
    IsCubeRoot(179, 0xa2bfe8a1, 5);
    IsCubeRoot(181, 0xa81a664b, 5);
    IsCubeRoot(191, 0xc24b8b70, 5);
    IsCubeRoot(193, 0xc76c51a3, 5);
    assert t in {40, 41, 42, 43};
  }

  lemma Constants44()
    ensures Sha256K(44) == 0xd192e819 && Sha256K(45) == 0xd6990624
    ensures Sha256K(46) == 0xf40e3585 && Sha256K(47) == 0x106aa070
  {}

  lemma CubeRoots44(t: nat)
    requires 44 <= t < 48
    ensures CubeRootBits(Nth(t), Number(Sha256K(t)))
  {
    hide CubeRootBits, Sha256K;
    Constants44();
    IsCubeRoot(197, 0xd192e819, 5);
    IsCubeRoot(199, 0xd6990624, 5);
    IsCubeRoot(211, 0xf40e3585, 5);
    IsCubeRoot(223, 0x106aa070, 6);
    assert t in {44, 45, 46, 47};
  }

  lemma Constants48()
    ensures Sha256K(48) == 0x19a4c116 && Sha256K(49) == 0x1e376c08
    ensures Sha256K(50) == 0x2748774c && Sha256K(51) == 0x34b0bcb5
  {}

  lemma CubeRoots48(t: nat)
    requires 48 <= t < 52
    ensures CubeRootBits(Nth(t), Number(Sha256K(t)))
  {
    hide CubeRootBits, Sha256K;
    Constants48();
    IsCubeRoot(227, 0x19a4c116, 6);
    IsCubeRoot(229, 0x1e376c08, 6);
    IsCubeRoot(233, 0x2748774c, 6);
    IsCubeRoot(239, 0x34b0bcb5, 6);
    assert t in {48, 49, 50, 51};
  }

  lemma Constants52()
    ensures Sha256K(52) == 0x391c0cb3 && Sha256K(53) == 0x4ed8aa4a
    ensures Sha256K(54) == 0x5b9cca4f && Sha256K(55) == 0x682e6ff3
  {}

  lemma CubeRoots52(t: nat)
    requires 52 <= t < 56
    ensures CubeRootBits(Nth(t), Number(Sha256K(t)))
  {
    hide CubeRootBits, Sha256K;
    Constants52();
    IsCubeRoot(241, 0x391c0cb3, 6);
    IsCubeRoot(251, 0x4ed8aa4a, 6);
    IsCubeRoot(257, 0x5b9cca4f, 6);
    IsCubeRoot(263, 0x682e6ff3, 6);
    assert t in {52, 53, 54, 55};
  }

  lemma Constants56()
    ensures Sha256K(56) == 0x748f82ee && Sha256K(57) == 0x78a5636f
    ensures Sha256K(58) == 0x84c87814 && Sha256K(59) == 0x8cc70208
  {}

  lemma CubeRoots56(t: nat)
    requires 56 <= t < 60
    ensures CubeRootBits(Nth(t), Number(Sha256K(t)))
  {
    hide CubeRootBits, Sha256K;
    Constants56();
    IsCubeRoot(269, 0x748f82ee, 6);
    IsCubeRoot(271, 0x78a5636f, 6);
    IsCubeRoot(277, 0x84c87814, 6);
    IsCubeRoot(281, 0x8cc70208, 6);
    assert t in {56, 57, 58, 59};
  }

  lemma Constants60()
    ensures Sha256K(60) == 0x90befffa && Sha256K(61) == 0xa4506ceb
    ensures Sha256K(62) == 0xbef9a3f7 && Sha256K(63) == 0xc67178f2
  {}

  lemma CubeRoots60(t: nat)
    requires 60 <= t < 64
    ensures CubeRootBits(Nth(t), Number(Sha256K(t)))
  {
    hide CubeRootBits, Sha256K;
    Constants60();
    IsCubeRoot(283, 0x90befffa, 6);
    IsCubeRoot(293, 0xa4506ceb, 6);
    IsCubeRoot(307, 0xbef9a3f7, 6);
    IsCubeRoot(311, 0xc67178f2, 6);
    assert t in {60, 61, 62, 63};
  }

  /** The round constant of round `t` of SHA-256 comes from the cube root of the prime with `t` primes below it. */
  lemma RoundConstant(t: nat, p: nat)
    requires t < 64 && Prime(p) && Primes(p) == t
    ensures CubeRootBits(p, Number(Sha256K(t)))
  {
    hide Prime, Primes, CubeRootBits, Sha256K;
    NthIsPrime(t);
    SamePrime(p, Nth(t));
    if t < 4 { CubeRoots0(t); }
    else if t < 8 { CubeRoots4(t); }
    else if t < 12 { CubeRoots8(t); }
    else if t < 16 { CubeRoots12(t); }
    else if t < 20 { CubeRoots16(t); }
    else if t < 24 { CubeRoots20(t); }
    else if t < 28 { CubeRoots24(t); }
    else if t < 32 { CubeRoots28(t); }
    else if t < 36 { CubeRoots32(t); }
    else if t < 40 { CubeRoots36(t); }
    else if t < 44 { CubeRoots40(t); }
    else if t < 48 { CubeRoots44(t); }
    else if t < 52 { CubeRoots48(t); }
    else if t < 56 { CubeRoots52(t); }
    else if t < 60 { CubeRoots56(t); }
    else { CubeRoots60(t); }
  }

  lemma SquareRoots(t: nat)
    requires t < 8
    ensures SquareRootBits(Nth(t), Number(Start(Sha256)[t]))
  {
    hide SquareRootBits, Start;
    StartWords();
    IsSquareRoot(2, 0x6a09e667, 1);
    IsSquareRoot(3, 0xbb67ae85, 1);
    IsSquareRoot(5, 0x3c6ef372, 2);
    IsSquareRoot(7, 0xa54ff53a, 2);
    IsSquareRoot(11, 0x510e527f, 3);
    IsSquareRoot(13, 0x9b05688c, 3);
    IsSquareRoot(17, 0x1f83d9ab, 4);
    IsSquareRoot(19, 0x5be0cd19, 4);
    assert t in {0, 1, 2, 3, 4, 5, 6, 7};
  }

  lemma StartWords()
    ensures Start(Sha256) == [0x6a09e667, 0xbb67ae85, 0x3c6ef372, 0xa54ff53a, 0x510e527f, 0x9b05688c, 0x1f83d9ab, 0x5be0cd19]
  {
  }

  /** Initial word `t` of SHA-256 comes from the square root of the prime with `t` primes below it. */
  lemma StartWord(t: nat, p: nat)
    requires t < 8 && Prime(p) && Primes(p) == t
    ensures SquareRootBits(p, Number(Start(Sha256)[t]))
  {
    hide Prime, Primes, SquareRootBits, Start;
    NthIsPrime(t);
    SamePrime(p, Nth(t));
    SquareRoots(t);
  }

  // ---- SHA-1

  /** The constants of SHA-1 are the square roots of 2, 3, 5 and 10 in units of `1 / 2^30`. */
  lemma Sha1Constant(t: nat)
    requires t < 80
    ensures var n, k := if t < 20 then 2 else if t < 40 then 3 else if t < 60 then 5 else 10, Number(Sha1K(t));
      Square(k) <= n * 0x1000_0000_0000_0000 < Square(k + 1)
  {
  }

  /** Byte `j` of the five initial words, the last byte of each word first: the nibbles count up, then down, and then apart. */
  function StartByte(j: nat): nat
    requires j < 20
  {
    if j < 8 then 0x01 + 0x22 * j else if j < 16 then 0xfe - 0x22 * (j - 8) else 0xf0 - 0x0f * (j - 16)
  }

  lemma Sha1Start(i: nat)
    requires i < 5
    ensures Number(Start(Sha1)[i]) == StartByte(4 * i) + 0x100 * StartByte(4 * i + 1) + 0x1_0000 * StartByte(4 * i + 2) + 0x100_0000 * StartByte(4 * i + 3)
  {
    assert i in {0, 1, 2, 3, 4};
  }
}
