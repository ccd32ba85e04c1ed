/** The block cipher: sixteen rounds in either direction, and the triple form built on it. */
module DesCipher {
  import opened Bits
  import opened DesKeys
  import opened DesPermutation
  import opened DesRound

  const DES_IP: byte := 1
  const DES_IP_1: byte := 2
  const DES_RIGHT: byte := 4
  const DES_HASH: byte := 8

  const F_EURO_S2: byte := 1
  const F_TRIPLE_DES: byte := 2

  const CRYPT: byte := 0
  const HASH: byte := 1

  // ---- Sixteen rounds

  /** The two 28-bit registers, the twist byte, and whether the round output is hashed. */
  datatype Key = Key(left: bv32, right: bv32, k8: byte, hash: bool) {
    predicate Valid() {
      Fits(left) && Fits(right)
    }
  }

  /** How far right the registers have turned when round `i` uses them. */
  function Position(right: bool, i: nat): nat {
    if right then Total(RIGHT_MASK, i) else 27 * Total(LEFT_MASK, i + 1)
  }

  function RoundAt(k: Key, right: bool, i: nat, h: Halves): Halves {
    Round(RotN(k.left, Position(right, i)), RotN(k.right, Position(right, i)), h, k.k8, k.hash)
  }

  function Rounds(k: Key, right: bool, n: nat, h: Halves): Halves {
    if n == 0 then h else RoundAt(k, right, n - 1, Rounds(k, right, n - 1, h))
  }

  function Swap(h: Halves): Halves {
    Halves(h.r, h.l)
  }

  function Cipher(k: Key, right: bool, h: Halves): Halves {
    Swap(Rounds(k, right, 16, h))
  }

  lemma SameRegister(x: bv32, i: nat)
    requires Fits(x) && i < 16
    ensures RotN(x, Position(false, i)) == RotN(x, Position(true, 15 - i))
  {
    hide RotN;
    var t := Total(LEFT_MASK, i + 1);
    Mirrored(i);
    assert t >= 1;
    assert 27 * t == 28 * (t - 1) + (28 - t);
    RotPeriod(x, t - 1, 28 - t);
  }

  /** Round `i` of one direction and round `15 - i` of the other use the same key. */
  lemma SameRound(k: Key, right: bool, i: nat, h: Halves)
    requires k.Valid() && i < 16
    ensures RoundAt(k, right, i, h) == RoundAt(k, !right, 15 - i, h)
  {
    hide Round, RotN, Position;
    if right {
      SameRegister(k.left, 15 - i);
      SameRegister(k.right, 15 - i);
    } else {
      SameRegister(k.left, i);
      SameRegister(k.right, i);
    }
  }

  lemma RoundUndone(left: bv32, right: bv32, h: Halves, k8: byte, hash: bool)
    ensures Round(left, right, Swap(Round(left, right, h, k8, hash)), k8, hash) == Swap(h)
  {
    hide F;
    XorCancels32(h.l, F(left, right, h.r, k8, hash));
  }

  lemma RoundsZero(k: Key, right: bool, h: Halves)
    ensures Rounds(k, right, 0, h) == h
  {}

  lemma RoundsNext(k: Key, right: bool, n: nat, h: Halves)
    ensures Rounds(k, right, n + 1, h) == RoundAt(k, right, n, Rounds(k, right, n, h))
  {
    hide RoundAt;
  }

  lemma RoundAtUndone(k: Key, right: bool, i: nat, h: Halves)
    requires k.Valid() && i < 16
    ensures RoundAt(k, !right, 15 - i, Swap(RoundAt(k, right, i, h))) == Swap(h)
  {
    hide Round, RotN, Position;
    var p := Position(right, i);
    RoundUndone(RotN(k.left, p), RotN(k.right, p), h, k.k8, k.hash);
    SameRound(k, right, i, Swap(RoundAt(k, right, i, h)));
  }

  lemma {:induction false} RoundsUndone(k: Key, right: bool, n: nat, h: Halves)
    requires k.Valid() && n <= 16
    ensures Rounds(k, !right, n, Swap(Rounds(k, right, 16, h))) == Swap(Rounds(k, right, 16 - n, h))
  {
    hide *;
    if n == 0 {
      RoundsZero(k, !right, Swap(Rounds(k, right, 16, h)));
    } else {
      RoundsUndone(k, right, n - 1, h);
      RoundsNext(k, !right, n - 1, Swap(Rounds(k, right, 16, h)));
      RoundsNext(k, right, 16 - n, h);
      RoundAtUndone(k, right, 16 - n, Rounds(k, right, 16 - n, h));
    }
  }

  /** The cipher run to the right undoes the cipher run to the left, and the other way round, for every key. */
  lemma CipherRoundTrip(k: Key, right: bool, h: Halves)
    requires k.Valid()
    ensures Cipher(k, !right, Cipher(k, right, h)) == h
  {
    hide Rounds;
    RoundsUndone(k, right, 16, h);
    RoundsZero(k, right, h);
  }

  // ---- Blocks of eight bytes

  /** The registers hold the first 28 bits of the key and the next 28; byte 7 is the twist. */
  function KeyOf(key: seq<byte>, mode: byte): (k: Key)
    requires |key| == 8
    ensures k.Valid()
  {
    Key(Word(key[0], key[1], key[2], key[3]) >> 4, Word(key[3] & 0x0f, key[4], key[5], key[6]), key[7], mode & DES_HASH != 0)
  }

  function DesBlock(key: seq<byte>, mode: byte, data: seq<byte>): (r: seq<byte>)
    requires |key| == 8 && |data| == 8
    ensures |r| == 8
  {
    var start := if mode & DES_IP != 0 then Ip(data) else data;
    var done := FromHalves(Cipher(KeyOf(key, mode), mode & DES_RIGHT != 0, ToHalves(start)));
    if mode & DES_IP_1 != 0 then IpInverse(done) else done
  }

  /** The core of the cipher, with neither permutation. */
  function DesCoreBlock(key: seq<byte>, right: bool, data: seq<byte>): (r: seq<byte>)
    requires |key| == 8 && |data| == 8
    ensures |r| == 8
  {
    FromHalves(Cipher(KeyOf(key, 0), right, ToHalves(data)))
  }

  lemma CoreRoundTrip(key: seq<byte>, right: bool, data: seq<byte>)
    requires |key| == 8 && |data| == 8
    ensures DesCoreBlock(key, !right, DesCoreBlock(key, right, data)) == data
  {
    hide Cipher, KeyOf, ToHalves, FromHalves;
    var k := KeyOf(key, 0);
    HalvesRoundTrip(data, Cipher(k, right, ToHalves(data)));
    CipherRoundTrip(k, right, ToHalves(data));
    HalvesRoundTrip(data, ToHalves(data));
  }

  lemma BlockIsCore(key: seq<byte>, right: bool, data: seq<byte>)
    requires |key| == 8 && |data| == 8
    ensures DesBlock(key, if right then DES_RIGHT else 0, data) == DesCoreBlock(key, right, data)
    ensures DesBlock(key, if right then DES_IP | DES_RIGHT else DES_IP, data) == DesCoreBlock(key, right, Ip(data))
    ensures DesBlock(key, if right then DES_RIGHT | DES_IP_1 else DES_IP_1, data) == IpInverse(DesCoreBlock(key, right, data))
    ensures DesBlock(key, if right then DES_IP | DES_IP_1 | DES_RIGHT else DES_IP | DES_IP_1, data)
         == IpInverse(DesCoreBlock(key, right, Ip(data)))
  {
    hide Cipher, ToHalves, FromHalves, Word, Ip, IpInverse;
  }

  // ---- The triple cipher and the single one

  /** What `EuroDes` does to a block when byte 7 of the first key is zero. */
  function EuroBlock(key1: seq<byte>, key2: seq<byte>, desMode: byte, op: byte, data: seq<byte>): (r: seq<byte>)
    requires |key1| == 8 && |key2| == 8 && |data| == 8
    ensures |r| == 8
  {
    if desMode & F_TRIPLE_DES != 0 then
      var mode := if op == HASH then 0 else DES_RIGHT;
      var once := DesBlock(key1, DES_IP | mode, data);
      var twice := DesBlock(key2, mode ^ DES_RIGHT, once);
      DesBlock(key1, mode | DES_IP_1, twice)
    else if desMode & F_EURO_S2 != 0 then
      DesBlock(key1, if op == HASH then DES_IP | DES_IP_1 else DES_IP | DES_IP_1 | DES_RIGHT, data)
    else
      DesBlock(key1, if op == HASH then DES_HASH else 0, data)
  }

  lemma TripleIsThreeCores(key1: seq<byte>, key2: seq<byte>, desMode: byte, op: byte, data: seq<byte>)
    requires |key1| == 8 && |key2| == 8 && |data| == 8 && desMode & F_TRIPLE_DES != 0
    ensures
      var right := op != HASH;
      EuroBlock(key1, key2, desMode, op, data) ==
        IpInverse(DesCoreBlock(key1, right, DesCoreBlock(key2, !right, DesCoreBlock(key1, right, Ip(data)))))
  {
    hide DesBlock, DesCoreBlock, Ip, IpInverse;
    var right := op != HASH;
    var once := DesCoreBlock(key1, right, Ip(data));
    var twice := DesCoreBlock(key2, !right, once);
    BlockIsCore(key1, right, data);
    BlockIsCore(key2, !right, once);
    BlockIsCore(key1, right, twice);
  }

  /** Deciphering undoes ciphering in the triple mode and in the S2 mode, for every pair of keys. */
  lemma EuroRoundTrip(key1: seq<byte>, key2: seq<byte>, desMode: byte, data: seq<byte>)
    requires |key1| == 8 && |key2| == 8 && |data| == 8
    requires desMode & (F_TRIPLE_DES | F_EURO_S2) != 0
    ensures EuroBlock(key1, key2, desMode, CRYPT, EuroBlock(key1, key2, desMode, HASH, data)) == data
    ensures EuroBlock(key1, key2, desMode, HASH, EuroBlock(key1, key2, desMode, CRYPT, data)) == data
  {
    hide DesBlock;
    if desMode & F_TRIPLE_DES != 0 {
      TripleUndone(key1, key2, desMode, HASH, CRYPT, data);
      TripleUndone(key1, key2, desMode, CRYPT, HASH, data);
    } else {
      SingleUndone(key1, true, data);
      SingleUndone(key1, false, data);
      assert desMode & F_EURO_S2 != 0;
    }
  }

  lemma TripleUndone(key1: seq<byte>, key2: seq<byte>, desMode: byte, op: byte, undo: byte, data: seq<byte>)
    requires |key1| == 8 && |key2| == 8 && |data| == 8 && desMode & F_TRIPLE_DES != 0
    requires (op == HASH) != (undo == HASH)
    ensures EuroBlock(key1, key2, desMode, undo, EuroBlock(key1, key2, desMode, op, data)) == data
  {
    hide EuroBlock, DesCoreBlock, Ip, IpInverse;
    var right := op != HASH;
    var a := DesCoreBlock(key1, right, Ip(data));
    var b := DesCoreBlock(key2, !right, a);
    var c := DesCoreBlock(key1, right, b);
    TripleIsThreeCores(key1, key2, desMode, op, data);
    TripleIsThreeCores(key1, key2, desMode, undo, IpInverse(c));
    IpRoundTrip(c);
    CoreRoundTrip(key1, right, b);
    CoreRoundTrip(key2, !right, a);
    CoreRoundTrip(key1, right, Ip(data));
    IpRoundTrip(data);
  }

  lemma SingleUndone(key: seq<byte>, right: bool, data: seq<byte>)
    requires |key| == 8 && |data| == 8
    ensures
      var there := if right then DES_IP | DES_IP_1 | DES_RIGHT else DES_IP | DES_IP_1;
      var back := if right then DES_IP | DES_IP_1 else DES_IP | DES_IP_1 | DES_RIGHT;
      DesBlock(key, back, DesBlock(key, there, data)) == data
  {
    hide DesBlock, DesCoreBlock, Ip, IpInverse;
    var a := DesCoreBlock(key, right, Ip(data));
    BlockIsCore(key, right, data);
    BlockIsCore(key, !right, IpInverse(a));
    IpRoundTrip(a);
    CoreRoundTrip(key, right, Ip(data));
    IpRoundTrip(data);
  }

  // ---- The loops

  method OneRound(left: array<byte>, right: array<byte>, data: array<byte>, mode: byte, k8: byte)
    requires left.Length >= 4 && right.Length >= 4 && data.Length == 8 && data != left && data != right
    modifies data
    ensures ToHalves(data[..]) ==
      Round(Register(left), Register(right), old(ToHalves(data[..])), k8, mode & DES_HASH != 0)
  {
    hide F, Word, Register;
    ghost var h := ToHalves(data[..]);
    var r := RoundOutput(left, right, data, k8, mode & DES_HASH != 0);
    XorHalf(data, r);
    SwapHalves(data);
  }

  /** Everything before the xor: the copied half is twisted, expanded, substituted, permuted and maybe hashed. */
  method RoundOutput(left: array<byte>, right: array<byte>, data: array<byte>, k8: byte, hash: bool) returns (r: array<byte>)
    requires left.Length >= 4 && right.Length >= 4 && data.Length == 8
    ensures fresh(r) && r.Length == 4
    ensures Word(r[0], r[1], r[2], r[3]) ==
      F(Register(left), Register(right), Word(data[4], data[5], data[6], data[7]), k8, hash)
  {
    hide *;
    OutputOf(Register(left), Register(right), Word(data[4], data[5], data[6], data[7]), k8, hash);
    var tempr := TwistedCopy(data, k8);
    var K := new byte[8];
    r := new byte[4];
    MakeK(left, right, K);
    DesCore(tempr, K, r);
    Permut32(r);
    if hash { SwapFirst(r); }
  }

  method TwistedCopy(data: array<byte>, k8: byte) returns (tempr: array<byte>)
    requires data.Length == 8
    ensures fresh(tempr) && tempr.Length == 4
    ensures
      var half := Word(data[4], data[5], data[6], data[7]);
      Word(tempr[0], tempr[1], tempr[2], tempr[3]) == Word(Twist(k8, B0(half)), B1(half), B2(half), B3(half))
  {
    hide *;
    BytesOfWord(data[4], data[5], data[6], data[7]);
    tempr := new byte[4](i requires 0 <= i < 4 reads data => data[4 + i]);
    tempr[0] := Twist(k8, tempr[0]);
  }

  method SwapFirst(r: array<byte>)
    requires r.Length == 4
    modifies r
    ensures
      var w := old(Word(r[0], r[1], r[2], r[3]));
      Word(r[0], r[1], r[2], r[3]) == Word(B1(w), B0(w), B2(w), B3(w))
  {
    hide *;
    BytesOfWord(r[0], r[1], r[2], r[3]);
    r[0], r[1] := r[1], r[0];
  }

  lemma OutputOf(left: bv32, right: bv32, half: bv32, k8: byte, hash: bool)
    ensures
      var r := Permute(Core(Word(Twist(k8, B0(half)), B1(half), B2(half), B3(half)), RoundKey(left, right)), 32);
      F(left, right, half, k8, hash) == if hash then Word(B1(r), B0(r), B2(r), B3(r)) else r
  {
    hide Permute, Core, Word, Twist, B0, B1, B2, B3, RoundKey;
  }

  lemma XorWord(a: byte, b: byte, c: byte, d: byte, e: byte, f: byte, g: byte, h: byte)
    ensures Word(a ^ e, b ^ f, c ^ g, d ^ h) == Word(a, b, c, d) ^ Word(e, f, g, h)
  {}

  function XorWords(a: bv32, b: bv32): bv32 { a ^ b }

  lemma XorBytes(a: byte, b: byte, c: byte, d: byte, e: byte, f: byte, g: byte, h: byte)
    ensures Word(XorByte(a, e), XorByte(b, f), XorByte(c, g), XorByte(d, h)) == XorWords(Word(a, b, c, d), Word(e, f, g, h))
  {
    hide Word;
    XorWord(a, b, c, d, e, f, g, h);
  }

  method XorHalf(data: array<byte>, r: array<byte>)
    requires data.Length == 8 && r.Length == 4 && data != r
    modifies data
    ensures ToHalves(data[..]) ==
      Halves(XorWords(old(ToHalves(data[..])).l, Word(r[0], r[1], r[2], r[3])), old(ToHalves(data[..])).r)
  {
    hide *;
    ghost var was := data[..];
    XorBytes(was[0], was[1], was[2], was[3], r[0], r[1], r[2], r[3]);
    HalvesOf(was);
    forall i | 0 <= i < 4 { data[i] := XorByte(data[i], r[i]); }
    HalvesOf(data[..]);
  }

  lemma HalvesOf(data: seq<byte>)
    requires |data| == 8
    ensures ToHalves(data) == Halves(Word(data[0], data[1], data[2], data[3]), Word(data[4], data[5], data[6], data[7]))
  {
    hide Word;
  }

  method SwapHalves(data: array<byte>)
    requires data.Length == 8
    modifies data
    ensures ToHalves(data[..]) == Swap(old(ToHalves(data[..])))
  {
    hide ToHalves;
    HalvesOf(data[..]);
    ghost var was := data[..];
    forall i | 0 <= i < 8 { data[i] := if i < 4 then data[i + 4] else data[i - 4]; }
    HalvesOf(data[..]);
  }

  /** The registers, from the key bytes. */
  method LoadRegisters(key: seq<byte>, mode: byte) returns (left: array<byte>, right: array<byte>)
    requires |key| == 8
    ensures fresh(left) && fresh(right) && left != right && left.Length == 8 && right.Length == 8
    ensures Register(left) == KeyOf(key, mode).left && Register(right) == KeyOf(key, mode).right
  {
    hide KeyOf, Word, Straddle;
    LeftBytes(key[0], key[1], key[2], key[3]);
    StraddleIs(key[0], key[1]); StraddleIs(key[1], key[2]); StraddleIs(key[2], key[3]);
    RegistersOf(key, mode);
    left := new byte[8](i => if 0 <= i < 3 then Straddle(key[2 - i], key[3 - i]) else 0);
    left[3] := key[0] >> 4;
    right := new byte[8](i => if 0 <= i < 4 then key[6 - i] else 0);
    right[3] := key[3] & 0x0f;
  }

  lemma RegistersOf(key: seq<byte>, mode: byte)
    requires |key| == 8
    ensures KeyOf(key, mode).left == Word(key[0], key[1], key[2], key[3]) >> 4
    ensures KeyOf(key, mode).right == Word(key[3] & 0x0f, key[4], key[5], key[6])
  {}

  /** The byte that straddles two key bytes. */
  function Straddle(a: byte, b: byte): byte {
    (a << 4) | (b >> 4)
  }

  lemma StraddleIs(a: byte, b: byte)
    ensures Straddle(a, b) == (a << 4) | (b >> 4)
  {}

  lemma LeftBytes(a: byte, b: byte, c: byte, d: byte)
    ensures Word(a >> 4, (a << 4) | (b >> 4), (b << 4) | (c >> 4), (c << 4) | (d >> 4)) == Word(a, b, c, d) >> 4
  {}

  lemma KeyFields(key: seq<byte>, mode: byte)
    requires |key| == 8
    ensures KeyOf(key, mode).k8 == key[7] && KeyOf(key, mode).hash == (mode & DES_HASH != 0)
  {}

  method Des(key: seq<byte>, mode: byte, data: array<byte>)
    requires |key| == 8 && data.Length == 8
    modifies data
    ensures data[..] == DesBlock(key, mode, old(data[..]))
  {
    hide Word, Cipher, FromHalves, ToHalves, Ip, IpInverse, Register, Round, KeyOf;
    ghost var k := KeyOf(key, mode);
    KeyFields(key, mode);
    var right := mode & DES_RIGHT != 0;
    var l, r := LoadRegisters(key, mode);
    if mode & DES_IP != 0 { DoIp(data); }
    ghost var h := ToHalves(data[..]);
    SixteenTimes(l, r, right, mode, key[7], data, k);
    SwapHalves(data);
    CipherIsSwappedRounds(k, right, h);
    HalvesRoundTrip(data[..], h);
    if mode & DES_IP_1 != 0 { DoIpInverse(data); }
  }

  lemma CipherIsSwappedRounds(k: Key, right: bool, h: Halves)
    ensures Cipher(k, right, h) == Swap(Rounds(k, right, 16, h))
  {}

  /** Where the registers stand when `i` rounds are done. */
  function Turned(right: bool, i: nat): nat {
    if right then Total(RIGHT_MASK, i) else 27 * Total(LEFT_MASK, i)
  }

  method TurnLeft(left: array<byte>, right: array<byte>, twice: bool, ghost k: Key, ghost t: nat)
    requires left != right && left.Length == 8 && right.Length == 8 && k.Valid()
    requires Register(left) == RotN(k.left, t) && Register(right) == RotN(k.right, t)
    modifies left, right
    ensures
      var u := t + (if twice then 54 else 27);
      Register(left) == RotN(k.left, u) && Register(right) == RotN(k.right, u)
  {
    hide RotN, Register, RotL, Fits;
    RotFits(k.left, t); RotFits(k.right, t); RotFits(k.left, t + 27); RotFits(k.right, t + 27);
    RotAdd(k.left, t, 27); RotAdd(k.right, t, 27);
    RotAdd(k.left, t + 27, 27); RotAdd(k.right, t + 27, 27);
    LeftIsRight27(RotN(k.left, t)); LeftIsRight27(RotN(k.right, t));
    LeftIsRight27(RotN(k.left, t + 27)); LeftIsRight27(RotN(k.right, t + 27));
    LeftRotKeys(left, right);
    if twice { LeftRotKeys(left, right); }
  }

  method TurnRight(left: array<byte>, right: array<byte>, twice: bool, ghost k: Key, ghost t: nat)
    requires left != right && left.Length == 8 && right.Length == 8 && k.Valid()
    requires Register(left) == RotN(k.left, t) && Register(right) == RotN(k.right, t)
    modifies left, right
    ensures
      var u := t + (if twice then 2 else 1);
      Register(left) == RotN(k.left, u) && Register(right) == RotN(k.right, u)
  {
    hide Register, RotR, Fits;
    RotFits(k.left, t); RotFits(k.right, t); RotFits(k.left, t + 1); RotFits(k.right, t + 1);
    RightRotKeys(left, right);
    if twice { RightRotKeys(left, right); }
  }

  /** The round loop, which ends when the shift mask has been shifted away. */
  method SixteenTimes(left: array<byte>, right: array<byte>, toRight: bool, mode: byte, k8: byte, data: array<byte>, ghost k: Key)
    requires left.Length == 8 && right.Length == 8 && data.Length == 8
    requires left != right && data != left && data != right
    requires k.Valid() && Register(left) == k.left && Register(right) == k.right
    requires k.k8 == k8 && k.hash == (mode & DES_HASH != 0)
    modifies left, right, data
    ensures ToHalves(data[..]) == Rounds(k, toRight, 16, old(ToHalves(data[..])))
  {
    hide *;
    ghost var h := ToHalves(data[..]);
    AtStart(k, toRight, h);
    ghost var m := if toRight then RIGHT_MASK else LEFT_MASK;
    var mask := if toRight then RIGHT_MASK else LEFT_MASK;
    ghost var i := 0;
    SixteenRounds(m, 0);
    while mask != 0
      invariant 0 <= i <= 16 && mask == Shifted(m, i) && (mask == 0 <==> i == 16)
      invariant Register(left) == RotN(k.left, Turned(toRight, i))
      invariant Register(right) == RotN(k.right, Turned(toRight, i))
      invariant ToHalves(data[..]) == Rounds(k, toRight, i, h)
      decreases 16 - i
    {
      OneMore(k, toRight, m, i, h);
      TurnAndRound(left, right, toRight, mask & 0x8000 == 0, mode, k8, data, k, i);
      mask := mask << 1;
      i := i + 1;
      SixteenRounds(m, i);
    }
  }

  lemma AtStart(k: Key, right: bool, h: Halves)
    ensures Turned(right, 0) == 0 && RotN(k.left, 0) == k.left && RotN(k.right, 0) == k.right
    ensures Rounds(k, right, 0, h) == h
    ensures Shifted(LEFT_MASK, 0) == LEFT_MASK && Shifted(RIGHT_MASK, 0) == RIGHT_MASK
  {}

  method TurnAndRound(left: array<byte>, right: array<byte>, toRight: bool, twice: bool, mode: byte, k8: byte, data: array<byte>,
      ghost k: Key, ghost i: nat)
    requires left.Length == 8 && right.Length == 8 && data.Length == 8
    requires left != right && data != left && data != right && k.Valid()
    requires Register(left) == RotN(k.left, Turned(toRight, i)) && Register(right) == RotN(k.right, Turned(toRight, i))
    requires Turned(toRight, i + 1) == Turned(toRight, i) + (if toRight then (if twice then 2 else 1) else (if twice then 54 else 27))
    requires Position(toRight, i) == if toRight then Turned(toRight, i) else Turned(toRight, i + 1)
    requires k.k8 == k8 && k.hash == (mode & DES_HASH != 0)
    modifies left, right, data
    ensures Register(left) == RotN(k.left, Turned(toRight, i + 1)) && Register(right) == RotN(k.right, Turned(toRight, i + 1))
    ensures ToHalves(data[..]) == RoundAt(k, toRight, i, old(ToHalves(data[..])))
  {
    hide *;
    ghost var h := ToHalves(data[..]);
    RoundAtIs(k, toRight, i, h);
    if toRight {
      OneRound(left, right, data, mode, k8);
      TurnRight(left, right, twice, k, Turned(toRight, i));
    } else {
      TurnLeft(left, right, twice, k, Turned(toRight, i));
      OneRound(left, right, data, mode, k8);
    }
  }

  lemma RoundAtIs(k: Key, right: bool, i: nat, h: Halves)
    ensures RoundAt(k, right, i, h) ==
      Round(RotN(k.left, Position(right, i)), RotN(k.right, Position(right, i)), h, k.k8, k.hash)
  {}

  lemma OneMore(k: Key, right: bool, m: bv16, i: nat, h: Halves)
    requires m == (if right then RIGHT_MASK else LEFT_MASK) && i < 16
    ensures Shifted(m, i + 1) == Shifted(m, i) << 1
    ensures
      var twice := Shifted(m, i) & 0x8000 == 0;
      && Turned(right, i + 1) == Turned(right, i) + (if right then (if twice then 2 else 1) else (if twice then 54 else 27))
    ensures Position(right, i) == if right then Turned(right, i) else Turned(right, i + 1)
    ensures Rounds(k, right, i + 1, h) == RoundAt(k, right, i, Rounds(k, right, i, h))
  {
    hide RoundAt;
  }

  /** `EuroDes` on the eight bytes at `o`, for a first key whose byte 7 is zero. */
  method EuroDes(key1: seq<byte>, key2: seq<byte>, desMode: byte, op: byte, buffer: array<byte>, o: nat)
    requires |key1| == 8 && |key2| == 8 && key1[7] == 0 && o + 8 <= buffer.Length
    modifies buffer
    ensures buffer[o..o + 8] == EuroBlock(key1, key2, desMode, op, old(buffer[o..o + 8]))
    ensures buffer[..o] == old(buffer[..o]) && buffer[o + 8..] == old(buffer[o + 8..])
  {
    hide DesBlock;
    var data := new byte[8](i requires 0 <= i < 8 reads buffer => buffer[o + i]);
    ghost var d := buffer[o..o + 8];
    assert data[..] == d;
    if desMode & F_TRIPLE_DES != 0 {
      var mode := if op == HASH then 0 else DES_RIGHT;
      Des(key1, DES_IP | mode, data);
      mode := mode ^ DES_RIGHT;
      Des(key2, mode, data);
      mode := mode ^ DES_RIGHT;
      Des(key1, mode | DES_IP_1, data);
    } else {
      var mode;
      if desMode & F_EURO_S2 != 0 {
        mode := if op == HASH then DES_IP | DES_IP_1 else DES_IP | DES_IP_1 | DES_RIGHT;
      } else {
        mode := if op == HASH then DES_HASH else 0;
      }
      Des(key1, mode, data);
    }
    PutBack(buffer, o, data);
  }

  method PutBack(buffer: array<byte>, o: nat, data: array<byte>)
    requires data.Length == 8 && o + 8 <= buffer.Length && data != buffer
    modifies buffer
    ensures buffer[o..o + 8] == data[..]
    ensures buffer[..o] == old(buffer[..o]) && buffer[o + 8..] == old(buffer[o + 8..])
  {
    forall i | 0 <= i < 8 { buffer[o + i] := data[i]; }
  }
}
