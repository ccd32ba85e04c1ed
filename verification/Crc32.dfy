/** The checksum of RFC 1952, section 8: a table of bytes against the division bit by bit. `unsigned long` has 64 bits. */
module Crc32 {
  import opened Bits
  import opened Lookup

  function Table(x: byte): bv32 {
    var c := x & 0x0f;
    PickWord(x >> 4,
      PickWord(c, 0x00000000, 0x77073096, 0xee0e612c, 0x990951ba, 0x076dc419, 0x706af48f, 0xe963a535, 0x9e6495a3,
        0x0edb8832, 0x79dcb8a4, 0xe0d5e91e, 0x97d2d988, 0x09b64c2b, 0x7eb17cbd, 0xe7b82d07, 0x90bf1d91),
      PickWord(c, 0x1db71064, 0x6ab020f2, 0xf3b97148, 0x84be41de, 0x1adad47d, 0x6ddde4eb, 0xf4d4b551, 0x83d385c7,
        0x136c9856, 0x646ba8c0, 0xfd62f97a, 0x8a65c9ec, 0x14015c4f, 0x63066cd9, 0xfa0f3d63, 0x8d080df5),
      PickWord(c, 0x3b6e20c8, 0x4c69105e, 0xd56041e4, 0xa2677172, 0x3c03e4d1, 0x4b04d447, 0xd20d85fd, 0xa50ab56b,
        0x35b5a8fa, 0x42b2986c, 0xdbbbc9d6, 0xacbcf940, 0x32d86ce3, 0x45df5c75, 0xdcd60dcf, 0xabd13d59),
      PickWord(c, 0x26d930ac, 0x51de003a, 0xc8d75180, 0xbfd06116, 0x21b4f4b5, 0x56b3c423, 0xcfba9599, 0xb8bda50f,
        0x2802b89e, 0x5f058808, 0xc60cd9b2, 0xb10be924, 0x2f6f7c87, 0x58684c11, 0xc1611dab, 0xb6662d3d),
      PickWord(c, 0x76dc4190, 0x01db7106, 0x98d220bc, 0xefd5102a, 0x71b18589, 0x06b6b51f, 0x9fbfe4a5, 0xe8b8d433,
        0x7807c9a2, 0x0f00f934, 0x9609a88e, 0xe10e9818, 0x7f6a0dbb, 0x086d3d2d, 0x91646c97, 0xe6635c01),
      PickWord(c, 0x6b6b51f4, 0x1c6c6162, 0x856530d8, 0xf262004e, 0x6c0695ed, 0x1b01a57b, 0x8208f4c1, 0xf50fc457,
        0x65b0d9c6, 0x12b7e950, 0x8bbeb8ea, 0xfcb9887c, 0x62dd1ddf, 0x15da2d49, 0x8cd37cf3, 0xfbd44c65),
      PickWord(c, 0x4db26158, 0x3ab551ce, 0xa3bc0074, 0xd4bb30e2, 0x4adfa541, 0x3dd895d7, 0xa4d1c46d, 0xd3d6f4fb,
        0x4369e96a, 0x346ed9fc, 0xad678846, 0xda60b8d0, 0x44042d73, 0x33031de5, 0xaa0a4c5f, 0xdd0d7cc9),
      PickWord(c, 0x5005713c, 0x270241aa, 0xbe0b1010, 0xc90c2086, 0x5768b525, 0x206f85b3, 0xb966d409, 0xce61e49f,
        0x5edef90e, 0x29d9c998, 0xb0d09822, 0xc7d7a8b4, 0x59b33d17, 0x2eb40d81, 0xb7bd5c3b, 0xc0ba6cad),
      PickWord(c, 0xedb88320, 0x9abfb3b6, 0x03b6e20c, 0x74b1d29a, 0xead54739, 0x9dd277af, 0x04db2615, 0x73dc1683,
        0xe3630b12, 0x94643b84, 0x0d6d6a3e, 0x7a6a5aa8, 0xe40ecf0b, 0x9309ff9d, 0x0a00ae27, 0x7d079eb1),
      PickWord(c, 0xf00f9344, 0x8708a3d2, 0x1e01f268, 0x6906c2fe, 0xf762575d, 0x806567cb, 0x196c3671, 0x6e6b06e7,
        0xfed41b76, 0x89d32be0, 0x10da7a5a, 0x67dd4acc, 0xf9b9df6f, 0x8ebeeff9, 0x17b7be43, 0x60b08ed5),
      PickWord(c, 0xd6d6a3e8, 0xa1d1937e, 0x38d8c2c4, 0x4fdff252, 0xd1bb67f1, 0xa6bc5767, 0x3fb506dd, 0x48b2364b,
        0xd80d2bda, 0xaf0a1b4c, 0x36034af6, 0x41047a60, 0xdf60efc3, 0xa867df55, 0x316e8eef, 0x4669be79),
      PickWord(c, 0xcb61b38c, 0xbc66831a, 0x256fd2a0, 0x5268e236, 0xcc0c7795, 0xbb0b4703, 0x220216b9, 0x5505262f,
        0xc5ba3bbe, 0xb2bd0b28, 0x2bb45a92, 0x5cb36a04, 0xc2d7ffa7, 0xb5d0cf31, 0x2cd99e8b, 0x5bdeae1d),
      PickWord(c, 0x9b64c2b0, 0xec63f226, 0x756aa39c, 0x026d930a, 0x9c0906a9, 0xeb0e363f, 0x72076785, 0x05005713,
        0x95bf4a82, 0xe2b87a14, 0x7bb12bae, 0x0cb61b38, 0x92d28e9b, 0xe5d5be0d, 0x7cdcefb7, 0x0bdbdf21),
      PickWord(c, 0x86d3d2d4, 0xf1d4e242, 0x68ddb3f8, 0x1fda836e, 0x81be16cd, 0xf6b9265b, 0x6fb077e1, 0x18b74777,
        0x88085ae6, 0xff0f6a70, 0x66063bca, 0x11010b5c, 0x8f659eff, 0xf862ae69, 0x616bffd3, 0x166ccf45),
      PickWord(c, 0xa00ae278, 0xd70dd2ee, 0x4e048354, 0x3903b3c2, 0xa7672661, 0xd06016f7, 0x4969474d, 0x3e6e77db,
        0xaed16a4a, 0xd9d65adc, 0x40df0b66, 0x37d83bf0, 0xa9bcae53, 0xdebb9ec5, 0x47b2cf7f, 0x30b5ffe9),
      PickWord(c, 0xbdbdf21c, 0xcabac28a, 0x53b39330, 0x24b4a3a6, 0xbad03605, 0xcdd70693, 0x54de5729, 0x23d967bf,
        0xb3667a2e, 0xc4614ab8, 0x5d681b02, 0x2a6f2b94, 0xb40bbe37, 0xc30c8ea1, 0x5a05df1b, 0x2d02ef8d))
  }

  // ---- The division bit by bit

  function Xor(a: bv64, b: bv64): bv64 {
    a ^ b
  }

  function Shift(c: bv64): bv64 {
    c >> 1
  }

  predicate Low(c: bv64) {
    c & 1 != 0
  }

  /** One bit of the reflected division. */
  function Bit(c: bv64): bv64 {
    if Low(c) then Xor(Shift(c), 0xedb88320) else Shift(c)
  }

  function EightBits(c: bv64): bv64 {
    Bit(Bit(Bit(Bit(Bit(Bit(Bit(Bit(c))))))))
  }

  /** The checksum register after the bytes of `s`. */
  function Divided(c: bv64, s: seq<byte>): bv64 {
    if s == [] then c else EightBits(Xor(Divided(c, s[..|s| - 1]), s[|s| - 1] as bv64))
  }

  function Checksum(crc: bv64, s: seq<byte>): bv64 {
    Xor(Divided(Xor(crc, 0xffffffff), s), 0xffffffff)
  }

  // ---- The table

  /** The table step. */
  function Step(c: bv64, b: byte): bv64 {
    Xor(Table(((c & 0xff) as byte) ^ b) as bv64, c >> 8)
  }

  lemma ShiftOfXor(a: bv64, b: bv64)
    ensures Shift(Xor(a, b)) == Xor(Shift(a), Shift(b))
  {
  }

  lemma LowOfXor(a: bv64, b: bv64)
    ensures Low(Xor(a, b)) <==> Low(a) != Low(b)
  {
  }

  lemma Regroup(a: bv64, b: bv64, p: bv64)
    ensures Xor(Xor(a, b), p) == Xor(a, Xor(b, p))
  {
  }

  lemma Commute(a: bv64, b: bv64)
    ensures Xor(a, b) == Xor(b, a)
  {
  }

  lemma BitOfXor(a: bv64, b: bv64)
    ensures Bit(Xor(a, b)) == Xor(Bit(a), Bit(b))
  {
    hide Xor, Shift, Low;
    ShiftOfXor(a, b);
    LowOfXor(a, b);
    var x, y, p := Shift(a), Shift(b), 0xedb88320;
    Regroup(x, y, p);
    Regroup(x, p, y);
    Commute(p, y);
    Regroup(x, p, Xor(y, p));
    Commute(p, Xor(y, p));
    XorUndone(y, p);
  }

  lemma EightOfXor(a: bv64, b: bv64)
    ensures EightBits(Xor(a, b)) == Xor(EightBits(a), EightBits(b))
  {
    hide Bit, Xor;
    var a1, b1 := Bit(a), Bit(b);
    var a2, b2 := Bit(a1), Bit(b1);
    var a3, b3 := Bit(a2), Bit(b2);
    var a4, b4 := Bit(a3), Bit(b3);
    var a5, b5 := Bit(a4), Bit(b4);
    var a6, b6 := Bit(a5), Bit(b5);
    var a7, b7 := Bit(a6), Bit(b6);
    BitOfXor(a, b);
    BitOfXor(a1, b1);
    BitOfXor(a2, b2);
    BitOfXor(a3, b3);
    BitOfXor(a4, b4);
    BitOfXor(a5, b5);
    BitOfXor(a6, b6);
    BitOfXor(a7, b7);
  }

  /** The bits above the lowest eight only move down. */
  lemma EightOfHigh(c: bv64)
    requires c & 0xff == 0
    ensures EightBits(c) == c >> 8
  {
  }

  /** The table holds the division of each byte. */
  lemma TableIs(x: byte)
    ensures Table(x) as bv64 == EightBits(x as bv64)
  {
    hide *;
    if x < 0x40 { if x < 0x20 { TableIsA(x); } else { TableIsB(x); } }
    else if x < 0x80 { if x < 0x60 { TableIsC(x); } else { TableIsD(x); } }
    else if x < 0xc0 { if x < 0xa0 { TableIsE(x); } else { TableIsF(x); } }
    else { if x < 0xe0 { TableIsG(x); } else { TableIsH(x); } }
  }

  lemma TableIsA(x: byte)
    requires x < 0x20
    ensures Table(x) as bv64 == EightBits(x as bv64)
  {
    assert x in {
      0x00, 0x01, 0x02, 0x03, 0x04, 0x05, 0x06, 0x07, 0x08, 0x09, 0x0a, 0x0b, 0x0c, 0x0d, 0x0e, 0x0f,
      0x10, 0x11, 0x12, 0x13, 0x14, 0x15, 0x16, 0x17, 0x18, 0x19, 0x1a, 0x1b, 0x1c, 0x1d, 0x1e, 0x1f};
  }

  lemma TableIsB(x: byte)
    requires 0x20 <= x < 0x40
    ensures Table(x) as bv64 == EightBits(x as bv64)
  {
    assert x in {
      0x20, 0x21, 0x22, 0x23, 0x24, 0x25, 0x26, 0x27, 0x28, 0x29, 0x2a, 0x2b, 0x2c, 0x2d, 0x2e, 0x2f,
      0x30, 0x31, 0x32, 0x33, 0x34, 0x35, 0x36, 0x37, 0x38, 0x39, 0x3a, 0x3b, 0x3c, 0x3d, 0x3e, 0x3f};
  }

  lemma TableIsC(x: byte)
    requires 0x40 <= x < 0x60
    ensures Table(x) as bv64 == EightBits(x as bv64)
  {
    assert x in {
      0x40, 0x41, 0x42, 0x43, 0x44, 0x45, 0x46, 0x47, 0x48, 0x49, 0x4a, 0x4b, 0x4c, 0x4d, 0x4e, 0x4f,
      0x50, 0x51, 0x52, 0x53, 0x54, 0x55, 0x56, 0x57, 0x58, 0x59, 0x5a, 0x5b, 0x5c, 0x5d, 0x5e, 0x5f};
  }

  lemma TableIsD(x: byte)
    requires 0x60 <= x < 0x80
    ensures Table(x) as bv64 == EightBits(x as bv64)
  {
    assert x in {
      0x60, 0x61, 0x62, 0x63, 0x64, 0x65, 0x66, 0x67, 0x68, 0x69, 0x6a, 0x6b, 0x6c, 0x6d, 0x6e, 0x6f,
      0x70, 0x71, 0x72, 0x73, 0x74, 0x75, 0x76, 0x77, 0x78, 0x79, 0x7a, 0x7b, 0x7c, 0x7d, 0x7e, 0x7f};
  }

  lemma TableIsE(x: byte)
    requires 0x80 <= x < 0xa0
    ensures Table(x) as bv64 == EightBits(x as bv64)
  {
    assert x in {
      0x80, 0x81, 0x82, 0x83, 0x84, 0x85, 0x86, 0x87, 0x88, 0x89, 0x8a, 0x8b, 0x8c, 0x8d, 0x8e, 0x8f,
      0x90, 0x91, 0x92, 0x93, 0x94, 0x95, 0x96, 0x97, 0x98, 0x99, 0x9a, 0x9b, 0x9c, 0x9d, 0x9e, 0x9f};
  }

  lemma TableIsF(x: byte)
    requires 0xa0 <= x < 0xc0
    ensures Table(x) as bv64 == EightBits(x as bv64)
  {
    assert x in {
      0xa0, 0xa1, 0xa2, 0xa3, 0xa4, 0xa5, 0xa6, 0xa7, 0xa8, 0xa9, 0xaa, 0xab, 0xac, 0xad, 0xae, 0xaf,
      0xb0, 0xb1, 0xb2, 0xb3, 0xb4, 0xb5, 0xb6, 0xb7, 0xb8, 0xb9, 0xba, 0xbb, 0xbc, 0xbd, 0xbe, 0xbf};
  }

  lemma TableIsG(x: byte)
    requires 0xc0 <= x < 0xe0
    ensures Table(x) as bv64 == EightBits(x as bv64)
  {
    assert x in {
      0xc0, 0xc1, 0xc2, 0xc3, 0xc4, 0xc5, 0xc6, 0xc7, 0xc8, 0xc9, 0xca, 0xcb, 0xcc, 0xcd, 0xce, 0xcf,
      0xd0, 0xd1, 0xd2, 0xd3, 0xd4, 0xd5, 0xd6, 0xd7, 0xd8, 0xd9, 0xda, 0xdb, 0xdc, 0xdd, 0xde, 0xdf};
  }

  lemma TableIsH(x: byte)
    requires 0xe0 <= x
    ensures Table(x) as bv64 == EightBits(x as bv64)
  {
    assert x in {
      0xe0, 0xe1, 0xe2, 0xe3, 0xe4, 0xe5, 0xe6, 0xe7, 0xe8, 0xe9, 0xea, 0xeb, 0xec, 0xed, 0xee, 0xef,
      0xf0, 0xf1, 0xf2, 0xf3, 0xf4, 0xf5, 0xf6, 0xf7, 0xf8, 0xf9, 0xfa, 0xfb, 0xfc, 0xfd, 0xfe, 0xff};
  }

  lemma Parts(c: bv64, b: byte)
    ensures Xor(c, b as bv64) == Xor((((c & 0xff) as byte) ^ b) as bv64, c & 0xffff_ffff_ffff_ff00)
    ensures (c & 0xffff_ffff_ffff_ff00) & 0xff == 0 && (c & 0xffff_ffff_ffff_ff00) >> 8 == c >> 8
  {
  }

  /** A step through the table is eight steps of the division. */
  lemma StepIs(c: bv64, b: byte)
    ensures Step(c, b) == EightBits(Xor(c, b as bv64))
  {
    hide EightBits, Xor, Table;
    var i, h := ((c & 0xff) as byte) ^ b, c & 0xffff_ffff_ffff_ff00;
    Parts(c, b);
    EightOfXor(i as bv64, h);
    EightOfHigh(h);
    TableIs(i);
  }

  // ---- Buffers

  lemma DividedNext(c: bv64, s: seq<byte>, i: nat)
    requires i < |s|
    ensures Divided(c, s[..i + 1]) == Step(Divided(c, s[..i]), s[i])
  {
    hide EightBits, Xor, Step;
    assert s[..i + 1][..i] == s[..i];
    StepIs(Divided(c, s[..i]), s[i]);
  }

  /** Eight bytes at a time, then the rest one by one; a null pointer gives zero. */
  method Compute(crc0: bv64, buf: array?<byte>, len0: nat) returns (r: bv64)
    requires buf != null ==> len0 <= buf.Length
    ensures r == if buf == null then 0 else Checksum(crc0, buf[..len0])
  {
    hide Divided, EightBits, Step, Xor;
    if buf == null {
      return 0;
    }
    var crc, len, at := Xor(crc0, 0xffffffff), len0, 0;
    ghost var c, s := crc, buf[..len0];
    DividedNone(c);
    assert s[..0] == [];
    while len >= 8
      invariant at + len == len0 && crc == Divided(c, s[..at])
    {
      ghost var was := at;
      for k := 0 to 8
        invariant at == was + k && crc == Divided(c, s[..at])
      {
        DividedNext(c, s, at);
        crc := Step(crc, buf[at]);
        at := at + 1;
      }
      len := len - 8;
    }
    while len != 0
      invariant at + len == len0 && crc == Divided(c, s[..at])
    {
      DividedNext(c, s, at);
      crc := Step(crc, buf[at]);
      at := at + 1;
      len := len - 1;
    }
    assert s[..at] == s;
    return Xor(crc, 0xffffffff);
  }

  lemma DividedNone(c: bv64)
    ensures Divided(c, []) == c
  {
  }

  // ---- Chaining

  lemma {:induction false} DividedBoth(c: bv64, s: seq<byte>, t: seq<byte>)
    ensures Divided(c, s + t) == Divided(Divided(c, s), t)
  {
    hide EightBits, Xor;
    if t == [] {
      assert s + t == s;
    } else {
      assert (s + t)[..|s + t| - 1] == s + t[..|t| - 1];
      DividedBoth(c, s, t[..|t| - 1]);
    }
  }

  lemma XorUndone(a: bv64, p: bv64)
    ensures Xor(Xor(a, p), p) == a
  {
  }

  /** The checksum of two buffers in a row is that of the second, started with that of the first. */
  lemma Chains(crc: bv64, s: seq<byte>, t: seq<byte>)
    ensures Checksum(crc, s + t) == Checksum(Checksum(crc, s), t)
  {
    hide Xor, Divided;
    DividedBoth(Xor(crc, 0xffffffff), s, t);
    XorUndone(Divided(Xor(crc, 0xffffffff), s), 0xffffffff);
  }

  // ---- Thirty-two bits

  predicate Narrow(c: bv64) {
    c >> 32 == 0
  }

  lemma StepNarrow(c: bv64, b: byte)
    requires Narrow(c)
    ensures Narrow(Step(c, b))
  {
    hide Table;
    NarrowXor(Table(((c & 0xff) as byte) ^ b) as bv64, c >> 8);
  }

  lemma NarrowXor(a: bv64, b: bv64)
    requires Narrow(a) && Narrow(b)
    ensures Narrow(Xor(a, b))
  {
  }

  /** A checksum that starts with 32 bits has 32 bits. */
  lemma {:induction false} DividedNarrow(c: bv64, s: seq<byte>)
    requires Narrow(c)
    ensures Narrow(Divided(c, s))
  {
    hide EightBits, Xor, Step, Narrow;
    if s != [] {
      var n := |s| - 1;
      DividedNarrow(c, s[..n]);
      StepNarrow(Divided(c, s[..n]), s[n]);
      StepIs(Divided(c, s[..n]), s[n]);
    }
  }

  lemma ChecksumNarrow(crc: bv64, s: seq<byte>)
    requires Narrow(crc)
    ensures Narrow(Checksum(crc, s))
  {
    hide Xor, Divided;
    NarrowXor(crc, 0xffffffff);
    DividedNarrow(Xor(crc, 0xffffffff), s);
    NarrowXor(Divided(Xor(crc, 0xffffffff), s), 0xffffffff);
  }
}
