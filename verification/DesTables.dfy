/** The constant tables of the round function. */
module DesTables {
  import opened Bits
  import opened Lookup

  /** The key bits that make up chunk `i` of a round key, numbered from 1. */
  function Pc2(i: nat): (row: seq<nat>)
    requires i < 8
    ensures |row| == 6 && forall j :: 0 <= j < 6 ==> 1 <= row[j] <= 56
  {
    match i
    case 0 => [14, 17, 11, 24, 1, 5]
    case 1 => [3, 28, 15, 6, 21, 10]
    case 2 => [23, 19, 12, 4, 26, 8]
    case 3 => [16, 7, 27, 20, 13, 2]
    case 4 => [41, 52, 31, 37, 47, 55]
    case 5 => [30, 40, 51, 45, 33, 48]
    case 6 => [44, 49, 39, 56, 34, 53]
    case _ => [46, 42, 50, 36, 29, 32]
  }

  /** The block bits that make up chunk `i` of the expanded half, numbered from 1. */
  function Expansion(i: nat): (row: seq<nat>)
    requires i < 8
    ensures |row| == 6 && forall j :: 0 <= j < 6 ==> 1 <= row[j] <= 32
  {
    match i
    case 0 => [32, 1, 2, 3, 4, 5]
    case 1 => [4, 5, 6, 7, 8, 9]
    case 2 => [8, 9, 10, 11, 12, 13]
    case 3 => [12, 13, 14, 15, 16, 17]
    case 4 => [16, 17, 18, 19, 20, 21]
    case 5 => [20, 21, 22, 23, 24, 25]
    case 6 => [24, 25, 26, 27, 28, 29]
    case _ => [28, 29, 30, 31, 32, 1]
  }

  /** The block bits in the order the 32-bit permutation takes them, numbered from 1. */
  function Permuted(i: nat): (b: nat)
    requires i < 32
    ensures 1 <= b <= 32
  {
    var row := match i / 8
      case 0 => [16, 7, 20, 21, 29, 12, 28, 17]
      case 1 => [1, 15, 23, 26, 5, 18, 31, 10]
      case 2 => [2, 8, 24, 14, 32, 27, 3, 9]
      case _ => [19, 13, 30, 6, 22, 11, 4, 25];
    row[i % 8]
  }

  /** The four double S-boxes: box `k` in the low nibbles, box `k + 4` in the high ones. */
  function Box(k: nat, x: byte): byte
    requires k < 4
  {
    match k
    case 0 => Box0(x)
    case 1 => Box1(x)
    case 2 => Box2(x)
    case _ => Box3(x)
  }

  /** The entries of four rows of sixteen, by the upper two and the lower four of six bits. */
  function Row(x: byte, a: byte, b: byte, c: byte, d: byte): byte {
    if x < 0x20 then (if x < 0x10 then a else b) else (if x < 0x30 then c else d)
  }

  function Box0(x: byte): byte {
    var c := x & 0x0f;
    Row(x,
      Pick(c, 0x2e, 0xe0, 0xc4, 0xbf, 0x4d, 0x27, 0x11, 0xc4, 0x72, 0x4e, 0xaf, 0x72, 0xbb, 0xdd, 0x68, 0x11),
      Pick(c, 0x83, 0x5a, 0x5a, 0x06, 0x36, 0xfc, 0xfc, 0xab, 0xd5, 0x39, 0x09, 0x95, 0xe0, 0x83, 0x97, 0x68),
      Pick(c, 0x44, 0xbf, 0x21, 0x8c, 0x1e, 0xc8, 0xb8, 0x72, 0xad, 0x14, 0xd6, 0xe9, 0x72, 0x21, 0x8b, 0xd7),
      Pick(c, 0xff, 0x65, 0x9c, 0xfb, 0xc9, 0x03, 0x57, 0x9e, 0x63, 0xaa, 0x3a, 0x40, 0x05, 0x56, 0xe0, 0x3d))
  }

  function Box1(x: byte): byte {
    var c := x & 0x0f;
    Row(x,
      Pick(c, 0xcf, 0xa3, 0x11, 0xfd, 0xa8, 0x44, 0xfe, 0x27, 0x96, 0x7f, 0x2b, 0xc2, 0x63, 0x98, 0x84, 0x5e),
      Pick(c, 0x09, 0x6c, 0xd7, 0x10, 0x32, 0xd1, 0x4d, 0xea, 0xec, 0x06, 0x70, 0xb9, 0x55, 0x3b, 0xba, 0x85),
      Pick(c, 0x90, 0x4d, 0xee, 0x38, 0xf7, 0x2a, 0x5b, 0xc1, 0x2a, 0x93, 0x84, 0x5f, 0xcd, 0xf4, 0x31, 0xa2),
      Pick(c, 0x75, 0xbb, 0x08, 0xe6, 0x4c, 0x17, 0xa6, 0x7c, 0x19, 0x60, 0xd3, 0x05, 0xb2, 0x8e, 0x6f, 0xd9))
  }

  function Box2(x: byte): byte {
    var c := x & 0x0f;
    Row(x,
      Pick(c, 0x4a, 0xdd, 0xb0, 0x07, 0x29, 0xb0, 0xee, 0x79, 0xf6, 0x43, 0x03, 0x94, 0x8f, 0x16, 0xd5, 0xaa),
      Pick(c, 0x31, 0xe2, 0xcd, 0x38, 0x9c, 0x55, 0x77, 0xce, 0x5b, 0x2c, 0xa4, 0xfb, 0x62, 0x8f, 0x18, 0x61),
      Pick(c, 0x1d, 0x61, 0x46, 0xba, 0xb4, 0xdd, 0xd9, 0x80, 0xc8, 0x16, 0x3f, 0x49, 0x73, 0xa8, 0xe0, 0x77),
      Pick(c, 0xab, 0x94, 0xf1, 0x5f, 0x62, 0x0e, 0x8c, 0xf3, 0x05, 0xeb, 0x5a, 0x25, 0x9e, 0x32, 0x27, 0xcc))
  }

  function Box3(x: byte): byte {
    var c := x & 0x0f;
    Row(x,
      Pick(c, 0xd7, 0x1d, 0x2d, 0xf8, 0x8e, 0xdb, 0x43, 0x85, 0x60, 0xa6, 0xf6, 0x3f, 0xb9, 0x70, 0x1a, 0x43),
      Pick(c, 0xa1, 0xc4, 0x92, 0x57, 0x38, 0x62, 0xe5, 0xbc, 0x5b, 0x01, 0x0c, 0xea, 0xc4, 0x9e, 0x7f, 0x29),
      Pick(c, 0x7a, 0x23, 0xb6, 0x1f, 0x49, 0xe0, 0x10, 0x76, 0x9c, 0x4a, 0xcb, 0xa1, 0xe7, 0x8d, 0x2d, 0xd8),
      Pick(c, 0x0f, 0xf9, 0x61, 0xc4, 0xa3, 0x95, 0xde, 0x0b, 0xf5, 0x3c, 0x32, 0x57, 0x58, 0x62, 0x84, 0xbe))
  }
}
