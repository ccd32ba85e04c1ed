/** Constant tables of 256 entries, laid out in rows of sixteen. */
module Lookup {
  import opened Bits

  function Pick(i: bv8, a0: byte, a1: byte, a2: byte, a3: byte, a4: byte, a5: byte, a6: byte, a7: byte,
      a8: byte, a9: byte, aa: byte, ab: byte, ac: byte, ad: byte, ae: byte, af: byte): byte {
    if i < 8 then
      if i < 4 then (if i < 2 then (if i < 1 then a0 else a1) else (if i < 3 then a2 else a3))
      else (if i < 6 then (if i < 5 then a4 else a5) else (if i < 7 then a6 else a7))
    else
      if i < 12 then (if i < 10 then (if i < 9 then a8 else a9) else (if i < 11 then aa else ab))
      else (if i < 14 then (if i < 13 then ac else ad) else (if i < 15 then ae else af))
  }

  function PickWord(i: bv8, a0: bv32, a1: bv32, a2: bv32, a3: bv32, a4: bv32, a5: bv32, a6: bv32, a7: bv32,
      a8: bv32, a9: bv32, aa: bv32, ab: bv32, ac: bv32, ad: bv32, ae: bv32, af: bv32): bv32 {
    if i < 8 then
      if i < 4 then (if i < 2 then (if i < 1 then a0 else a1) else (if i < 3 then a2 else a3))
      else (if i < 6 then (if i < 5 then a4 else a5) else (if i < 7 then a6 else a7))
    else
      if i < 12 then (if i < 10 then (if i < 9 then a8 else a9) else (if i < 11 then aa else ab))
      else (if i < 14 then (if i < 13 then ac else ad) else (if i < 15 then ae else af))
  }
}
