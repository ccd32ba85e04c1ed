/** The compression loops of both digests, over a word array that is filled first. */
module HashBlocks {
  import opened Bits
  import opened HashSpec

  /** The first sixteen words of a block that starts at `off`. */
  method LoadWords(data: array<byte>, off: nat, w: array<bv32>, ghost blk: seq<byte>)
    requires off + 64 <= data.Length && w.Length >= 16 && blk == data[off..off + 64]
    modifies w
    ensures forall i :: 0 <= i < 16 ==> w[i] == BlockWord(blk, i)
  {
    hide Word;
    var t := 0;
    while t < 16
      invariant 0 <= t <= 16
      invariant forall i :: 0 <= i < t ==> w[i] == BlockWord(blk, i)
    {
      w[t] := Word(data[off + t * 4], data[off + t * 4 + 1], data[off + t * 4 + 2], data[off + t * 4 + 3]);
      t := t + 1;
    }
  }

  // ---- SHA-1

  /** The forms of the source: the choice and the majority are written with disjunctions. */
  function ChooseOr(b: bv32, c: bv32, d: bv32): bv32 {
    (b & c) | (!b & d)
  }

  function MajorityOr(b: bv32, c: bv32, d: bv32): bv32 {
    (b & c) | (b & d) | (c & d)
  }

  lemma ChooseBits(b: bv32, c: bv32, d: bv32)
    ensures (b & c) | (!b & d) == (b & c) ^ (!b & d)
  {
  }

  lemma MajorityBits(b: bv32, c: bv32, d: bv32)
    ensures (b & c) | (b & d) | (c & d) == (b & c) ^ (b & d) ^ (c & d)
  {
  }

  lemma ChooseOrIs(b: bv32, c: bv32, d: bv32)
    ensures ChooseOr(b, c, d) == Choose(b, c, d)
  {
    ChooseBits(b, c, d);
  }

  lemma MajorityOrIs(b: bv32, c: bv32, d: bv32)
    ensures MajorityOr(b, c, d) == Majority(b, c, d)
  {
    MajorityBits(b, c, d);
  }

  method Sha1Schedule(data: array<byte>, off: nat, ghost blk: seq<byte>) returns (w: array<bv32>)
    requires off + 64 <= data.Length && blk == data[off..off + 64]
    ensures w.Length == 80 && fresh(w)
    ensures forall i :: 0 <= i < 80 ==> w[i] == Sha1Word(blk, i)
  {
    hide BlockWord, Sha1Next, Sha1Word;
    w := new bv32[80];
    LoadWords(data, off, w, blk);
    Sha1WordFirst(blk);
    var t := 16;
    while t < 80
      invariant 16 <= t <= 80
      invariant forall i :: 0 <= i < t ==> w[i] == Sha1Word(blk, i)
    {
      Sha1WordLater(blk, t);
      w[t] := Sha1Next(w[t - 3], w[t - 8], w[t - 14], w[t - 16]);
      t := t + 1;
    }
  }

  lemma Sha1WordFirst(blk: seq<byte>)
    requires |blk| == 64
    ensures forall i :: 0 <= i < 16 ==> Sha1Word(blk, i) == BlockWord(blk, i)
  {
    hide BlockWord, Sha1Next;
  }

  lemma Sha1WordLater(blk: seq<byte>, t: nat)
    requires |blk| == 64 && t >= 16
    ensures Sha1Word(blk, t) == Sha1Next(Sha1Word(blk, t - 3), Sha1Word(blk, t - 8), Sha1Word(blk, t - 14), Sha1Word(blk, t - 16))
  {
    hide BlockWord, Sha1Next;
  }

  lemma Sha1RoundsNext(h: Five, blk: seq<byte>, t: nat)
    requires |blk| == 64
    ensures Sha1Rounds(h, blk, 0) == h
    ensures Sha1Rounds(h, blk, t + 1) == Sha1Round(Sha1Rounds(h, blk, t), t, Sha1Word(blk, t))
  {
    hide Sha1Round, Sha1Word;
  }

  lemma Sha1RoundIs(s: Five, t: nat, w: bv32, f: bv32, k: bv32, tmp: bv32)
    requires f == Sha1Mix(t, s.b, s.c, s.d) && k == Sha1K(t)
    requires tmp == Plus(Plus(Plus(Plus(Rol(s.a, 5), f), s.e), k), w)
    ensures Sha1Round(s, t, w) == Five(tmp, s.a, Rol(s.b, 30), s.c, s.d)
  {
    hide Rol, Plus, Sha1Mix, Sha1K;
  }

  /** The function and the constant of a round. */
  method Sha1Pick(t: nat, b: bv32, c: bv32, d: bv32) returns (f: bv32, k: bv32)
    ensures f == Sha1Mix(t, b, c, d) && k == Sha1K(t)
  {
    hide Choose, ChooseOr, Majority, MajorityOr, Parity;
    if t < 20 {
      ChooseOrIs(b, c, d);
      f, k := ChooseOr(b, c, d), 0x5A827999;
    } else if t < 40 {
      f, k := Parity(b, c, d), 0x6ED9EBA1;
    } else if t < 60 {
      MajorityOrIs(b, c, d);
      f, k := MajorityOr(b, c, d), 0x8F1BBCDC;
    } else {
      f, k := Parity(b, c, d), 0xCA62C1D6;
    }
  }

  method CompressSha1(h: array<bv32>, data: array<byte>, off: nat)
    requires h.Length == 5 && off + 64 <= data.Length
    modifies h
    ensures h[..] == Compress(Sha1, old(h[..]), data[off..off + 64])
  {
    hide *;
    ghost var blk, was := data[off..off + 64], h[..];
    var w := Sha1Schedule(data, off, blk);
    var a, b, c, d, e := h[0], h[1], h[2], h[3], h[4];
    ghost var start := Five(a, b, c, d, e);
    Sha1RoundsNext(start, blk, 0);
    var t := 0;
    while t < 80
      invariant 0 <= t <= 80 && h[..] == was
      invariant Five(a, b, c, d, e) == Sha1Rounds(start, blk, t)
      invariant forall i :: 0 <= i < 80 ==> w[i] == Sha1Word(blk, i)
    {
      var f, k := Sha1Pick(t, b, c, d);
      var tmp := Plus(Plus(Plus(Plus(Rol(a, 5), f), e), k), w[t]);
      Sha1RoundIs(Five(a, b, c, d, e), t, w[t], f, k, tmp);
      Sha1RoundsNext(start, blk, t);
      e, d, c, b, a := d, c, Rol(b, 30), a, tmp;
      t := t + 1;
    }
    h[0] := Plus(h[0], a);
    h[1] := Plus(h[1], b);
    h[2] := Plus(h[2], c);
    h[3] := Plus(h[3], d);
    h[4] := Plus(h[4], e);
    CompressSha1Is(was, blk, h[..], a, b, c, d, e);
  }

  lemma CompressSha1Is(was: seq<bv32>, blk: seq<byte>, now: seq<bv32>, a: bv32, b: bv32, c: bv32, d: bv32, e: bv32)
    requires |was| == |now| == 5 && |blk| == 64
    requires Five(a, b, c, d, e) == Sha1Rounds(Five(was[0], was[1], was[2], was[3], was[4]), blk, 80)
    requires now[0] == Plus(was[0], a) && now[1] == Plus(was[1], b) && now[2] == Plus(was[2], c)
    requires now[3] == Plus(was[3], d) && now[4] == Plus(was[4], e)
    ensures now == Compress(Sha1, was, blk)
  {
    hide Plus, Sha1Rounds;
  }

  // ---- SHA-256

  method Sha256Schedule(data: array<byte>, off: nat, ghost blk: seq<byte>) returns (w: array<bv32>)
    requires off + 64 <= data.Length && blk == data[off..off + 64]
    ensures w.Length == 64 && fresh(w)
    ensures forall i :: 0 <= i < 64 ==> w[i] == Sha256Word(blk, i)
  {
    hide BlockWord, Low0, Low1, Plus, Sha256Word;
    w := new bv32[64];
    LoadWords(data, off, w, blk);
    Sha256WordFirst(blk);
    var t := 16;
    while t < 64
      invariant 16 <= t <= 64
      invariant forall i :: 0 <= i < t ==> w[i] == Sha256Word(blk, i)
    {
      Sha256WordLater(blk, t);
      var s0 := Low0(w[t - 15]);
      var s1 := Low1(w[t - 2]);
      w[t] := Plus(Plus(Plus(w[t - 16], s0), w[t - 7]), s1);
      t := t + 1;
    }
  }

  lemma Sha256WordFirst(blk: seq<byte>)
    requires |blk| == 64
    ensures forall i :: 0 <= i < 16 ==> Sha256Word(blk, i) == BlockWord(blk, i)
  {
    hide BlockWord, Low0, Low1, Plus;
  }

  lemma Sha256WordLater(blk: seq<byte>, t: nat)
    requires |blk| == 64 && t >= 16
    ensures Sha256Word(blk, t) ==
      Plus(Plus(Plus(Sha256Word(blk, t - 16), Low0(Sha256Word(blk, t - 15))), Sha256Word(blk, t - 7)), Low1(Sha256Word(blk, t - 2)))
  {
    hide BlockWord, Low0, Low1, Plus;
  }

  lemma Sha256RoundsNext(h: Eight, blk: seq<byte>, t: nat)
    requires |blk| == 64 && t < 64
    ensures Sha256Rounds(h, blk, 0) == h
    ensures Sha256Rounds(h, blk, t + 1) == Sha256Round(Sha256Rounds(h, blk, t), t, Sha256Word(blk, t))
  {
    hide Sha256Round, Sha256Word;
  }

  lemma Sha256RoundIs(s: Eight, t: nat, w: bv32, tmp1: bv32, tmp2: bv32)
    requires t < 64
    requires tmp1 == Plus(Plus(Plus(Plus(s.h, Sum1(s.e)), Choose(s.e, s.f, s.g)), Sha256K(t)), w)
    requires tmp2 == Plus(Sum0(s.a), Majority(s.a, s.b, s.c))
    ensures Sha256Round(s, t, w) == Eight(Plus(tmp1, tmp2), s.a, s.b, s.c, Plus(s.d, tmp1), s.e, s.f, s.g)
  {
    hide Plus, Sum0, Sum1, Choose, Majority, Sha256K;
  }

  method CompressSha256(h: array<bv32>, data: array<byte>, off: nat)
    requires h.Length == 8 && off + 64 <= data.Length
    modifies h
    ensures h[..] == Compress(Sha256, old(h[..]), data[off..off + 64])
  {
    hide *;
    ghost var blk, was := data[off..off + 64], h[..];
    var w := Sha256Schedule(data, off, blk);
    var a, b, c, d, e, f, g, hh := h[0], h[1], h[2], h[3], h[4], h[5], h[6], h[7];
    ghost var start := Eight(a, b, c, d, e, f, g, hh);
    Sha256RoundsNext(start, blk, 0);
    var t := 0;
    while t < 64
      invariant 0 <= t <= 64 && h[..] == was
      invariant Eight(a, b, c, d, e, f, g, hh) == Sha256Rounds(start, blk, t)
      invariant forall i :: 0 <= i < 64 ==> w[i] == Sha256Word(blk, i)
    {
      var tmp1 := Plus(Plus(Plus(Plus(hh, Sum1(e)), Choose(e, f, g)), Sha256K(t)), w[t]);
      var tmp2 := Plus(Sum0(a), Majority(a, b, c));
      Sha256RoundIs(Eight(a, b, c, d, e, f, g, hh), t, w[t], tmp1, tmp2);
      Sha256RoundsNext(start, blk, t);
      hh, g, f, e, d, c, b, a := g, f, e, Plus(d, tmp1), c, b, a, Plus(tmp1, tmp2);
      t := t + 1;
    }
    AddWords(h, [a, b, c, d, e, f, g, hh]);
    CompressSha256Is(was, blk, h[..], Eight(a, b, c, d, e, f, g, hh));
  }

  method AddWords(h: array<bv32>, s: seq<bv32>)
    requires h.Length == |s|
    modifies h
    ensures forall i :: 0 <= i < |s| ==> h[i] == Plus(old(h[i]), s[i])
  {
    hide *;
    forall i | 0 <= i < |s| {
      h[i] := Plus(h[i], s[i]);
    }
  }

  lemma CompressSha256Is(was: seq<bv32>, blk: seq<byte>, now: seq<bv32>, s: Eight)
    requires |was| == |now| == 8 && |blk| == 64
    requires s == Sha256Rounds(Eight(was[0], was[1], was[2], was[3], was[4], was[5], was[6], was[7]), blk, 64)
    requires now == [Plus(was[0], s.a), Plus(was[1], s.b), Plus(was[2], s.c), Plus(was[3], s.d),
                     Plus(was[4], s.e), Plus(was[5], s.f), Plus(was[6], s.g), Plus(was[7], s.h)]
    ensures now == Compress(Sha256, was, blk)
  {
    hide Plus, Sha256Rounds;
  }
}
