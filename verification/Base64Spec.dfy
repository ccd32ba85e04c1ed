/** What the text encoder writes and what the decoder makes of it. Both work on a chunk that is never cleared, so the
    bytes of one group of three reach into the next. */
module Base64Spec {
  import opened Bits

  /** The 64 characters. */
  function Chr(i: byte): byte {
    if i < 26 then i + 0x41 else if i < 52 then i + 0x47 else if i < 62 then i - 4 else if i == 62 then 0x2b else 0x2f
  }

  /** The value of a character: 64 for the filler, and 0xff, which is negative as a signed character, for no character
      of the code. */
  function Real(c: byte): byte {
    if 0x41 <= c <= 0x5a then c - 0x41
    else if 0x61 <= c <= 0x7a then c - 0x47
    else if 0x30 <= c <= 0x39 then c + 0x04
    else if c == 0x2b then 0x3e
    else if c == 0x2f then 0x3f
    else if c == 0x3d then 64
    else 0xff
  }

  lemma RealOfChr(i: byte)
    requires i < 64
    ensures Real(Chr(i)) == i
  {
  }

  function Letter(c: char): byte
    requires c < 256 as char
  {
    c as byte
  }

  /** The alphabet of RFC 4648, section 4. */
  lemma ChrIs(i: byte)
    requires i < 64
    ensures i < 26 ==> Chr(i) == Letter('A') + i
    ensures 26 <= i < 52 ==> Chr(i) == Letter('a') + (i - 26)
    ensures 52 <= i < 62 ==> Chr(i) == Letter('0') + (i - 52)
    ensures i == 62 ==> Chr(i) == Letter('+')
    ensures i == 63 ==> Chr(i) == Letter('/')
  {
  }

  /** The decoder heeds the 64 characters and the filler. */
  lemma RealIff(c: byte)
    ensures Real(c) < 64 ==> Chr(Real(c)) == c
    ensures Real(c) == 64 <==> c == Letter('=')
    ensures Real(c) > 64 ==> forall i :: i < 64 ==> Chr(i) != c
  {
  }

  // ---- Six bits out of eight

  function E0(a: byte): byte {
    (a & 0xfc) >> 2
  }

  function E1(a: byte, b: byte): byte {
    ((a & 0x03) << 4) | ((b & 0xf0) >> 4)
  }

  function E2(b: byte, c: byte): byte {
    ((b & 0x0f) << 2) | ((c & 0xc0) >> 6)
  }

  function E3(c: byte): byte {
    c & 0x3f
  }

  function D0(e0: byte, e1: byte): byte {
    ((e0 & 0x3f) << 2) | ((e1 & 0x30) >> 4)
  }

  function D1(e1: byte, e2: byte): byte {
    ((e1 & 0x0f) << 4) | ((e2 & 0x3c) >> 2)
  }

  function D2(e2: byte, e3: byte): byte {
    ((e2 & 0x0f) << 6) | (e3 & 0x3f)
  }

  /** Four groups of six bits are three bytes, the first bits first. */
  lemma GroupsAre(a: byte, b: byte, c: byte)
    ensures Word(0, a, b, c) ==
      ((E0(a) as bv32) << 18) | ((E1(a, b) as bv32) << 12) | ((E2(b, c) as bv32) << 6) | (E3(c) as bv32)
  {
  }

  lemma SixBits(a: byte, b: byte)
    ensures E0(a) < 64 && E1(a, b) < 64 && E2(a, b) < 64 && E3(a) < 64
  {
  }

  lemma D0Undoes(a: byte, b: byte)
    ensures D0(E0(a), E1(a, b)) == a
  {
  }

  lemma D1Undoes(a: byte, b: byte, c: byte)
    ensures D1(E1(a, b), E2(b, c)) == b
  {
  }

  lemma D2Undoes(b: byte, c: byte)
    ensures D2(E2(b, c), E3(c)) == c
  {
  }

  /** What the fillers leave of the byte behind the last one. */
  lemma Fillers(a: byte, b: byte, c: byte)
    ensures D1(E1(a, b), 64) == b & 0xf0 && D2(64, 64) == 0 && D2(E2(b, c), 64) == c & 0xc0
  {
  }

  // ---- Encoding

  /** The four characters of a group of `n` bytes; the others are stale. */
  function Group(a: byte, b: byte, c: byte, n: nat): (r: seq<byte>)
    ensures |r| == 4
  {
    [Chr(E0(a)), Chr(E1(a, b)), if n > 1 then Chr(E2(b, c)) else 0x3d, if n > 2 then Chr(E3(c)) else 0x3d]
  }

  function Break(len: int, linesz: int): (r: seq<byte>)
    ensures |r| <= 2
  {
    if len >= linesz then [13, 10] else []
  }

  /** The code of `t`, when the chunk holds `b` and `c` in its last two places and the line is `len` characters long. */
  function Encoded(t: seq<byte>, b: byte, c: byte, len: int, linesz: int): seq<byte> {
    if t == [] then []
    else
      var n := if |t| < 3 then |t| else 3;
      var b' := if n > 1 then t[1] else b;
      var c' := if n > 2 then t[2] else c;
      Break(len, linesz) + Group(t[0], b', c', n)
        + Encoded(t[n..], b', c', (if len >= linesz then 0 else len) + 4, linesz)
  }

  // ---- Decoding

  /** Fills the places of the chunk from `k`, and what is left of the code. */
  function Gathered(s: seq<byte>, e: seq<byte>, k: nat): (r: (seq<byte>, seq<byte>))
    requires |e| == 4 && k <= 4
    ensures |r.0| == 4 && |r.1| <= |s| && (k < 4 && s != [] ==> |r.1| < |s|)
    decreases |s|
  {
    if k == 4 || s == [] then (e, s)
    else
      var v := Real(s[0]);
      Gathered(s[1..], e[k := v], if v < 0x80 then k + 1 else k)
  }

  /** The bytes of a chunk up to the first zero. */
  function Emitted(a: byte, b: byte, c: byte): (r: seq<byte>)
    ensures |r| <= 3
  {
    if a == 0 then [] else if b == 0 then [a] else if c == 0 then [a, b] else [a, b, c]
  }

  function Decoded(s: seq<byte>, e: seq<byte>): seq<byte>
    requires |e| == 4
    decreases |s|
  {
    if s == [] then []
    else
      var (f, rest) := Gathered(s, e, 0);
      Emitted(D0(f[0], f[1]), D1(f[1], f[2]), D2(f[2], f[3])) + Decoded(rest, f)
  }

  // ---- There and back

  /** The stale bits that come out behind a text whose length is not a multiple of three. */
  function Stale(t: seq<byte>, b: byte, c: byte): seq<byte> {
    if |t| == 0 then []
    else if |t| == 1 then (if b & 0xf0 == 0 then [] else [b & 0xf0])
    else if |t| == 2 then (if c & 0xc0 == 0 then [] else [c & 0xc0])
    else Stale(t[3..], t[1], t[2])
  }

  predicate NulFree(t: seq<byte>) {
    forall i :: 0 <= i < |t| ==> t[i] != 0
  }

  lemma GatherOne(c: byte, s: seq<byte>, e: seq<byte>, k: nat)
    requires |e| == 4 && k < 4
    ensures Gathered([c] + s, e, k) == Gathered(s, e[k := Real(c)], if Real(c) < 0x80 then k + 1 else k)
  {
    hide Real;
    assert ([c] + s)[1..] == s;
  }

  lemma GatherFour(a: byte, b: byte, c: byte, d: byte, s: seq<byte>, e: seq<byte>)
    requires |e| == 4 && Real(a) < 0x80 && Real(b) < 0x80 && Real(c) < 0x80 && Real(d) < 0x80
    ensures Gathered([a, b, c, d] + s, e, 0) == ([Real(a), Real(b), Real(c), Real(d)], s)
  {
    hide Real, Gathered;
    var e1 := e[0 := Real(a)];
    var e2 := e1[1 := Real(b)];
    var e3 := e2[2 := Real(c)];
    var e4 := e3[3 := Real(d)];
    assert [a, b, c, d] + s == [a] + ([b] + ([c] + ([d] + s)));
    GatherOne(a, [b] + ([c] + ([d] + s)), e, 0);
    GatherOne(b, [c] + ([d] + s), e1, 1);
    GatherOne(c, [d] + s, e2, 2);
    GatherOne(d, s, e3, 3);
    GatherDone(s, e4);
    assert e4 == [Real(a), Real(b), Real(c), Real(d)];
  }

  lemma GatherDone(s: seq<byte>, e: seq<byte>)
    requires |e| == 4
    ensures Gathered(s, e, 4) == (e, s)
  {
  }

  /** Line breaks are skipped; only the first place of the chunk notices them. */
  lemma GatherBreak(s: seq<byte>, e: seq<byte>, len: int, linesz: int)
    requires |e| == 4
    ensures Gathered(Break(len, linesz) + s, e, 0) == Gathered(s, if len >= linesz then e[0 := 0xff] else e, 0)
  {
    if len >= linesz {
      GatherCrLf(s, e);
    } else {
      assert [] + s == s;
    }
  }

  lemma GatherCrLf(s: seq<byte>, e: seq<byte>)
    requires |e| == 4
    ensures Gathered([13, 10] + s, e, 0) == Gathered(s, e[0 := 0xff], 0)
  {
    hide Gathered;
    assert [13, 10] + s == [13] + ([10] + s);
    GatherOne(13, [10] + s, e, 0);
    GatherOne(10, s, e[0 := 0xff], 0);
    assert e[0 := 0xff][0 := 0xff] == e[0 := 0xff];
  }

  /** The values the decoder finds in a group. */
  lemma GroupRead(a: byte, b: byte, c: byte, n: nat, s: seq<byte>, e: seq<byte>)
    requires |e| == 4
    ensures Gathered(Group(a, b, c, n) + s, e, 0)
      == ([E0(a), E1(a, b), if n > 1 then E2(b, c) else 64, if n > 2 then E3(c) else 64], s)
  {
    hide Gathered, E0, E1, E2, E3, Chr;
    SixBits(a, b);
    SixBits(b, c);
    SixBits(c, c);
    RealOfChr(E0(a));
    RealOfChr(E1(a, b));
    RealOfChr(E2(b, c));
    RealOfChr(E3(c));
    var g := Group(a, b, c, n);
    GatherFour(g[0], g[1], g[2], g[3], s, e);
  }

  /** What the decoder emits for a group of `n` bytes. */
  function Left(a: byte, b: byte, c: byte, n: nat): seq<byte> {
    Emitted(a, if n > 1 then b else b & 0xf0, if n > 2 then c else if n > 1 then c & 0xc0 else 0)
  }

  /** Decoding the code of one group. */
  lemma GroupUndone(a: byte, b: byte, c: byte, n: nat, s: seq<byte>, e: seq<byte>, len: int, linesz: int)
    requires |e| == 4
    ensures exists f :: |f| == 4 && Decoded(Break(len, linesz) + Group(a, b, c, n) + s, e) == Left(a, b, c, n) + Decoded(s, f)
  {
    hide Gathered, E0, E1, E2, E3, D0, D1, D2, Chr, Group, Emitted;
    var w := Group(a, b, c, n) + s;
    assert Break(len, linesz) + Group(a, b, c, n) + s == Break(len, linesz) + w;
    GatherBreak(w, e, len, linesz);
    GroupRead(a, b, c, n, s, if len >= linesz then e[0 := 0xff] else e);
    D0Undoes(a, b);
    D1Undoes(a, b, c);
    D2Undoes(b, c);
    Fillers(a, b, c);
    var f := Gathered(Break(len, linesz) + w, e, 0).0;
    assert Decoded(Break(len, linesz) + w, e)
      == Emitted(D0(f[0], f[1]), D1(f[1], f[2]), D2(f[2], f[3])) + Decoded(s, f);
  }

  /** Decoding gives the text back, and behind it the stale bits of its last group. */
  lemma {:induction false} DecodesTo(t: seq<byte>, b: byte, c: byte, len: int, linesz: int, e: seq<byte>)
    requires NulFree(t) && |e| == 4
    ensures Decoded(Encoded(t, b, c, len, linesz), e) == t + Stale(t, b, c)
    decreases |t|
  {
    hide Decoded, Group, Break, Emitted;
    if t == [] {
      DecodedNothing(e);
    } else {
      var n := if |t| < 3 then |t| else 3;
      var b' := if n > 1 then t[1] else b;
      var c' := if n > 2 then t[2] else c;
      var l := (if len >= linesz then 0 else len) + 4;
      var rest := Encoded(t[n..], b', c', l, linesz);
      GroupUndone(t[0], b', c', n, rest, e, len, linesz);
      var f :| |f| == 4 && Decoded(Break(len, linesz) + Group(t[0], b', c', n) + rest, e) == Left(t[0], b', c', n) + Decoded(rest, f);
      DecodesTo(t[n..], b', c', l, linesz, f);
      EmittedIs(t, b, c);
    }
  }

  lemma DecodedNothing(e: seq<byte>)
    requires |e| == 4
    ensures Decoded([], e) == []
  {
  }

  lemma EmittedIs(t: seq<byte>, b: byte, c: byte)
    requires NulFree(t) && t != []
    ensures var n := if |t| < 3 then |t| else 3;
      var b' := if n > 1 then t[1] else b;
      var c' := if n > 2 then t[2] else c;
      Left(t[0], b', c', n) + (t[n..] + Stale(t[n..], b', c')) == t + Stale(t, b, c)
  {
  }

  /** The byte that the last group finds behind its own, when the text does not fill it: the one three places before the
      end, or what the chunk held at the start. */
  function Behind(t: seq<byte>, b: byte, c: byte): byte {
    if |t| >= 4 then t[|t| - 3] else if |t| == 1 then b else c
  }

  /** Nothing stale comes out. */
  predicate Clean(t: seq<byte>, b: byte, c: byte) {
    || |t| % 3 == 0
    || (|t| % 3 == 1 && Behind(t, b, c) & 0xf0 == 0)
    || (|t| % 3 == 2 && Behind(t, b, c) & 0xc0 == 0)
  }

  lemma {:induction false} StaleIff(t: seq<byte>, b: byte, c: byte)
    ensures Stale(t, b, c) == [] <==> Clean(t, b, c)
  {
    if |t| >= 3 {
      StaleIff(t[3..], t[1], t[2]);
      assert |t| % 3 == |t[3..]| % 3;
      assert |t| % 3 != 0 ==> Behind(t[3..], t[1], t[2]) == Behind(t, b, c);
    }
  }

  /** The decoder gives a text back exactly when its last group is full or the byte behind its end has no high bits. */
  lemma RoundTripIff(t: seq<byte>, b: byte, c: byte, linesz: int, e: seq<byte>)
    requires NulFree(t) && |e| == 4
    ensures Decoded(Encoded(t, b, c, 0, linesz), e) == t <==> Clean(t, b, c)
  {
    hide Decoded, Encoded, Stale, Clean;
    DecodesTo(t, b, c, 0, linesz, e);
    StaleIff(t, b, c);
    if Stale(t, b, c) == [] {
      assert t + [] == t;
    } else {
      assert |t + Stale(t, b, c)| > |t|;
    }
  }
}
