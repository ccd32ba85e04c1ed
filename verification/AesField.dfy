/** Arithmetic of the columns: addition in the field is exclusive or, and MixColumns and its inverse are the two
    mutually inverse matrices of FIPS 197, sections 5.1.3 and 5.3.3. */
module AesField {
  import opened Bits
  import opened AesTables

  // ---- Addition

  function Sum4(a: byte, b: byte, c: byte, d: byte): byte {
    Add(Add(a, b), Add(c, d))
  }

  lemma AddAssociates(a: byte, b: byte, c: byte)
    ensures Add(Add(a, b), c) == Add(a, Add(b, c))
  {}

  lemma AddCommutes(a: byte, b: byte)
    ensures Add(a, b) == Add(b, a)
  {}

  lemma AddExchange(a: byte, b: byte, c: byte, d: byte)
    ensures Add(Add(a, b), Add(c, d)) == Add(Add(a, c), Add(b, d))
  {
    hide *;
    AddAssociates(Add(a, b), c, d);
    AddAssociates(a, b, c);
    AddCommutes(b, c);
    AddAssociates(a, c, b);
    AddAssociates(Add(a, c), b, d);
  }

  lemma AddZero(x: byte)
    ensures Add(x, 0) == x && Add(0, x) == x
  {}

  lemma Sum4Add(a: byte, b: byte, c: byte, d: byte, e: byte, f: byte, g: byte, h: byte)
    ensures Add(Sum4(a, b, c, d), Sum4(e, f, g, h)) == Sum4(Add(a, e), Add(b, f), Add(c, g), Add(d, h))
  {
    hide Add;
    AddExchange(Add(a, b), Add(c, d), Add(e, f), Add(g, h));
    AddExchange(a, b, e, f);
    AddExchange(c, d, g, h);
  }

  /** Sixteen terms, summed by rows and by columns. */
  lemma Transpose(a0: byte, a1: byte, a2: byte, a3: byte, b0: byte, b1: byte, b2: byte, b3: byte,
      c0: byte, c1: byte, c2: byte, c3: byte, d0: byte, d1: byte, d2: byte, d3: byte)
    ensures Sum4(Sum4(a0, a1, a2, a3), Sum4(b0, b1, b2, b3), Sum4(c0, c1, c2, c3), Sum4(d0, d1, d2, d3))
         == Sum4(Sum4(a0, b0, c0, d0), Sum4(a1, b1, c1, d1), Sum4(a2, b2, c2, d2), Sum4(a3, b3, c3, d3))
  {
    hide Add;
    Sum4Add(a0, a1, a2, a3, b0, b1, b2, b3);
    Sum4Add(c0, c1, c2, c3, d0, d1, d2, d3);
    Sum4Add(Add(a0, b0), Add(a1, b1), Add(a2, b2), Add(a3, b3), Add(c0, d0), Add(c1, d1), Add(c2, d2), Add(c3, d3));
  }

  lemma OnlyFirst(x: byte)
    ensures Sum4(x, 0, 0, 0) == x && Sum4(0, x, 0, 0) == x && Sum4(0, 0, x, 0) == x && Sum4(0, 0, 0, x) == x
  {
    hide Add;
    AddZero(x);
    AddZero(0);
  }

  // ---- Multiples

  lemma XtimeXor(x: byte, y: byte)
    ensures Xtime(x ^ y) == Xtime(x) ^ Xtime(y)
  {
    hide Xtime;
    if x >> 7 == 0 {
      if y >> 7 == 0 { XtimeXorClear(x, y); } else { XtimeXorMixed(y, x); }
    } else {
      if y >> 7 == 0 { XtimeXorMixed(x, y); } else { XtimeXorSet(x, y); }
    }
  }

  lemma XtimeXorClear(x: byte, y: byte)
    requires x >> 7 == 0 && y >> 7 == 0
    ensures Xtime(x ^ y) == Xtime(x) ^ Xtime(y)
  {}

  lemma XtimeXorMixed(x: byte, y: byte)
    requires x >> 7 != 0 && y >> 7 == 0
    ensures Xtime(x ^ y) == Xtime(x) ^ Xtime(y)
  {}

  lemma XtimeXorSet(x: byte, y: byte)
    requires x >> 7 != 0 && y >> 7 != 0
    ensures Xtime(x ^ y) == Xtime(x) ^ Xtime(y)
  {}

  lemma XtimeAdd(x: byte, y: byte)
    ensures Xtime(Add(x, y)) == Add(Xtime(x), Xtime(y))
  {
    hide Xtime;
    XtimeXor(x, y);
  }

  /** The four multiples of the inverse matrix distribute over addition. */
  lemma GmAdd(x: byte, y: byte)
    ensures Gm9(Add(x, y)) == Add(Gm9(x), Gm9(y)) && Gm11(Add(x, y)) == Add(Gm11(x), Gm11(y))
    ensures Gm13(Add(x, y)) == Add(Gm13(x), Gm13(y)) && Gm14(Add(x, y)) == Add(Gm14(x), Gm14(y))
  {
    hide Xtime, Add;
    var x1, x2, x3 := Xtime(x), Xtime(Xtime(x)), Xtime(Xtime(Xtime(x)));
    var y1, y2, y3 := Xtime(y), Xtime(Xtime(y)), Xtime(Xtime(Xtime(y)));
    XtimeAdd(x, y); XtimeAdd(x1, y1); XtimeAdd(x2, y2);
    AddExchange(x3, x, y3, y);
    AddExchange(x3, x1, y3, y1); AddExchange(Add(x3, x1), x, Add(y3, y1), y);
    AddExchange(x3, x2, y3, y2); AddExchange(Add(x3, x2), x, Add(y3, y2), y);
    AddExchange(Add(x3, x2), x1, Add(y3, y2), y1);
  }

  lemma GmSum4(a: byte, b: byte, c: byte, d: byte)
    ensures Gm9(Sum4(a, b, c, d)) == Sum4(Gm9(a), Gm9(b), Gm9(c), Gm9(d))
    ensures Gm11(Sum4(a, b, c, d)) == Sum4(Gm11(a), Gm11(b), Gm11(c), Gm11(d))
    ensures Gm13(Sum4(a, b, c, d)) == Sum4(Gm13(a), Gm13(b), Gm13(c), Gm13(d))
    ensures Gm14(Sum4(a, b, c, d)) == Sum4(Gm14(a), Gm14(b), Gm14(c), Gm14(d))
  {
    hide Gm9, Gm11, Gm13, Gm14, Add;
    GmAdd(Add(a, b), Add(c, d));
    GmAdd(a, b);
    GmAdd(c, d);
  }

  // ---- The two matrices

  /** One column of MixColumns. */
  function Mix(a: byte, b: byte, c: byte, d: byte): bv32 {
    Word(Sum4(Gm2(a), Gm3(b), c, d), Sum4(a, Gm2(b), Gm3(c), d), Sum4(a, b, Gm2(c), Gm3(d)), Sum4(Gm3(a), b, c, Gm2(d)))
  }

  /** One column of InvMixColumns. */
  function InvMix(a: byte, b: byte, c: byte, d: byte): bv32 {
    Word(Sum4(Gm14(a), Gm11(b), Gm13(c), Gm9(d)), Sum4(Gm9(a), Gm14(b), Gm11(c), Gm13(d)),
         Sum4(Gm13(a), Gm9(b), Gm14(c), Gm11(d)), Sum4(Gm11(a), Gm13(b), Gm9(c), Gm14(d)))
  }

  /** Row 0 of the inverse matrix times each column of the matrix: one on the diagonal, else nothing. */
  lemma Row0(x: byte)
    ensures Sum4(Gm14(Gm2(x)), Gm11(x), Gm13(x), Gm9(Gm3(x))) == x
    ensures Sum4(Gm14(Gm3(x)), Gm11(Gm2(x)), Gm13(x), Gm9(x)) == 0
    ensures Sum4(Gm14(x), Gm11(Gm3(x)), Gm13(Gm2(x)), Gm9(x)) == 0
    ensures Sum4(Gm14(x), Gm11(x), Gm13(Gm3(x)), Gm9(Gm2(x))) == 0
  {
    hide *;
    Row0Left(x);
    Row0Right(x);
  }

  lemma Row0Left(x: byte)
    ensures Sum4(Gm14(Gm2(x)), Gm11(x), Gm13(x), Gm9(Gm3(x))) == x
    ensures Sum4(Gm14(Gm3(x)), Gm11(Gm2(x)), Gm13(x), Gm9(x)) == 0
  {}

  lemma Row0Right(x: byte)
    ensures Sum4(Gm14(x), Gm11(Gm3(x)), Gm13(Gm2(x)), Gm9(x)) == 0
    ensures Sum4(Gm14(x), Gm11(x), Gm13(Gm3(x)), Gm9(Gm2(x))) == 0
  {}

  /** Row 1 of the inverse matrix times each column of the matrix: one on the diagonal, else nothing. */
  lemma Row1(x: byte)
    ensures Sum4(Gm9(Gm2(x)), Gm14(x), Gm11(x), Gm13(Gm3(x))) == 0
    ensures Sum4(Gm9(Gm3(x)), Gm14(Gm2(x)), Gm11(x), Gm13(x)) == x
    ensures Sum4(Gm9(x), Gm14(Gm3(x)), Gm11(Gm2(x)), Gm13(x)) == 0
    ensures Sum4(Gm9(x), Gm14(x), Gm11(Gm3(x)), Gm13(Gm2(x))) == 0
  {
    hide *;
    Row1Left(x);
    Row1Right(x);
  }

  lemma Row1Left(x: byte)
    ensures Sum4(Gm9(Gm2(x)), Gm14(x), Gm11(x), Gm13(Gm3(x))) == 0
    ensures Sum4(Gm9(Gm3(x)), Gm14(Gm2(x)), Gm11(x), Gm13(x)) == x
  {}

  lemma Row1Right(x: byte)
    ensures Sum4(Gm9(x), Gm14(Gm3(x)), Gm11(Gm2(x)), Gm13(x)) == 0
    ensures Sum4(Gm9(x), Gm14(x), Gm11(Gm3(x)), Gm13(Gm2(x))) == 0
  {}

  /** Row 2 of the inverse matrix times each column of the matrix: one on the diagonal, else nothing. */
  lemma Row2(x: byte)
    ensures Sum4(Gm13(Gm2(x)), Gm9(x), Gm14(x), Gm11(Gm3(x))) == 0
    ensures Sum4(Gm13(Gm3(x)), Gm9(Gm2(x)), Gm14(x), Gm11(x)) == 0
    ensures Sum4(Gm13(x), Gm9(Gm3(x)), Gm14(Gm2(x)), Gm11(x)) == x
    ensures Sum4(Gm13(x), Gm9(x), Gm14(Gm3(x)), Gm11(Gm2(x))) == 0
  {
    hide *;
    Row2Left(x);
    Row2Right(x);
  }

  lemma Row2Left(x: byte)
    ensures Sum4(Gm13(Gm2(x)), Gm9(x), Gm14(x), Gm11(Gm3(x))) == 0
    ensures Sum4(Gm13(Gm3(x)), Gm9(Gm2(x)), Gm14(x), Gm11(x)) == 0
  {}

  lemma Row2Right(x: byte)
    ensures Sum4(Gm13(x), Gm9(Gm3(x)), Gm14(Gm2(x)), Gm11(x)) == x
    ensures Sum4(Gm13(x), Gm9(x), Gm14(Gm3(x)), Gm11(Gm2(x))) == 0
  {}

  /** Row 3 of the inverse matrix times each column of the matrix: one on the diagonal, else nothing. */
  lemma Row3(x: byte)
    ensures Sum4(Gm11(Gm2(x)), Gm13(x), Gm9(x), Gm14(Gm3(x))) == 0
    ensures Sum4(Gm11(Gm3(x)), Gm13(Gm2(x)), Gm9(x), Gm14(x)) == 0
    ensures Sum4(Gm11(x), Gm13(Gm3(x)), Gm9(Gm2(x)), Gm14(x)) == 0
    ensures Sum4(Gm11(x), Gm13(x), Gm9(Gm3(x)), Gm14(Gm2(x))) == x
  {
    hide *;
    Row3Left(x);
    Row3Right(x);
  }

  lemma Row3Left(x: byte)
    ensures Sum4(Gm11(Gm2(x)), Gm13(x), Gm9(x), Gm14(Gm3(x))) == 0
    ensures Sum4(Gm11(Gm3(x)), Gm13(Gm2(x)), Gm9(x), Gm14(x)) == 0
  {}

  lemma Row3Right(x: byte)
    ensures Sum4(Gm11(x), Gm13(Gm3(x)), Gm9(Gm2(x)), Gm14(x)) == 0
    ensures Sum4(Gm11(x), Gm13(x), Gm9(Gm3(x)), Gm14(Gm2(x))) == x
  {}

  /** The inverse matrix undoes the matrix. */
  lemma MixUndone(a: byte, b: byte, c: byte, d: byte)
    ensures
      var w := Mix(a, b, c, d);
      InvMix(B0(w), B1(w), B2(w), B3(w)) == Word(a, b, c, d)
  {
    hide Word, B0, B1, B2, B3, Sum4, Gm2, Gm3, Gm9, Gm11, Gm13, Gm14;
    BytesOfWord(Sum4(Gm2(a), Gm3(b), c, d), Sum4(a, Gm2(b), Gm3(c), d), Sum4(a, b, Gm2(c), Gm3(d)), Sum4(Gm3(a), b, c, Gm2(d)));
    RowOf0(a, b, c, d); RowOf1(a, b, c, d); RowOf2(a, b, c, d); RowOf3(a, b, c, d);
  }

  lemma RowOf0(a: byte, b: byte, c: byte, d: byte)
    ensures Sum4(Gm14(Sum4(Gm2(a), Gm3(b), c, d)), Gm11(Sum4(a, Gm2(b), Gm3(c), d)), Gm13(Sum4(a, b, Gm2(c), Gm3(d))), Gm9(Sum4(Gm3(a), b, c, Gm2(d))))
         == a
  {
    hide *;
    GmSum4(Gm2(a), Gm3(b), c, d);
    GmSum4(a, Gm2(b), Gm3(c), d);
    GmSum4(a, b, Gm2(c), Gm3(d));
    GmSum4(Gm3(a), b, c, Gm2(d));
    Transpose(Gm14(Gm2(a)), Gm14(Gm3(b)), Gm14(c), Gm14(d),
      Gm11(a), Gm11(Gm2(b)), Gm11(Gm3(c)), Gm11(d),
      Gm13(a), Gm13(b), Gm13(Gm2(c)), Gm13(Gm3(d)),
      Gm9(Gm3(a)), Gm9(b), Gm9(c), Gm9(Gm2(d)));
    Row0(a); Row0(b); Row0(c); Row0(d);
    OnlyFirst(a);
  }

  lemma RowOf1(a: byte, b: byte, c: byte, d: byte)
    ensures Sum4(Gm9(Sum4(Gm2(a), Gm3(b), c, d)), Gm14(Sum4(a, Gm2(b), Gm3(c), d)), Gm11(Sum4(a, b, Gm2(c), Gm3(d))), Gm13(Sum4(Gm3(a), b, c, Gm2(d))))
         == b
  {
    hide *;
    GmSum4(Gm2(a), Gm3(b), c, d);
    GmSum4(a, Gm2(b), Gm3(c), d);
    GmSum4(a, b, Gm2(c), Gm3(d));
    GmSum4(Gm3(a), b, c, Gm2(d));
    Transpose(Gm9(Gm2(a)), Gm9(Gm3(b)), Gm9(c), Gm9(d),
      Gm14(a), Gm14(Gm2(b)), Gm14(Gm3(c)), Gm14(d),
      Gm11(a), Gm11(b), Gm11(Gm2(c)), Gm11(Gm3(d)),
      Gm13(Gm3(a)), Gm13(b), Gm13(c), Gm13(Gm2(d)));
    Row1(a); Row1(b); Row1(c); Row1(d);
    OnlyFirst(b);
  }

  lemma RowOf2(a: byte, b: byte, c: byte, d: byte)
    ensures Sum4(Gm13(Sum4(Gm2(a), Gm3(b), c, d)), Gm9(Sum4(a, Gm2(b), Gm3(c), d)), Gm14(Sum4(a, b, Gm2(c), Gm3(d))), Gm11(Sum4(Gm3(a), b, c, Gm2(d))))
         == c
  {
    hide *;
    GmSum4(Gm2(a), Gm3(b), c, d);
    GmSum4(a, Gm2(b), Gm3(c), d);
    GmSum4(a, b, Gm2(c), Gm3(d));
    GmSum4(Gm3(a), b, c, Gm2(d));
    Transpose(Gm13(Gm2(a)), Gm13(Gm3(b)), Gm13(c), Gm13(d),
      Gm9(a), Gm9(Gm2(b)), Gm9(Gm3(c)), Gm9(d),
      Gm14(a), Gm14(b), Gm14(Gm2(c)), Gm14(Gm3(d)),
      Gm11(Gm3(a)), Gm11(b), Gm11(c), Gm11(Gm2(d)));
    Row2(a); Row2(b); Row2(c); Row2(d);
    OnlyFirst(c);
  }

  lemma RowOf3(a: byte, b: byte, c: byte, d: byte)
    ensures Sum4(Gm11(Sum4(Gm2(a), Gm3(b), c, d)), Gm13(Sum4(a, Gm2(b), Gm3(c), d)), Gm9(Sum4(a, b, Gm2(c), Gm3(d))), Gm14(Sum4(Gm3(a), b, c, Gm2(d))))
         == d
  {
    hide *;
    GmSum4(Gm2(a), Gm3(b), c, d);
    GmSum4(a, Gm2(b), Gm3(c), d);
    GmSum4(a, b, Gm2(c), Gm3(d));
    GmSum4(Gm3(a), b, c, Gm2(d));
    Transpose(Gm11(Gm2(a)), Gm11(Gm3(b)), Gm11(c), Gm11(d),
      Gm13(a), Gm13(Gm2(b)), Gm13(Gm3(c)), Gm13(d),
      Gm9(a), Gm9(b), Gm9(Gm2(c)), Gm9(Gm3(d)),
      Gm14(Gm3(a)), Gm14(b), Gm14(c), Gm14(Gm2(d)));
    Row3(a); Row3(b); Row3(c); Row3(d);
    OnlyFirst(d);
  }

  // ---- Words

  function AddWord(v: bv32, w: bv32): bv32 { v ^ w }

  lemma AddWordTwice(v: bv32, w: bv32)
    ensures AddWord(AddWord(v, w), w) == v
  {}

  lemma AddIs(x: byte, y: byte)
    ensures Add(x, y) == x ^ y
  {}

  lemma BytesOfAdd(v: bv32, w: bv32)
    ensures B0(AddWord(v, w)) == Add(B0(v), B0(w)) && B1(AddWord(v, w)) == Add(B1(v), B1(w))
    ensures B2(AddWord(v, w)) == Add(B2(v), B2(w)) && B3(AddWord(v, w)) == Add(B3(v), B3(w))
  {
    hide Add, B0, B1, B2, B3;
    BytesOfXor(v, w);
    AddIs(B0(v), B0(w)); AddIs(B1(v), B1(w)); AddIs(B2(v), B2(w)); AddIs(B3(v), B3(w));
  }

  lemma WordOfAdd(a: byte, b: byte, c: byte, d: byte, e: byte, f: byte, g: byte, h: byte)
    ensures Word(Add(a, e), Add(b, f), Add(c, g), Add(d, h)) == AddWord(Word(a, b, c, d), Word(e, f, g, h))
  {
    hide *;
    var v, w := Word(a, b, c, d), Word(e, f, g, h);
    BytesOfWord(a, b, c, d);
    BytesOfWord(e, f, g, h);
    BytesOfAdd(v, w);
    WordOfBytes(AddWord(v, w));
  }

  /** InvMixColumns distributes over the addition of a round key, as section 5.3.5 of FIPS 197 needs. */
  lemma InvMixAdd(a: byte, b: byte, c: byte, d: byte, e: byte, f: byte, g: byte, h: byte)
    ensures InvMix(Add(a, e), Add(b, f), Add(c, g), Add(d, h)) == AddWord(InvMix(a, b, c, d), InvMix(e, f, g, h))
  {
    hide Word, Sum4, Add, AddWord, Gm9, Gm11, Gm13, Gm14;
    GmAdd(a, e); GmAdd(b, f); GmAdd(c, g); GmAdd(d, h);
    Sum4Add(Gm14(a), Gm11(b), Gm13(c), Gm9(d), Gm14(e), Gm11(f), Gm13(g), Gm9(h));
    Sum4Add(Gm9(a), Gm14(b), Gm11(c), Gm13(d), Gm9(e), Gm14(f), Gm11(g), Gm13(h));
    Sum4Add(Gm13(a), Gm9(b), Gm14(c), Gm11(d), Gm13(e), Gm9(f), Gm14(g), Gm11(h));
    Sum4Add(Gm11(a), Gm13(b), Gm9(c), Gm14(d), Gm11(e), Gm13(f), Gm9(g), Gm14(h));
    WordOfAdd(Sum4(Gm14(a), Gm11(b), Gm13(c), Gm9(d)), Sum4(Gm9(a), Gm14(b), Gm11(c), Gm13(d)),
      Sum4(Gm13(a), Gm9(b), Gm14(c), Gm11(d)), Sum4(Gm11(a), Gm13(b), Gm9(c), Gm14(d)),
      Sum4(Gm14(e), Gm11(f), Gm13(g), Gm9(h)), Sum4(Gm9(e), Gm14(f), Gm11(g), Gm13(h)),
      Sum4(Gm13(e), Gm9(f), Gm14(g), Gm11(h)), Sum4(Gm11(e), Gm13(f), Gm9(g), Gm14(h)));
  }
}
