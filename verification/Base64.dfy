/** The coding loops, over text that ends with a zero byte. */
module Base64 {
  import opened Bits
  import opened Base64Spec

  /** The zero-terminated text in a buffer. */
  ghost predicate Holds(a: array<byte>, t: seq<byte>)
    reads a
  {
    |t| < a.Length && a[..|t|] == t && a[|t|] == 0 && NulFree(t)
  }

  /** The chunk of both loops; what it holds at the start is arbitrary. */
  class Chunk {
    var len: nat
    const enc: array<byte>
    const dec: array<byte>

    constructor (e: seq<byte>, d: seq<byte>)
      requires |e| == 4 && |d| == 3
      ensures Shaped() && enc[..] == e && dec[..] == d && fresh(enc) && fresh(dec)
    {
      len := 0;
      enc := new byte[4](i requires 0 <= i < 4 => e[i]);
      dec := new byte[3](i requires 0 <= i < 3 => d[i]);
    }

    predicate Shaped()
    {
      enc.Length == 4 && dec.Length == 3 && enc != dec
    }

    /** The code of the group in the chunk. */
    method Encode()
      requires Shaped()
      modifies enc
      ensures enc[..] == Group(dec[0], dec[1], dec[2], len)
    {
      hide Chr, E0, E1, E2, E3;
      enc[0] := Chr(E0(dec[0]));
      enc[1] := Chr(E1(dec[0], dec[1]));
      enc[2] := if len > 1 then Chr(E2(dec[1], dec[2])) else 0x3d;
      enc[3] := if len > 2 then Chr(E3(dec[2])) else 0x3d;
    }

    method Decode()
      requires Shaped()
      modifies dec
      ensures dec[0] == D0(enc[0], enc[1]) && dec[1] == D1(enc[1], enc[2]) && dec[2] == D2(enc[2], enc[3])
    {
      hide D0, D1, D2;
      dec[0] := D0(enc[0], enc[1]);
      dec[1] := D1(enc[1], enc[2]);
      dec[2] := D2(enc[2], enc[3]);
    }

    /** Takes up to three bytes of the text. */
    method Load(input: array<byte>, i0: nat, ghost t: seq<byte>) returns (i: nat)
      requires Shaped() && Holds(input, t) && i0 < |t| && input != dec
      modifies this`len, dec
      ensures len == (if |t| - i0 < 3 then |t| - i0 else 3) && i == i0 + len
      ensures dec[0] == t[i0]
      ensures dec[1] == (if len > 1 then t[i0 + 1] else old(dec[1]))
      ensures dec[2] == (if len > 2 then t[i0 + 2] else old(dec[2]))
    {
      i := i0;
      len := 0;
      while len < 3 && input[i] != 0
        invariant len <= 3 && i == i0 + len <= |t| && Holds(input, t)
        invariant forall k :: 0 <= k < len ==> dec[k] == t[i0 + k]
        invariant forall k :: len <= k < 3 ==> dec[k] == old(dec[k])
      {
        assert input[i] == input[..|t|][i];
        dec[len] := input[i];
        len := len + 1;
        i := i + 1;
      }
    }

    /** Reads characters of the code until the chunk is full or the text ends. */
    method Fill(input: array<byte>, i0: nat, ghost s: seq<byte>) returns (i: nat)
      requires Shaped() && Holds(input, s) && i0 <= |s| && input != enc
      modifies this`len, enc
      ensures i <= |s| && (enc[..], s[i..]) == Gathered(s[i0..], old(enc[..]), 0)
      ensures i0 < |s| ==> i0 < i
    {
      hide Real, Gathered;
      i := i0;
      len := 0;
      ghost var goal := Gathered(s[i0..], enc[..], 0);
      while len < 4 && input[i] != 0
        invariant len <= 4 && i0 <= i <= |s| && Holds(input, s) && (i == i0 ==> len == 0)
        invariant Gathered(s[i..], enc[..], len) == goal
        decreases |s| - i
      {
        assert input[i] == input[..|s|][i] == s[i];
        GatherOne(s[i], s[i + 1..], enc[..], len);
        assert [s[i]] + s[i + 1..] == s[i..];
        ghost var e := enc[..];
        enc[len] := Real(input[i]);
        assert enc[..] == e[len := Real(s[i])];
        i := i + 1;
        if enc[len] < 0x80 {
          len := len + 1;
        }
      }
      GatherStops(s[i..], enc[..], len);
    }

    /** Writes the bytes of the chunk up to the first zero. */
    method Emit(out: array<byte>, o0: nat) returns (o: nat)
      requires Shaped() && out != dec && o0 + |Emitted(dec[0], dec[1], dec[2])| <= out.Length
      modifies this`len, out
      ensures o == o0 + |Emitted(dec[0], dec[1], dec[2])|
      ensures out[..o] == old(out[..o0]) + Emitted(dec[0], dec[1], dec[2])
    {
      hide Emitted;
      o := o0;
      len := 0;
      ghost var was, d := out[..o0], dec[..];
      ghost var all := Emitted(d[0], d[1], d[2]);
      EmittedPrefix(d);
      while len < 3 && dec[len] != 0
        invariant len <= |all| <= 3 && dec[..] == d && o == o0 + len && o0 + |all| <= out.Length
        invariant out[..o] == was + all[..len]
      {
        ghost var head := out[..o];
        assert d[len] == dec[len] != 0;
        assert len < |all| && all[..len + 1] == all[..len] + [d[len]];
        out[o] := dec[len];
        assert out[..o] == head;
        len := len + 1;
        o := o + 1;
      }
      assert all[..len] == all;
    }
  }

  lemma EmittedPrefix(d: seq<byte>)
    requires |d| == 3
    ensures var e := Emitted(d[0], d[1], d[2]);
      && e == d[..|e|] && (forall k :: 0 <= k < |e| ==> d[k] != 0) && (|e| == 3 || d[|e|] == 0)
  {
  }

  lemma GatherStops(s: seq<byte>, e: seq<byte>, k: nat)
    requires |e| == 4 && k <= 4 && (k == 4 || s == [])
    ensures Gathered(s, e, k) == (e, s)
  {
  }

  method Put(out: array<byte>, o0: nat, s: seq<byte>) returns (o: nat)
    requires o0 + |s| <= out.Length
    modifies out
    ensures o == o0 + |s| && out[..o] == old(out[..o0]) + s
  {
    forall i | 0 <= i < |s| {
      out[o0 + i] := s[i];
    }
    o := o0 + |s|;
  }

  lemma EncodedNext(t: seq<byte>, b: byte, c: byte, len: int, linesz: int)
    requires t != []
    ensures var n := if |t| < 3 then |t| else 3;
      var b' := if n > 1 then t[1] else b;
      var c' := if n > 2 then t[2] else c;
      Encoded(t, b, c, len, linesz) == Break(len, linesz) + Group(t[0], b', c', n)
        + Encoded(t[n..], b', c', (if len >= linesz then 0 else len) + 4, linesz)
  {
    hide Break, Group;
  }

  /** `base64_pencode`. */
  method Encode(input: array<byte>, ghost t: seq<byte>, out: array<byte>, linesz: int, chunk: Chunk) returns (o: nat)
    requires Holds(input, t) && chunk.Shaped() && input != out && input != chunk.dec && input != chunk.enc
    requires out != chunk.dec && out != chunk.enc
    requires |Encoded(t, chunk.dec[1], chunk.dec[2], 0, linesz)| < out.Length
    modifies out, chunk, chunk.enc, chunk.dec
    ensures o < out.Length && out[o] == 0
    ensures out[..o] == Encoded(t, old(chunk.dec[1]), old(chunk.dec[2]), 0, linesz)
  {
    hide Encoded, Group, Break;
    var i, len := 0, 0;
    o := 0;
    ghost var goal := Encoded(t, chunk.dec[1], chunk.dec[2], 0, linesz);
    assert t[0..] == t;
    while input[i] != 0
      invariant i <= |t| && o <= |goal| < out.Length && Holds(input, t)
      invariant out[..o] + Encoded(t[i..], chunk.dec[1], chunk.dec[2], len, linesz) == goal
      decreases |t| - i
    {
      i, o, len := EncodeOne(input, t, out, linesz, chunk, i, o, len, goal);
    }
    EncodedNothing(chunk.dec[1], chunk.dec[2], len, linesz);
    assert t[i..] == [] && out[..o] + [] == out[..o];
    out[o] := 0;
    assert out[..o] == goal;
  }

  lemma EncodedNothing(b: byte, c: byte, len: int, linesz: int)
    ensures Encoded([], b, c, len, linesz) == []
  {
  }

  /** One turn of the encoding loop. */
  method EncodeOne(input: array<byte>, ghost t: seq<byte>, out: array<byte>, linesz: int, chunk: Chunk, i0: nat, o0: nat, len0: int,
                   ghost goal: seq<byte>) returns (i: nat, o: nat, len: int)
    requires Holds(input, t) && chunk.Shaped() && input != out && input != chunk.dec && input != chunk.enc
    requires out != chunk.dec && out != chunk.enc
    requires i0 < |t| && o0 <= |goal| < out.Length
    requires out[..o0] + Encoded(t[i0..], chunk.dec[1], chunk.dec[2], len0, linesz) == goal
    modifies out, chunk, chunk.enc, chunk.dec
    ensures i0 < i <= |t| && o <= |goal| && Holds(input, t)
    ensures out[..o] + Encoded(t[i..], chunk.dec[1], chunk.dec[2], len, linesz) == goal
  {
    hide Encoded, Group, Break, NulFree;
    ghost var head := out[..o0];
    EncodedNext(t[i0..], chunk.dec[1], chunk.dec[2], len0, linesz);
    i := chunk.Load(input, i0, t);
    assert t[i0..][chunk.len..] == t[i..];
    ghost var rest := Encoded(t[i..], chunk.dec[1], chunk.dec[2], (if len0 >= linesz then 0 else len0) + 4, linesz);
    chunk.Encode();
    ghost var code := Break(len0, linesz) + chunk.enc[..];
    assert head + (code + rest) == (head + code) + rest;
    o, len := PutGroup(out, o0, chunk.enc[..], len0, linesz);
  }

  /** A line break where one is due, then the group. */
  method PutGroup(out: array<byte>, o0: nat, group: seq<byte>, len0: int, linesz: int) returns (o: nat, len: int)
    requires |group| == 4 && o0 + |Break(len0, linesz) + group| <= out.Length
    modifies out
    ensures o == o0 + |Break(len0, linesz) + group| && out[..o] == old(out[..o0]) + (Break(len0, linesz) + group)
    ensures len == (if len0 >= linesz then 0 else len0) + 4
  {
    o, len := o0, len0;
    if len >= linesz {
      o := Put(out, o, [13, 10]);
      len := 0;
    }
    o := Put(out, o, group);
    len := len + 4;
  }

  lemma DecodedNext(s: seq<byte>, e: seq<byte>, f: seq<byte>, rest: seq<byte>)
    requires |e| == 4 && |f| == 4 && s != [] && Gathered(s, e, 0) == (f, rest)
    ensures Decoded(s, e) == Emitted(D0(f[0], f[1]), D1(f[1], f[2]), D2(f[2], f[3])) + Decoded(rest, f)
  {
    hide Gathered, Emitted, D0, D1, D2;
  }

  lemma DecodedNothing(e: seq<byte>)
    requires |e| == 4
    ensures Decoded([], e) == []
  {
  }

  /** `base64_pdecode`. */
  method Decode(input: array<byte>, ghost s: seq<byte>, out: array<byte>, chunk: Chunk) returns (o: nat)
    requires Holds(input, s) && chunk.Shaped() && input != out && input != chunk.dec && input != chunk.enc
    requires out != chunk.dec && out != chunk.enc
    requires |Decoded(s, chunk.enc[..])| < out.Length
    modifies out, chunk, chunk.enc, chunk.dec
    ensures o < out.Length && out[o] == 0
    ensures out[..o] == Decoded(s, old(chunk.enc[..]))
  {
    hide Decoded, Emitted, Gathered, D0, D1, D2;
    var i := 0;
    o := 0;
    ghost var goal := Decoded(s, chunk.enc[..]);
    assert s[0..] == s;
    while input[i] != 0
      invariant i <= |s| && o <= |goal| < out.Length && Holds(input, s)
      invariant out[..o] + Decoded(s[i..], chunk.enc[..]) == goal
      decreases |s| - i
    {
      ghost var i0, e, head := i, chunk.enc[..], out[..o];
      i := chunk.Fill(input, i, s);
      ghost var f := chunk.enc[..];
      DecodedNext(s[i0..], e, f, s[i..]);
      chunk.Decode();
      ghost var bytes := Emitted(chunk.dec[0], chunk.dec[1], chunk.dec[2]);
      assert head + (bytes + Decoded(s[i..], f)) == (head + bytes) + Decoded(s[i..], f);
      o := chunk.Emit(out, o);
    }
    DecodedNothing(chunk.enc[..]);
    assert s[i..] == [] && out[..o] + [] == out[..o];
    out[o] := 0;
    assert out[..o] == goal;
  }

  /** The code of a text is itself a text without zeros. */
  lemma {:induction false} CodeIsText(t: seq<byte>, b: byte, c: byte, len: int, linesz: int)
    ensures NulFree(Encoded(t, b, c, len, linesz))
    decreases |t|
  {
    hide Break, Group;
    if t != [] {
      var n := if |t| < 3 then |t| else 3;
      var b' := if n > 1 then t[1] else b;
      var c' := if n > 2 then t[2] else c;
      CodeIsText(t[n..], b', c', (if len >= linesz then 0 else len) + 4, linesz);
      GroupIsText(t[0], b', c', n, len, linesz);
    }
  }

  lemma GroupIsText(a: byte, b: byte, c: byte, n: nat, len: int, linesz: int)
    ensures NulFree(Break(len, linesz)) && NulFree(Group(a, b, c, n))
  {
    hide E0, E1, E2, E3, Chr;
    SixBits(a, b);
    SixBits(b, c);
    SixBits(c, c);
    ChrNotZero(E0(a));
    ChrNotZero(E1(a, b));
    ChrNotZero(E2(b, c));
    ChrNotZero(E3(c));
  }

  lemma ChrNotZero(i: byte)
    requires i < 64
    ensures Chr(i) != 0
  {
  }

  /** Encoding a text into a buffer and decoding that buffer: the text, exactly when nothing stale comes out. */
  method ThereAndBack(input: array<byte>, ghost t: seq<byte>, code: array<byte>, out: array<byte>, linesz: int, first: Chunk, second: Chunk)
    returns (n: nat)
    requires Holds(input, t) && first.Shaped() && second.Shaped() && input != code && code != out && input != out
    requires {first.enc, first.dec} !! {second.enc, second.dec, input, code, out} && {second.enc, second.dec} !! {input, code, out}
    requires |Encoded(t, first.dec[1], first.dec[2], 0, linesz)| < code.Length && |t| + 1 < out.Length
    modifies code, out, first, first.enc, first.dec, second, second.enc, second.dec
    ensures n < out.Length && out[n] == 0
    ensures out[..n] == t <==> Clean(t, old(first.dec[1]), old(first.dec[2]))
  {
    hide Encoded, Decoded, NulFree, Clean, Stale;
    ghost var b, c, e := first.dec[1], first.dec[2], second.enc[..];
    ghost var s := Encoded(t, b, c, 0, linesz);
    CodeIsText(t, b, c, 0, linesz);
    RoundTripIff(t, b, c, linesz, e);
    DecodesTo(t, b, c, 0, linesz, e);
    StaleIsShort(t, b, c);
    var m := Encode(input, t, code, linesz, first);
    n := Decode(code, s, out, second);
  }

  lemma {:induction false} StaleIsShort(t: seq<byte>, b: byte, c: byte)
    ensures |Stale(t, b, c)| <= 1
  {
    if |t| >= 3 {
      StaleIsShort(t[3..], t[1], t[2]);
    }
  }
}
