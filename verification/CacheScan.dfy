/** What a reported word is checked against before it reaches its entry: its own bytes, the profiles, and the words of the
    older entries of its channel. */
module CacheScan {
  import opened Bits
  import opened CacheWords
  import opened CacheEntry
  import opened CacheRing
  import Crc32

  // ---- The bytes of a word

  function Sum2(a: byte, b: byte): byte {
    a + b
  }

  function Sum3(a: byte, b: byte, c: byte): byte {
    Sum2(Sum2(a, b), c)
  }

  predicate Checksummed(cw: Cw) {
    && cw[3] == Sum3(cw[0], cw[1], cw[2]) && cw[7] == Sum3(cw[4], cw[5], cw[6])
    && cw[11] == Sum3(cw[8], cw[9], cw[10]) && cw[15] == Sum3(cw[12], cw[13], cw[14])
  }

  function Faked(sum: byte): byte {
    sum ^ 0xf0
  }

  predicate IsFake(cw: Cw) {
    cw[15] == Faked(Sum3(cw[12], cw[13], cw[14]))
  }

  predicate IsBad(cw: Cw) {
    || (cw[0] != 0 && cw[0] == cw[1] == cw[2]) || (cw[4] != 0 && cw[4] == cw[5] == cw[6])
    || (cw[8] != 0 && cw[8] == cw[9] == cw[10]) || (cw[12] != 0 && cw[12] == cw[13] == cw[14])
  }

  function CrcByte(crc: bv64, n: nat): byte
    requires n <= 24
  {
    ((crc >> n) & 0xff) as bv8
  }

  predicate IsNanoE0(cw: Cw) {
    var crc := Crc32.Checksum(0, cw[..14]);
    cw[14] == CrcByte(crc, 24) && cw[15] == CrcByte(crc, 16)
  }

  /** `acceptDCWnonblockCRC` for system 0500 and `acceptDCW` for the others. */
  predicate Acceptable(caid: bv16, cw: Cw) {
    if caid == 0x0500 then !IsNull(cw) && !IsBad(cw) && !IsFake(cw) && (IsNanoE0(cw) || Checksummed(cw))
    else !IsFake(cw) && Checksummed(cw) && !IsNull(cw) && !IsBad(cw)
  }

  lemma FakedDiffers(sum: byte)
    ensures Faked(sum) != sum
  {
  }

  /** Outside system 0500 the filter against altered last bytes rejects nothing that the checksums let through. */
  lemma ChecksumsSuffice(caid: bv16, cw: Cw)
    requires caid != 0x0500
    ensures Acceptable(caid, cw) <==> Checksummed(cw) && !IsNull(cw) && !IsBad(cw)
  {
    hide Faked, Sum3;
    FakedDiffers(Sum3(cw[12], cw[13], cw[14]));
  }

  /** Every byte of a word is covered: when just one byte differs, one of the two words fails its checksums. */
  lemma OneByteBreaks(a: Cw, b: Cw, k: nat)
    requires |a| == 16 && |b| == 16 && k < 16 && a[k] != b[k] && forall i :: 0 <= i < 16 && i != k ==> a[i] == b[i]
    ensures !Checksummed(a) || !Checksummed(b)
  {
    hide Sum3;
    SumMoves(a[k], b[k], a[4 * (k / 4)], a[4 * (k / 4) + 1], a[4 * (k / 4) + 2]);
  }

  lemma SumMoves(x: byte, y: byte, a: byte, b: byte, c: byte)
    requires x != y
    ensures Sum3(x, b, c) != Sum3(y, b, c) && Sum3(a, x, c) != Sum3(a, y, c) && Sum3(a, b, x) != Sum3(a, b, y)
  {
    hide Sum2;
    Sum2Moves(x, y, b);
    Sum2Moves(Sum2(x, b), Sum2(y, b), c);
    Sum2Moves(x, y, a);
    Sum2Moves(Sum2(a, x), Sum2(a, y), c);
    Sum2Moves(x, y, Sum2(a, b));
  }

  lemma Sum2Moves(x: byte, y: byte, z: byte)
    requires x != y
    ensures Sum2(x, z) != Sum2(y, z) && Sum2(z, x) != Sum2(z, y)
  {
    assert (x + z) - z == x && (y + z) - z == y;
    assert (z + x) - z == x && (z + y) - z == y;
  }

  // ---- Profiles

  datatype SkipProfile = SkipProfile(fallowskipcwc: bool, caid: bv16, active: bool, sids: seq<bv16>)

  predicate Skips(p: SkipProfile, caid: bv16, sid: bv16) {
    p.fallowskipcwc && p.caid == caid && !(p.active && sid in p.sids)
  }

  predicate SomeSkips(profiles: seq<SkipProfile>, caid: bv16, sid: bv16) {
    exists i :: 0 <= i < |profiles| && Skips(profiles[i], caid, sid)
  }

  method FindSkip(profiles: seq<SkipProfile>, caid: bv16, sid: bv16) returns (skip: bool)
    ensures skip == SomeSkips(profiles, caid, sid)
  {
    var i := 0;
    while i < |profiles|
      invariant i <= |profiles| && forall j :: 0 <= j < i ==> !Skips(profiles[j], caid, sid)
    {
      var p := profiles[i];
      if p.fallowskipcwc && p.caid == caid {
        var found := false;
        if p.active {
          var x := 0;
          while x < |p.sids| && p.sids[x] != sid
            invariant x <= |p.sids| && forall j :: 0 <= j < x ==> p.sids[j] != sid
          {
            x := x + 1;
          }
          found := x < |p.sids|;
        }
        if !found {
          return true;
        }
      }
      i := i + 1;
    }
    return false;
  }

  // ---- Older entries of the channel

  /** `uint32_t` arithmetic: before the first `alivetime` has passed the limit lies far ahead. */
  function Limit(now: nat, alivetime: nat): int {
    (now - alivetime) % 0x1_0000_0000
  }

  datatype Window = Window(limit: int, filtertime: nat)

  ghost predicate Older(p: Entry, e: Entry, t: Window)
    reads p`recvtime, e`recvtime
  {
    p.recvtime + t.filtertime < e.recvtime && p.recvtime >= t.limit
  }

  /** An entry that `cache_fetch_cycle` looks at. */
  ghost predicate Kin(p: Entry, e: Entry, t: Window)
    reads p`recvtime, p`sid, p`hash, p`provid, p`tag, e`recvtime, e`sid, e`hash, e`provid, e`tag
  {
    && Older(p, e, t) && p.sid == e.sid && p.hash != e.hash
    && (p.provid == 0 || e.provid == 0 || p.provid == e.provid)
    && p.tag != 0 && p.tag != e.tag
  }

  /** Which half of a good word of an older entry changed when `cw` followed it: none, or exactly one, and the word's own
      cycle did not name it yet. */
  function Turned(w: Word, cw: Cw): Cycle {
    if !w.error && w.cw[..8] == cw[..8] && w.cw[8..] != cw[8..] && w.cycle != Cw1Cycle then Cw1Cycle
    else if !w.error && w.cw[..8] != cw[..8] && w.cw[8..] == cw[8..] && w.cycle != Cw0Cycle then Cw0Cycle
    else NoCycle
  }

  /** A word that settles the matter: the same one, or one in cycle from which one half changed. */
  predicate Settles(w: Word, cw: Cw) {
    w.cw == cw || (w.cycled && Turned(w, cw) != NoCycle)
  }

  /** What is known after some words of the older entries. */
  datatype Findings = Findings(past: Past, found: bool, cycle: Cycle)

  function Heed(f: Findings, w: Word, cw: Cw): Findings {
    if f.past != Nothing then f
    else if w.cw == cw then f.(past := Bad)
    else if Turned(w, cw) == NoCycle then f
    else Findings(if w.cycled then InCycle else Nothing, true, Turned(w, cw))
  }

  function Heeded(f: Findings, words: seq<Word>, cw: Cw): Findings
    decreases |words|
  {
    if words == [] then f else Heeded(Heed(f, words[0], cw), words[1..], cw)
  }

  lemma {:induction false} HeededBoth(f: Findings, a: seq<Word>, b: seq<Word>, cw: Cw)
    ensures Heeded(f, a + b, cw) == Heeded(Heeded(f, a, cw), b, cw)
    decreases |a|
  {
    hide Heed;
    if a == [] {
      assert a + b == b;
    } else {
      assert (a + b)[1..] == a[1..] + b;
      HeededBoth(Heed(f, a[0], cw), a[1..], b, cw);
    }
  }

  lemma {:induction false} HeededSettled(f: Findings, words: seq<Word>, cw: Cw)
    requires f.past != Nothing
    ensures Heeded(f, words, cw) == f
  {
    if words != [] {
      HeededSettled(f, words[1..], cw);
    }
  }

  /** What the words of the older entries say of a word that came with `cycle0`. */
  function PastOf(words: seq<Word>, cw: Cw, cycle0: Cycle): (Past, Cycle) {
    var f := Heeded(Findings(Nothing, false, cycle0), words, cw);
    (if f.past == Nothing && f.found then InCycle else f.past, f.cycle)
  }

  /** The word at `k` is the last one that turned, and nothing in front of it settled the matter. */
  predicate LastTurned(words: seq<Word>, cw: Cw, k: int) {
    && 0 <= k < |words| && Turned(words[k], cw) != NoCycle
    && (forall j :: 0 <= j < k ==> !Settles(words[j], cw))
    && (Settles(words[k], cw) || forall j :: k < j < |words| ==> words[j].cw != cw && Turned(words[j], cw) == NoCycle)
  }

  /** The first of the words that settles the matter. */
  predicate FirstSettles(words: seq<Word>, cw: Cw, k: int) {
    0 <= k < |words| && Settles(words[k], cw) && forall j :: 0 <= j < k ==> !Settles(words[j], cw)
  }

  lemma HeededNone(f: Findings, cw: Cw)
    ensures Heeded(f, [], cw) == f
  {
  }

  predicate Untouched(words: seq<Word>, cw: Cw) {
    forall k :: 0 <= k < |words| ==> words[k].cw != cw && Turned(words[k], cw) == NoCycle
  }

  lemma {:induction false} HeededUntouched(f: Findings, words: seq<Word>, cw: Cw)
    requires Untouched(words, cw)
    ensures Heeded(f, words, cw) == f
  {
    hide Turned;
    if words != [] {
      HeededUntouched(f, words[1..], cw);
    }
  }

  lemma {:induction false} HeededUnsettled(f: Findings, words: seq<Word>, cw: Cw)
    requires f.past == Nothing && forall j :: 0 <= j < |words| ==> !Settles(words[j], cw)
    ensures Heeded(f, words, cw).past == Nothing
    decreases |words|
  {
    hide Turned;
    if words != [] {
      HeededUnsettled(Heed(f, words[0], cw), words[1..], cw);
    }
  }

  /** The findings when the walk reaches the word at `k`, and what it makes of the rest. */
  lemma HeededAt(f: Findings, words: seq<Word>, cw: Cw, k: nat)
    requires f.past == Nothing && k < |words| && forall j :: 0 <= j < k ==> !Settles(words[j], cw)
    ensures var g := Heeded(f, words[..k], cw);
      g.past == Nothing && Heeded(f, words, cw) == Heeded(Heed(g, words[k], cw), words[k + 1..], cw)
  {
    hide Settles, Heed;
    HeededUnsettled(f, words[..k], cw);
    assert words == words[..k] + words[k..] && words[k..][1..] == words[k + 1..];
    HeededBoth(f, words[..k], words[k..], cw);
  }

  lemma AtSame(f: Findings, words: seq<Word>, cw: Cw, k: nat)
    requires f.past == Nothing && FirstSettles(words, cw, k) && words[k].cw == cw
    ensures Heeded(f, words, cw).past == Bad
  {
    hide Heeded, Turned, Settles;
    HeededAt(f, words, cw, k);
    HeededSettled(Heed(Heeded(f, words[..k], cw), words[k], cw), words[k + 1..], cw);
  }

  lemma AtTurn(f: Findings, words: seq<Word>, cw: Cw, k: nat)
    requires f.past == Nothing && LastTurned(words, cw, k)
    ensures Heeded(f, words, cw) == Findings(if words[k].cycled then InCycle else Nothing, true, Turned(words[k], cw))
  {
    hide Heeded;
    HeededAt(f, words, cw, k);
    var g := Heed(Heeded(f, words[..k], cw), words[k], cw);
    assert g == Findings(if words[k].cycled then InCycle else Nothing, true, Turned(words[k], cw));
    if words[k].cycled {
      HeededSettled(g, words[k + 1..], cw);
    } else {
      HeededUntouched(g, words[k + 1..], cw);
    }
  }

  lemma {:induction false} ThreeCases(words: seq<Word>, cw: Cw)
    ensures Untouched(words, cw) || (exists k :: FirstSettles(words, cw, k) && words[k].cw == cw) || exists k :: LastTurned(words, cw, k)
  {
    hide Turned;
    if words != [] {
      var t := words[1..];
      if words[0].cw == cw {
        assert FirstSettles(words, cw, 0);
      } else if Settles(words[0], cw) {
        assert LastTurned(words, cw, 0);
      } else {
        ThreeCases(t, cw);
        if Untouched(t, cw) {
          assert Untouched(words, cw) || LastTurned(words, cw, 0);
        } else if k :| FirstSettles(t, cw, k) && t[k].cw == cw {
          assert FirstSettles(words, cw, k + 1);
        } else {
          var k :| LastTurned(t, cw, k);
          assert words[k + 1] == t[k];
          assert Settles(t[k], cw) || forall j :: k + 1 < j < |words| ==> words[j] == t[j - 1];
          assert LastTurned(words, cw, k + 1);
        }
      }
    }
  }

  /** Nothing is known exactly when no word is the same or turned, and then the cycle stays; a word is bad exactly when
      the first word that settles the matter is the same; it is in cycle exactly when some word is the last that turned,
      and that word tells the cycle. */
  lemma PastMeans(words: seq<Word>, cw: Cw, cycle0: Cycle)
    ensures PastOf(words, cw, cycle0).0 == Nothing <==> Untouched(words, cw)
    ensures Untouched(words, cw) ==> PastOf(words, cw, cycle0).1 == cycle0
    ensures PastOf(words, cw, cycle0).0 == Bad <==> exists k :: FirstSettles(words, cw, k) && words[k].cw == cw
    ensures PastOf(words, cw, cycle0).0 == InCycle <==> exists k :: LastTurned(words, cw, k)
    ensures forall k :: LastTurned(words, cw, k) ==> PastOf(words, cw, cycle0).1 == Turned(words[k], cw)
  {
    hide Turned, Settles, Heeded, Untouched;
    var f := Findings(Nothing, false, cycle0);
    ThreeCases(words, cw);
    if Untouched(words, cw) {
      HeededUntouched(f, words, cw);
    }
    forall k | FirstSettles(words, cw, k) && words[k].cw == cw
      ensures PastOf(words, cw, cycle0).0 == Bad
    {
      AtSame(f, words, cw, k);
    }
    forall k | LastTurned(words, cw, k)
      ensures PastOf(words, cw, cycle0) == (InCycle, Turned(words[k], cw))
    {
      AtTurn(f, words, cw, k);
    }
  }

  /** The words of one older entry. `Bad` and `InCycle` end the scan at once. */
  method ScanWords(words: seq<Word>, cw: Cw, f: Findings) returns (past: Past, found: bool, cycle: Cycle)
    requires f.past == Nothing
    ensures Findings(past, found, cycle) == Heeded(f, words, cw)
  {
    hide Heeded;
    past, found, cycle := Nothing, f.found, f.cycle;
    var k := 0;
    while k < |words|
      invariant k <= |words| && past == Nothing
      invariant Heeded(Findings(Nothing, found, cycle), words[k..], cw) == Heeded(f, words, cw)
    {
      var w := words[k];
      HeededFrom(Findings(Nothing, found, cycle), words, cw, k);
      if w.cw == cw {
        past := Bad;
        return;
      }
      HalvesDiffer(w.cw, cw);
      if !w.error {
        if w.cw[..8] == cw[..8] && w.cw[8..] != cw[8..] {
          if w.cycle != Cw1Cycle {
            cycle := Cw1Cycle;
            found := true;
            if w.cycled {
              past := InCycle;
              return;
            }
          }
        } else if w.cw[..8] != cw[..8] && w.cw[8..] == cw[8..] {
          if w.cycle != Cw0Cycle {
            cycle := Cw0Cycle;
            found := true;
            if w.cycled {
              past := InCycle;
              return;
            }
          }
        }
      }
      k := k + 1;
    }
    HeededNone(Findings(past, found, cycle), cw);
    assert words[k..] == [];
  }

  lemma HeededFrom(f: Findings, words: seq<Word>, cw: Cw, k: nat)
    requires f.past == Nothing && k < |words|
    ensures var g := Heed(f, words[k], cw);
      Heeded(f, words[k..], cw) == Heeded(g, words[k + 1..], cw) && (g.past != Nothing ==> Heeded(f, words[k..], cw) == g)
  {
    hide Heed;
    assert words[k..][1..] == words[k + 1..];
    var g := Heed(f, words[k], cw);
    if g.past != Nothing {
      HeededSettled(g, words[k + 1..], cw);
    }
  }

  lemma HalvesDiffer(a: Cw, b: Cw)
    ensures a[..8] == b[..8] && a[8..] == b[8..] ==> a == b
  {
    assert a == a[..8] + a[8..] && b == b[..8] + b[8..];
  }

  ghost predicate NewestFirst(s: seq<Entry>)
    reads s`recvtime
  {
    forall i, j :: 0 <= i < j < |s| ==> s[i].recvtime >= s[j].recvtime
  }

  /** The words that the scan meets: those of the older entries of the channel, the newest entry first. */
  ghost function KinWords(s: seq<Entry>, words: seq<seq<Word>>, e: Entry, t: Window): seq<Word>
    requires |words| == |s|
    reads s`recvtime, s`sid, s`hash, s`provid, s`tag, e`recvtime, e`sid, e`hash, e`provid, e`tag
  {
    if s == [] then [] else (if Kin(s[0], e, t) then words[0] else []) + KinWords(s[1..], words[1..], e, t)
  }

  lemma {:induction false} KinWordsAre(s: seq<Entry>, words: seq<seq<Word>>, e: Entry, t: Window, w: Word)
    requires |words| == |s|
    ensures w in KinWords(s, words, e, t) <==> exists i :: 0 <= i < |s| && Kin(s[i], e, t) && w in words[i]
  {
    hide Kin;
    if s != [] {
      var u, v := s[1..], words[1..];
      KinWordsAre(u, v, e, t, w);
      forall i | 0 <= i < |u|
        ensures Kin(u[i], e, t) == Kin(s[i + 1], e, t) && v[i] == words[i + 1]
      {}
      if i :| 0 <= i < |s| && Kin(s[i], e, t) && w in words[i] {
        assert i > 0 ==> u[i - 1] == s[i];
      }
    }
  }

  lemma {:induction false} NoKin(s: seq<Entry>, words: seq<seq<Word>>, e: Entry, t: Window)
    requires |words| == |s| && forall i :: 0 <= i < |s| ==> !Kin(s[i], e, t)
    ensures KinWords(s, words, e, t) == []
  {
    hide Kin;
    if s != [] {
      NoKin(s[1..], words[1..], e, t);
    }
  }

  /** The words of all entries. */
  ghost function WordsOf(s: seq<Entry>): (w: seq<seq<Word>>)
    reads s`cwdata
    ensures |w| == |s| && forall i :: 0 <= i < |s| ==> w[i] == s[i].cwdata
  {
    if s == [] then [] else [s[0].cwdata] + WordsOf(s[1..])
  }

  /** The words that are still to be met when the walk stands at `i`. */
  ghost function Ahead(s: seq<Entry>, words: seq<seq<Word>>, e: Entry, t: Window, i: nat): seq<Word>
    requires |words| == |s| && i <= |s|
    reads s`recvtime, s`sid, s`hash, s`provid, s`tag, e`recvtime, e`sid, e`hash, e`provid, e`tag
  {
    KinWords(s[i..], words[i..], e, t)
  }

  lemma AheadIs(s: seq<Entry>, words: seq<seq<Word>>, e: Entry, t: Window)
    requires |words| == |s|
    ensures Ahead(s, words, e, t, 0) == KinWords(s, words, e, t) && Ahead(s, words, e, t, |s|) == []
  {
    assert s[0..] == s && words[0..] == words;
  }

  /** What one entry adds. */
  lemma AheadStep(s: seq<Entry>, words: seq<seq<Word>>, e: Entry, t: Window, i: nat, f: Findings, cw: Cw)
    requires |words| == |s| && i < |s|
    ensures Heeded(f, Ahead(s, words, e, t, i), cw)
         == Heeded(if Kin(s[i], e, t) then Heeded(f, words[i], cw) else f, Ahead(s, words, e, t, i + 1), cw)
  {
    hide Kin, Heeded;
    assert s[i..][1..] == s[i + 1..] && words[i..][1..] == words[i + 1..];
    var rest := Ahead(s, words, e, t, i + 1);
    HeededBoth(f, words[i], rest, cw);
    assert [] + rest == rest;
  }

  lemma AheadEnds(s: seq<Entry>, words: seq<seq<Word>>, e: Entry, t: Window, i: nat)
    requires |words| == |s| && NewestFirst(s) && i < |s| && s[i].recvtime < t.limit
    ensures Ahead(s, words, e, t, i) == []
  {
    hide Kin;
    TooOld(s, e, t, i);
    NoKin(s[i..], words[i..], e, t);
  }

  /** `cache_fetch_cycle`: the walk ends at the first entry that is too old, behind which all are. */
  method FetchCycle(head: Entry?, e: Entry, t: Window, cw: Cw, cycle0: Cycle, ghost s: seq<Entry>) returns (past: Past, cycle: Cycle)
    requires Linked(head, s) && NewestFirst(s)
    ensures (past, cycle) == PastOf(KinWords(s, WordsOf(s), e, t), cw, cycle0)
  {
    hide Heeded, WordsOf, Kin, KinWords, Linked, NewestFirst, Ahead;
    ghost var words := WordsOf(s);
    ghost var all := Heeded(Findings(Nothing, false, cycle0), KinWords(s, words, e, t), cw);
    var result := false;
    past, cycle := Nothing, cycle0;
    Head(head, s);
    AheadIs(s, words, e, t);
    var p := head;
    ghost var i := 0;
    while p != null
      invariant i <= |s| && (if p == null then i == |s| else i < |s| && p == s[i])
      invariant Heeded(Findings(Nothing, result, cycle), Ahead(s, words, e, t, i), cw) == all
      decreases |s| - i
    {
      KinIs(p, e, t);
      AheadStep(s, words, e, t, i, Findings(Nothing, result, cycle), cw);
      if p.recvtime + t.filtertime < e.recvtime {
        if p.recvtime < t.limit {
          AheadEnds(s, words, e, t, i);
          break;
        }
        if p.sid == e.sid && p.hash != e.hash && (p.provid == 0 || e.provid == 0 || p.provid == e.provid)
           && p.tag != 0 && p.tag != e.tag {
          past, result, cycle := ScanWords(p.cwdata, cw, Findings(Nothing, result, cycle));
          if past != Nothing {
            HeededSettled(Findings(past, result, cycle), Ahead(s, words, e, t, i + 1), cw);
            return;
          }
        }
      }
      Onward(head, s, i);
      p := p.next;
      i := i + 1;
      if p == head {
        break;
      }
    }
    HeededNone(Findings(Nothing, result, cycle), cw);
    past := if result then InCycle else Nothing;
  }

  lemma KinIs(p: Entry, e: Entry, t: Window)
    ensures Kin(p, e, t) ==
      (p.recvtime + t.filtertime < e.recvtime && p.recvtime >= t.limit && p.sid == e.sid && p.hash != e.hash
       && (p.provid == 0 || e.provid == 0 || p.provid == e.provid) && p.tag != 0 && p.tag != e.tag)
  {
  }

  /** Behind an entry that is too old all are. */
  lemma TooOld(s: seq<Entry>, e: Entry, t: Window, i: nat)
    requires NewestFirst(s) && i < |s| && s[i].recvtime < t.limit
    ensures forall j :: i <= j < |s| ==> !Kin(s[j], e, t)
  {
  }

  /** An entry that `cache_check_samecw` looks at. */
  ghost predicate Peer(p: Entry, e: Entry, t: Window, strictprov: bool)
    reads p`recvtime, p`sid, p`hash, p`provid, e`recvtime, e`sid, e`hash, e`provid
  {
    && Older(p, e, t) && p.sid == e.sid && p.hash != e.hash
    && (!strictprov || p.provid == 0 || e.provid == 0 || p.provid == e.provid)
  }

  predicate HoldsHalf(words: seq<Word>, half: seq<byte>) {
    exists k :: 0 <= k < |words| && (words[k].cw[..8] == half || words[k].cw[8..] == half)
  }

  ghost predicate Unseen(s: seq<Entry>, words: seq<seq<Word>>, e: Entry, t: Window, strictprov: bool, half: seq<byte>)
    requires |words| == |s|
    reads s`recvtime, s`sid, s`hash, s`provid, e`recvtime, e`sid, e`hash, e`provid
  {
    forall i :: 0 <= i < |s| && Peer(s[i], e, t, strictprov) ==> !HoldsHalf(words[i], half)
  }

  method ScanHalf(words: seq<Word>, half: seq<byte>) returns (held: bool)
    ensures held == HoldsHalf(words, half)
  {
    var k := 0;
    while k < |words|
      invariant k <= |words| && forall j :: 0 <= j < k ==> words[j].cw[..8] != half && words[j].cw[8..] != half
    {
      if words[k].cw[..8] == half || words[k].cw[8..] == half {
        return true;
      }
      k := k + 1;
    }
    return false;
  }

  /** `cache_check_samecw` for the half of a word that is not null. */
  method CheckSame(head: Entry?, e: Entry, t: Window, strictprov: bool, half: seq<byte>, ghost s: seq<Entry>) returns (unseen: bool)
    requires Linked(head, s) && NewestFirst(s)
    ensures unseen == Unseen(s, WordsOf(s), e, t, strictprov, half)
  {
    hide HoldsHalf, WordsOf, Linked;
    Head(head, s);
    var p := head;
    ghost var i := 0;
    while p != null
      invariant i <= |s| && (if p == null then i == |s| else i < |s| && p == s[i])
      invariant forall j :: 0 <= j < i && Peer(s[j], e, t, strictprov) ==> !HoldsHalf(s[j].cwdata, half)
      decreases |s| - i
    {
      if p.recvtime + t.filtertime < e.recvtime {
        if p.recvtime < t.limit {
          assert forall j :: i <= j < |s| ==> !Peer(s[j], e, t, strictprov);
          break;
        }
        if p.sid == e.sid && p.hash != e.hash && (!strictprov || p.provid == 0 || e.provid == 0 || p.provid == e.provid) {
          assert Peer(p, e, t, strictprov);
          var held := ScanHalf(p.cwdata, half);
          if held {
            return false;
          }
        }
      }
      Onward(head, s, i);
      p := p.next;
      i := i + 1;
      if p == head {
        break;
      }
    }
    return true;
  }
}
