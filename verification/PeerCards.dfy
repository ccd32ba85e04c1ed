/** The cards a peer announces, those it has in common with the profiles, and the search among them. */
module PeerCards {
  import opened Rings

  /** `uint32_t`. */
  type word = n: nat | n < 0x1_0000_0000

  // ---- Sorting

  predicate Sorted(s: seq<word>) {
    forall i, j :: 0 <= i < j < |s| ==> s[i] <= s[j]
  }

  predicate Strict(s: seq<word>) {
    forall i, j :: 0 <= i < j < |s| ==> s[i] < s[j]
  }

  /** The first `i` of the `n` values are sorted, and no later one is smaller. */
  predicate Settled(s: seq<word>, i: nat, n: nat) {
    i <= n <= |s| && forall j, k :: 0 <= j < i && j < k < n ==> s[j] <= s[k]
  }

  predicate SameBeyond(s: seq<word>, t: seq<word>, n: nat) {
    n <= |s| == |t| && s[n..] == t[n..] && multiset(s) == multiset(t)
  }

  function Swapped(s: seq<word>, i: nat, j: nat): (r: seq<word>)
    requires i < j < |s|
    ensures multiset(r) == multiset(s) && |r| == |s|
  {
    s[i := s[j]][j := s[i]]
  }

  lemma SwapSettles(s: seq<word>, i: nat, j: nat, n: nat)
    requires Settled(s, i, n) && i < j < n
    ensures Settled(Swapped(s, i, j), i, n) && SameBeyond(s, Swapped(s, i, j), n)
  {
  }

  /** The inner loop of the exchange sort: the least of the rest comes to place `i`. */
  method Exchange(a: array<word>, i: nat, n: nat)
    requires i < n && Settled(a[..], i, n)
    modifies a
    ensures Settled(a[..], i + 1, n) && SameBeyond(old(a[..]), a[..], n)
  {
    hide Settled, SameBeyond, Swapped;
    SettledFacts(a[..], i, n);
    var j := i + 1;
    while j < n
      invariant i < j <= n <= a.Length
      invariant Settled(a[..], i, n) && SameBeyond(old(a[..]), a[..], n)
      invariant Least(a[..], i, j)
    {
      ghost var s := a[..];
      if a[i] > a[j] {
        a[i], a[j] := a[j], a[i];
        SwapIs(s, a[..], i, j);
        SwapSettles(s, i, j, n);
        SameTwice(old(a[..]), s, a[..], n);
      }
      LeastNext(s, a[..], i, j);
      j := j + 1;
    }
    SettledNext(a[..], i, n);
  }

  predicate Least(s: seq<word>, i: nat, j: nat) {
    i < j <= |s| && forall k :: i < k < j ==> s[i] <= s[k]
  }

  lemma SwapIs(s: seq<word>, t: seq<word>, i: nat, j: nat)
    requires i < j < |s| == |t| && t[i] == s[j] && t[j] == s[i]
    requires forall k :: 0 <= k < |s| && k != i && k != j ==> t[k] == s[k]
    ensures t == Swapped(s, i, j)
  {
  }

  lemma LeastNext(s: seq<word>, t: seq<word>, i: nat, j: nat)
    requires Least(s, i, j) && j < |s|
    requires t == if s[i] > s[j] then Swapped(s, i, j) else s
    ensures Least(t, i, j + 1)
  {
  }

  lemma SettledNext(s: seq<word>, i: nat, n: nat)
    requires Settled(s, i, n) && i < n && Least(s, i, n)
    ensures Settled(s, i + 1, n)
  {
  }

  lemma SettledFacts(s: seq<word>, i: nat, n: nat)
    requires Settled(s, i, n)
    ensures i <= n <= |s| && SameBeyond(s, s, n) && Settled(s, 0, n)
    ensures i < n ==> Least(s, i, i + 1)
    ensures i + 1 >= n ==> Sorted(s[..n])
  {
  }

  lemma SameTwice(s: seq<word>, t: seq<word>, u: seq<word>, n: nat)
    requires SameBeyond(s, t, n) && SameBeyond(t, u, n)
    ensures SameBeyond(s, u, n)
  {
  }

  method Sort(a: array<word>, n: nat)
    requires n <= a.Length
    modifies a
    ensures Sorted(a[..n]) && a[n..] == old(a[n..])
    ensures multiset(a[..n]) == multiset(old(a[..n]))
  {
    hide Settled, SameBeyond, Swapped, Sorted;
    NothingSettled(a[..], n);
    var i := 0;
    while i < n - 1
      invariant 0 <= i && (i < n || n == 0 == i)
      invariant Settled(a[..], i, n) && SameBeyond(old(a[..]), a[..], n)
    {
      ghost var s := a[..];
      Exchange(a, i, n);
      SameTwice(old(a[..]), s, a[..], n);
      i := i + 1;
    }
    SettledFacts(a[..], i, n);
    SameParts(old(a[..]), a[..], n);
  }

  lemma NothingSettled(s: seq<word>, n: nat)
    requires n <= |s|
    ensures Settled(s, 0, n) && SameBeyond(s, s, n)
  {
  }

  lemma SameParts(s: seq<word>, t: seq<word>, n: nat)
    requires SameBeyond(s, t, n)
    ensures s[n..] == t[n..] && multiset(s[..n]) == multiset(t[..n])
  {
    assert s == s[..n] + s[n..] && t == t[..n] + t[n..];
    assert multiset(s[..n]) == multiset(s) - multiset(s[n..]) && multiset(t[..n]) == multiset(t) - multiset(t[n..]);
  }

  // ---- Common cards

  /** A profile that shares its card with the cache, and what the card decodes. */
  datatype Profile = Profile(fallowcache: bool, cards: seq<word>)

  predicate Known(profiles: seq<Profile>, card: word) {
    exists p :: p in profiles && p.fallowcache && card in p.cards
  }

  /** The common cards after the cards of the peer were gone through. */
  function Gather(cards: seq<word>, com: seq<word>, profiles: seq<Profile>): seq<word> {
    if cards == [] then com
    else
      var c, before := cards[|cards| - 1], Gather(cards[..|cards| - 1], com, profiles);
      if c in before || !Known(profiles, c) then before else before + [c]
  }

  lemma {:induction false} GatherHas(cards: seq<word>, com: seq<word>, profiles: seq<Profile>, c: word)
    ensures c in Gather(cards, com, profiles) <==> c in com || (c in cards && Known(profiles, c))
  {
    hide Known;
    if cards != [] {
      GatherHas(cards[..|cards| - 1], com, profiles, c);
    }
  }

  lemma {:induction false} GatherDistinct(cards: seq<word>, com: seq<word>, profiles: seq<Profile>)
    requires Distinct(com)
    ensures Distinct(Gather(cards, com, profiles))
  {
    hide Known;
    if cards != [] {
      GatherDistinct(cards[..|cards| - 1], com, profiles);
    }
  }

  lemma SortedDistinctIsStrict(s: seq<word>, t: seq<word>)
    requires Distinct(s) && Sorted(t) && multiset(s) == multiset(t)
    ensures Strict(t)
  {
    forall i, j | 0 <= i < j < |t|
      ensures t[i] != t[j]
    {
      if t[i] == t[j] {
        CountTwo(t, i, j);
        CountOne(s, t[i]);
      }
    }
  }

  lemma CountTwo(t: seq<word>, i: nat, j: nat)
    requires i < j < |t| && t[i] == t[j]
    ensures multiset(t)[t[i]] >= 2
  {
    assert t == t[..j] + [t[j]] + t[j + 1..];
    assert t[i] in t[..j];
  }

  lemma {:induction false} CountOne(s: seq<word>, c: word)
    requires Distinct(s)
    ensures multiset(s)[c] <= 1
  {
    if s != [] {
      var n := |s| - 1;
      assert s == s[..n] + [s[n]];
      CountOne(s[..n], c);
      if c == s[n] {
        assert c !in s[..n];
      }
    }
  }

  /** Cards that are all among others, without one of those, are fewer. */
  lemma FewerCards(com: seq<word>, cards: seq<word>, c: word)
    requires Distinct(com) && (forall i :: 0 <= i < |com| ==> com[i] in cards) && c in cards && c !in com
    ensures |com| < |cards|
  {
    var a, b := multiset(com) + multiset{c}, multiset(cards);
    forall x
      ensures a[x] <= b[x]
    {
      CountOne(com, x);
      if x in com {
        assert x in cards;
      }
    }
    assert b == a + (b - a);
    assert |b| == |a| + |b - a|;
  }

  // ---- A peer, updated in place

  const MAXCARDS: nat := 1024

  /** The cast from `uint32_t` to `int`. */
  function Signed(w: word): int {
    if w < 0x8000_0000 then w else w - 0x1_0000_0000
  }

  /** The array holds the non-zero values `s`, then zeros. */
  ghost predicate Holds(a: array<word>, n: nat, s: seq<word>)
    reads a
  {
    && a.Length == MAXCARDS && n == |s| <= MAXCARDS
    && (forall i :: 0 <= i < n ==> a[i] == s[i] > 0)
    && (forall i :: n <= i < MAXCARDS ==> a[i] == 0)
  }

  /** The first `MAXCARDS` words since the last reset. */
  function Heard(before: seq<word>, reset: bool, words: seq<word>): (r: seq<word>)
    ensures |r| <= MAXCARDS
  {
    var all := (if reset then [] else before) + words;
    if |all| <= MAXCARDS then all else all[..MAXCARDS]
  }

  /** Where the next message is written. */
  function FirstZero(s: seq<word>): (k: nat)
    ensures k <= |s| && (k < |s| ==> s[k] == 0) && forall i :: 0 <= i < k ==> s[i] != 0
  {
    if s == [] || s[0] == 0 then 0 else 1 + FirstZero(s[1..])
  }

  /** The array `r` with `n` cards once the words were written over `base` from its first zero on and were sorted in. */
  ghost predicate Listed(base: seq<word>, words: seq<word>, r: seq<word>, n: nat) {
    var k := FirstZero(base);
    && |r| == |base| && n == (if k + |words| <= |base| then k + |words| else |base|)
    && Sorted(r[..n]) && r[n..] == base[n..] && multiset(r[..n]) == multiset(base[..k] + words[..n - k])
  }

  /** The first `n` places hold what was heard, and the others are free. */
  ghost predicate Faithful(r: seq<word>, n: nat, heard: seq<word>) {
    |r| == MAXCARDS && n <= |r| && multiset(r[..n]) == multiset(heard) && forall i :: n <= i < |r| ==> r[i] == 0
  }

  lemma FaithfulSize(r: seq<word>, n: nat, heard: seq<word>)
    requires Faithful(r, n, heard)
    ensures n == |heard| <= |r| == MAXCARDS && forall c :: c in r[..n] <==> c in heard
  {
    assert |multiset(r[..n])| == |r[..n]| == n && |multiset(heard)| == |heard|;
    assert forall c :: c in r[..n] <==> c in multiset(r[..n]);
    assert forall c :: c in heard <==> c in multiset(heard);
  }

  lemma ZeroPlace(s: seq<word>, k: nat)
    requires k <= |s| && (k < |s| ==> s[k] == 0) && forall i :: 0 <= i < k ==> s[i] != 0
    ensures FirstZero(s) == k
  {
  }

  lemma HeardMore(cards: seq<word>, heard: seq<word>, words: seq<word>)
    requires multiset(cards) == multiset(heard) && |cards| == |heard| <= MAXCARDS
    ensures var n := if |cards| + |words| <= MAXCARDS then |cards| + |words| else MAXCARDS;
      multiset(cards + words[..n - |cards|]) == multiset(Heard(heard, false, words))
  {
    var k := MAXCARDS - |heard|;
    if |words| > k {
      assert (heard + words)[..MAXCARDS] == heard + words[..k];
    } else {
      assert words[..|words|] == words;
    }
  }

  /** After a message without a reset the cards are still those heard exactly when none of the earlier ones was zero:
      a zero is sorted to the front, and there the next message is written. */
  lemma FaithfulIff(base: seq<word>, n: nat, heard: seq<word>, words: seq<word>, r: seq<word>, m: nat)
    requires Faithful(base, n, heard) && Sorted(base[..n]) && Listed(base, words, r, m) && |words| < MAXCARDS
    ensures Faithful(r, m, Heard(heard, false, words)) <==> 0 !in heard
  {
    hide Sorted, Faithful;
    FaithfulSize(base, n, heard);
    if 0 !in heard {
      StaysFaithful(base, n, heard, words, r, m);
    } else {
      ZeroInFront(base, n);
      if Faithful(r, m, Heard(heard, false, words)) {
        FaithfulSize(r, m, Heard(heard, false, words));
      }
    }
  }

  lemma ZeroInFront(base: seq<word>, n: nat)
    requires n <= |base| && Sorted(base[..n]) && 0 in base[..n]
    ensures FirstZero(base) == 0
  {
    var i :| 0 <= i < n && base[..n][i] == 0;
    assert base[..n][0] <= base[..n][i];
  }

  lemma StaysFaithful(base: seq<word>, n: nat, heard: seq<word>, words: seq<word>, r: seq<word>, m: nat)
    requires Faithful(base, n, heard) && Listed(base, words, r, m) && 0 !in heard
    ensures Faithful(r, m, Heard(heard, false, words))
  {
    hide Sorted, Heard, FirstZero;
    FaithfulSize(base, n, heard);
    FrontIs(base, n, heard);
    HeardMore(base[..n], heard, words);
    forall i | m <= i < |r|
      ensures r[i] == 0
    {
      assert r[m..][i - m] == base[m..][i - m];
    }
  }

  class Peer {
    const cards: array<word>
    var nbcards: nat
    const comcards: array<word>
    var nbcomcards: nat
    ghost var common: seq<word>
    ghost var heard: seq<word>

    /** The common cards are those of the peer that some profile decodes, as long as the peer did not announce the card
        zero. */
    ghost predicate Valid(profiles: seq<Profile>)
      reads this, cards, comcards
    {
      && cards != comcards && cards.Length == MAXCARDS && nbcards <= MAXCARDS && |heard| <= MAXCARDS
      && Holds(comcards, nbcomcards, common) && Strict(common) && AllKnown(common, profiles)
      && Sorted(cards[..nbcards])
      && (0 !in heard ==> Faithful(cards[..], nbcards, heard) && Shared(heard, common, profiles))
    }

    constructor ()
      ensures forall profiles :: Valid(profiles)
      ensures heard == [] && fresh(cards) && fresh(comcards)
    {
      cards, comcards := new word[MAXCARDS](_ => 0), new word[MAXCARDS](_ => 0);
      nbcards, nbcomcards := 0, 0;
      common, heard := [], [];
    }

    /** The cards of the message join those of the peer, and all of them are sorted. */
    method Receive(words: seq<word>)
      requires cards.Length == MAXCARDS
      modifies this`nbcards, cards
      ensures nbcards <= MAXCARDS && Listed(old(cards[..]), words, cards[..], nbcards)
    {
      hide Sorted, FirstZero;
      ghost var base := cards[..];
      var k := FirstFree(cards);
      var idx := Take(cards, k, words);
      Sort(cards, idx);
      nbcards := idx;
    }

    method Forget()
      requires cards != comcards && cards.Length == comcards.Length == MAXCARDS
      modifies this, cards, comcards
      ensures Holds(comcards, nbcomcards, common) && common == [] == heard && nbcards == 0
      ensures cards[..] == seq(MAXCARDS, _ => 0)
    {
      Clear(cards);
      Clear(comcards);
      nbcards, nbcomcards := 0, 0;
      common, heard := [], [];
    }

    /** The cards of the peer join the common ones. */
    method Compare(profiles: seq<Profile>, ghost own: seq<word>)
      requires cards != comcards && cards.Length == MAXCARDS && nbcards <= MAXCARDS && own == cards[..nbcards]
      requires Holds(comcards, nbcomcards, common) && Strict(common) && AllKnown(common, profiles)
      requires 0 in own ==> !Known(profiles, 0)
      requires Among(common, own) || Roomy(profiles)
      modifies this`nbcomcards, this`common, comcards
      ensures Holds(comcards, nbcomcards, common) && Strict(common) && AllKnown(common, profiles)
      ensures forall c :: c in common <==> c in old(common) || (c in own && Known(profiles, c))
    {
      hide Known, Holds, Strict, AllKnown, Roomy, Among, Distinct, Sorted, Gather;
      HoldsFacts(comcards, nbcomcards, common);
      StrictIsDistinct(common);
      var m;
      ghost var t;
      m, t := AddAllCommon(cards, nbcards, comcards, nbcomcards, profiles, own, common);
      ghost var was := common;
      nbcomcards := m;
      common := SortHeld(comcards, m, t);
      GatherDistinct(own, was, profiles);
      SortedDistinctIsStrict(t, common);
      SameMembers(t, common, own, was, profiles);
    }

    /** `TYPE_CARD_LIST`. A profile that decodes the card zero, and a peer that keeps more common cards than there is room
        for, are left out. */
    method CardList(reset: bool, words: seq<word>, profiles: seq<Profile>)
      requires Valid(profiles) && (0 in words ==> !Known(profiles, 0))
      requires reset || 0 !in heard || Roomy(profiles)
      modifies this, cards, comcards
      ensures Valid(profiles) && heard == Heard(old(heard), reset, words)
      ensures Listed(if reset then seq(MAXCARDS, _ => 0) else old(cards[..]), words, cards[..], nbcards)
      ensures forall c :: c in common <==> (!reset && c in old(common)) || (c in cards[..nbcards] && Known(profiles, c))
    {
      hide Known, Holds, Strict, AllKnown, Roomy, Among, Sorted, Listed, Faithful, Shared, Heard;
      HoldsFacts(comcards, nbcomcards, common);
      if reset {
        Forget();
        NothingHeard(profiles);
      }
      ghost var base, n, was, before := cards[..], nbcards, common, heard;
      Receive(words);
      ghost var own := cards[..nbcards];
      ListedFacts(base, n, before, was, words, cards[..], nbcards, profiles);
      Compare(profiles, own);
      heard := Heard(heard, false, words);
      StillValid(base, n, before, was, words, cards[..], nbcards, common, profiles);
      assert Heard([], false, words) == Heard(old(heard), true, words) by { HeardReset(old(heard), words); }
    }

    /** `peer_card_binarysearch`, which compares the words as signed integers, though they stand in unsigned order. */
    method BinarySearch(caprov: word, profiles: seq<Profile>) returns (found: bool)
      requires Valid(profiles)
      ensures found == Finds(common, caprov)
      ensures 0 !in heard ==> (caprov in common <==> caprov in heard && Known(profiles, caprov))
    {
      hide Known, Mixed, Finds, Holds, Strict, Signed;
      HoldsFacts(comcards, nbcomcards, common);
      HoldsAt(comcards, nbcomcards, common);
      if nbcomcards == 0 {
        NothingFound(caprov);
        return false;
      }
      var c := Signed(caprov);
      Entry(common, caprov);
      var xl, xh := 0, nbcomcards - 1;
      var yl, yh := Signed(comcards[xl]), Signed(comcards[xh]);
      while yl <= c && yh >= c
        invariant 0 <= xl <= xh < nbcomcards && yl == Signed(common[xl]) && yh == Signed(common[xh])
        invariant Mixed(common) ==> xl == 0 && !(yl <= c <= yh)
        invariant forall i :: 0 <= i < xl ==> Signed(common[i]) < c
        invariant forall i :: xh < i < |common| ==> Signed(common[i]) > c
        decreases xh - xl
      {
        var xm := (xl + xh) / 2;
        var ym := Signed(comcards[xm]);
        Halved(common, caprov, xm);
        if ym < c {
          xl := xm + 1;
          yl := Signed(comcards[xl]);
        } else if ym > c {
          xh := xm - 1;
          yh := Signed(comcards[xh]);
        } else {
          MetAt(common, caprov, xm);
          return true;
        }
      }
      SearchEnds(common, caprov, xl, xh);
      return comcards[xl] == caprov;
    }
  }

  /** Some words are negative as signed integers, and some are not. */
  predicate Mixed(s: seq<word>) {
    |s| > 0 && s[0] < 0x8000_0000 <= s[|s| - 1]
  }

  /** What the search finds: among mixed words only the first one. */
  predicate Finds(s: seq<word>, w: word) {
    w in s && (Mixed(s) ==> w == s[0])
  }

  lemma NothingFound(w: word)
    ensures !Finds([], w)
  {
  }

  /** Among mixed words the search ends before it begins. */
  lemma Entry(s: seq<word>, w: word)
    requires |s| > 0
    ensures Mixed(s) ==> !(Signed(s[0]) <= Signed(w) <= Signed(s[|s| - 1]))
  {
  }

  /** Among words that are not mixed one step keeps the search right. */
  lemma Halved(s: seq<word>, w: word, m: nat)
    requires Strict(s) && !Mixed(s) && m < |s|
    ensures Signed(s[m]) < Signed(w) ==> forall i :: 0 <= i <= m ==> Signed(s[i]) < Signed(w)
    ensures Signed(s[m]) > Signed(w) ==> forall i :: m <= i < |s| ==> Signed(s[i]) > Signed(w)
  {
    hide Signed, Mixed;
    SignedOrder(s);
  }

  lemma MetAt(s: seq<word>, w: word, m: nat)
    requires !Mixed(s) && m < |s| && Signed(s[m]) == Signed(w)
    ensures Finds(s, w)
  {
    assert s[m] == w;
  }

  lemma SearchEnds(s: seq<word>, w: word, xl: nat, xh: nat)
    requires Strict(s) && xl <= xh < |s| && (Mixed(s) ==> xl == 0)
    requires forall i :: 0 <= i < xl ==> Signed(s[i]) < Signed(w)
    requires forall i :: xh < i < |s| ==> Signed(s[i]) > Signed(w)
    requires !(Signed(s[xl]) <= Signed(w) <= Signed(s[xh]))
    ensures s[xl] == w <==> Finds(s, w)
  {
    hide Signed;
    if !Mixed(s) {
      SignedOrder(s);
      forall i | 0 <= i < |s| && i != xl
        ensures s[i] != w
      {
        hide *;
        if xl < i <= xh {
          assert Signed(s[xl]) < Signed(s[i]) && (i < xh ==> Signed(s[i]) < Signed(s[xh]));
        }
      }
    }
  }

  /** The signed order is the unsigned one exactly when the words are not mixed. */
  lemma SignedOrder(s: seq<word>)
    requires Strict(s)
    ensures (forall i, j :: 0 <= i < j < |s| ==> Signed(s[i]) < Signed(s[j])) <==> !Mixed(s)
  {
    if Mixed(s) {
      assert Signed(s[0]) > Signed(s[|s| - 1]);
    }
  }

  /** The search finds every common card exactly when they are not mixed. */
  lemma FindsAllIff(s: seq<word>)
    requires Strict(s)
    ensures (forall w: word :: Finds(s, w) <==> w in s) <==> !Mixed(s)
  {
    if Mixed(s) {
      assert s[|s| - 1] in s && s[|s| - 1] != s[0];
      assert !Finds(s, s[|s| - 1]);
    }
  }

  /** A peer announces two cards that a profile decodes, and the search misses the second one. */
  method MissedCard() returns (p: Peer, found: bool)
    ensures var profiles := [Profile(true, [0x0500_0000, 0x9000_0000])];
      p.Valid(profiles) && p.heard == [0x0500_0000, 0x9000_0000] && Known(profiles, 0x9000_0000) && !found
  {
    hide Holds, Shared, Strict, Sorted, AllKnown, Finds, Known, Listed, Faithful, Roomy;
    var profiles := [Profile(true, [0x0500_0000, 0x9000_0000])];
    NotZero(profiles);
    p := new Peer();
    p.CardList(true, [0x0500_0000, 0x9000_0000], profiles);
    assert p.heard == [0x0500_0000, 0x9000_0000];
    TwoCards(p.heard, p.common, profiles);
    found := p.BinarySearch(0x9000_0000, profiles);
  }

  lemma NotZero(profiles: seq<Profile>)
    requires profiles == [Profile(true, [0x0500_0000, 0x9000_0000])]
    ensures !Known(profiles, 0)
  {
  }

  lemma TwoCards(heard: seq<word>, common: seq<word>, profiles: seq<Profile>)
    requires profiles == [Profile(true, heard)] && heard == [0x0500_0000, 0x9000_0000]
    requires Strict(common) && Shared(heard, common, profiles)
    ensures Known(profiles, 0x9000_0000) && !Finds(common, 0x9000_0000)
  {
    hide Finds, Known, Shared, Strict;
    IsCommon(heard, common, profiles, 0);
    IsCommon(heard, common, profiles, 1);
    FirstOnly(common, heard[0], heard[1]);
  }

  lemma IsCommon(heard: seq<word>, common: seq<word>, profiles: seq<Profile>, k: nat)
    requires Shared(heard, common, profiles) && profiles == [Profile(true, heard)] && k < |heard|
    ensures heard[k] in common && Known(profiles, heard[k])
  {
    assert profiles[0] in profiles && heard[k] in profiles[0].cards;
  }

  lemma FirstOnly(s: seq<word>, a: word, b: word)
    requires Strict(s) && a in s && b in s && a < 0x8000_0000 <= b
    ensures Mixed(s) && !Finds(s, b)
  {
    var i :| 0 <= i < |s| && s[i] == a;
    var j :| 0 <= j < |s| && s[j] == b;
    assert s[0] <= s[i] && s[j] <= s[|s| - 1];
  }

  /** A peer announces the cards zero and five, then nine: it is left with one card of the three. */
  method ForgottenCards() returns (p: Peer)
    ensures p.Valid([]) && p.heard == [0, 5, 9] && p.nbcards == 1
  {
    hide Holds, Shared, Strict, Sorted, AllKnown, Known, Listed, Faithful, Roomy;
    NoProfiles();
    p := new Peer();
    p.CardList(true, [0, 5], []);
    ghost var base := p.cards[..];
    ZeroFirst(base, p.nbcards);
    p.CardList(false, [9], []);
    OneLeft(base, p.cards[..], p.nbcards);
  }

  lemma NoProfiles()
    ensures Roomy([]) && forall c :: !Known([], c)
  {
    forall s: seq<word> | Distinct(s) && AllKnown(s, [])
      ensures |s| < MAXCARDS
    {
      if s != [] {
        SomeUnknown(s);
      }
    }
  }

  lemma SomeUnknown(s: seq<word>)
    requires s != []
    ensures !AllKnown(s, [])
  {
    assert !Known([], s[0]);
  }

  lemma ZeroFirst(r: seq<word>, n: nat)
    requires Listed(seq(MAXCARDS, _ => 0), [0, 5], r, n)
    ensures FirstZero(r) == 0 && |r| == MAXCARDS
  {
    hide Sorted;
    var base: seq<word>, words: seq<word> := seq(MAXCARDS, _ => 0), [0, 5];
    assert FirstZero(base) == 0;
    assert base[..0] + words[..2] == words;
    assert words[0] in multiset(words);
    assert 0 in r[..n];
    ZeroInFront(r, n);
  }

  lemma OneLeft(base: seq<word>, r: seq<word>, n: nat)
    requires FirstZero(base) == 0 && |base| == MAXCARDS && Listed(base, [9], r, n)
    ensures n == 1
  {
  }

  // ---- What the cards of a peer and the common ones have to do with each other

  /** The common cards are those heard that some profile decodes. */
  ghost predicate Shared(heard: seq<word>, common: seq<word>, profiles: seq<Profile>) {
    forall c :: c in common <==> c in heard && Known(profiles, c)
  }

  predicate AllKnown(s: seq<word>, profiles: seq<Profile>) {
    forall i :: 0 <= i < |s| ==> Known(profiles, s[i])
  }

  predicate Among(s: seq<word>, t: seq<word>) {
    forall i :: 0 <= i < |s| ==> s[i] in t
  }

  /** The profiles decode fewer cards than a peer has room for. */
  ghost predicate Roomy(profiles: seq<Profile>) {
    forall s: seq<word> :: Distinct(s) && AllKnown(s, profiles) ==> |s| < MAXCARDS
  }

  // ---- Steps of a card list

  method Clear(a: array<word>)
    requires a.Length == MAXCARDS
    modifies a
    ensures Holds(a, 0, []) && a[..] == seq(MAXCARDS, _ => 0)
  {
    for i := 0 to MAXCARDS
      invariant forall j :: 0 <= j < i ==> a[j] == 0
    {
      a[i] := 0;
    }
  }

  method FirstFree(a: array<word>) returns (idx: nat)
    requires a.Length == MAXCARDS
    ensures idx == FirstZero(a[..])
  {
    idx := 0;
    while idx < MAXCARDS && a[idx] != 0
      invariant idx <= MAXCARDS && forall i :: 0 <= i < idx ==> a[i] != 0
    {
      idx := idx + 1;
    }
    ZeroPlace(a[..], idx);
  }

  method Take(a: array<word>, n: nat, words: seq<word>) returns (idx: nat)
    requires n <= a.Length == MAXCARDS
    modifies a
    ensures idx == (if n + |words| <= MAXCARDS then n + |words| else MAXCARDS)
    ensures a[..idx] == old(a[..n]) + words[..idx - n] && a[idx..] == old(a[..])[idx..]
  {
    idx := n;
    var j := 0;
    while j < |words| && idx < MAXCARDS
      invariant j <= |words| && idx == n + j <= MAXCARDS
      invariant a[..idx] == old(a[..n]) + words[..j] && forall i :: idx <= i < MAXCARDS ==> a[i] == old(a[i])
    {
      a[idx] := words[j];
      j := j + 1;
      idx := idx + 1;
    }
  }

  /** Sorts the values in front of the zeros. */
  method SortHeld(a: array<word>, n: nat, ghost s: seq<word>) returns (ghost t: seq<word>)
    requires Holds(a, n, s)
    modifies a
    ensures Holds(a, n, t) && Sorted(t) && multiset(t) == multiset(s)
  {
    assert a[..n] == s;
    ghost var tail := a[n..];
    assert forall i :: 0 <= i < |tail| ==> tail[i] == 0;
    Sort(a, n);
    t := a[..n];
    forall i | 0 <= i < n
      ensures t[i] > 0
    {
      assert t[i] in multiset(s);
    }
    forall i | n <= i < MAXCARDS
      ensures a[i] == 0
    {
      assert a[n..][i - n] == tail[i - n];
    }
  }

  /** Whether a profile that shares its card decodes this one. */
  method IsKnown(profiles: seq<Profile>, c: word) returns (known: bool)
    ensures known == Known(profiles, c)
  {
    var p := 0;
    while p < |profiles|
      invariant p <= |profiles| && forall q :: 0 <= q < p ==> !(profiles[q].fallowcache && c in profiles[q].cards)
    {
      if profiles[p].fallowcache {
        var cards, j := profiles[p].cards, 0;
        while j < |cards|
          invariant j <= |cards| && forall k :: 0 <= k < j ==> cards[k] != c
        {
          if cards[j] == c {
            return true;
          }
          j := j + 1;
        }
      }
      p := p + 1;
    }
    return false;
  }

  /** One card of the peer: it joins the common cards unless it is there or no profile decodes it. */
  method AddCommon(a: array<word>, n: nat, c: word, profiles: seq<Profile>, ghost s: seq<word>) returns (m: nat, ghost t: seq<word>)
    requires Holds(a, n, s) && (c !in s ==> n < MAXCARDS) && (c == 0 ==> !Known(profiles, c))
    modifies a
    ensures t == (if c in s || !Known(profiles, c) then s else s + [c]) && Holds(a, m, t)
  {
    hide Known;
    m, t := n, s;
    var x := 0;
    while a[x] != 0
      invariant x <= n && x < MAXCARDS && forall j :: 0 <= j < x ==> s[j] != c
      decreases n - x
    {
      if a[x] == c {
        return;
      }
      x := x + 1;
    }
    var known := IsKnown(profiles, c);
    if known {
      a[x] := c;
      m, t := x + 1, s + [c];
    }
  }

  method AddAllCommon(cards: array<word>, idx: nat, a: array<word>, n: nat, profiles: seq<Profile>, ghost own: seq<word>, ghost s: seq<word>)
    returns (m: nat, ghost t: seq<word>)
    requires cards != a && idx <= cards.Length == MAXCARDS && cards[..idx] == own && Holds(a, n, s) && Distinct(s)
    requires AllKnown(s, profiles) && (0 in own ==> !Known(profiles, 0)) && (Among(s, own) || Roomy(profiles))
    modifies a
    ensures Holds(a, m, t) && t == Gather(own, s, profiles) && AllKnown(t, profiles)
  {
    hide Known, Distinct, AllKnown, Among, Roomy, Holds;
    m, t := n, s;
    var i := 0;
    while i < idx
      invariant 0 <= i <= idx && cards[..idx] == own
      invariant Holds(a, m, t) && t == Gather(own[..i], s, profiles) && Distinct(t)
      invariant AllKnown(t, profiles) && (Among(t, own) || Roomy(profiles))
    {
      assert own[..i + 1][..i] == own[..i] && own[..i + 1][i] == own[i] == cards[i];
      RoomLeft(t, own[i], own, profiles);
      HoldsFacts(a, m, t);
      m, t := AddCommon(a, m, cards[i], profiles, t);
      i := i + 1;
    }
    assert own[..i] == own;
  }

  /** There is room for one more, and adding it keeps what the next one needs. */
  lemma RoomLeft(t: seq<word>, c: word, own: seq<word>, profiles: seq<Profile>)
    requires Distinct(t) && AllKnown(t, profiles) && c in own && |own| <= MAXCARDS && (Among(t, own) || Roomy(profiles))
    ensures c !in t ==> |t| < MAXCARDS && Distinct(t + [c]) && (Among(t, own) ==> Among(t + [c], own))
    ensures Known(profiles, c) ==> AllKnown(t + [c], profiles)
  {
    hide Known;
    if c !in t && Among(t, own) {
      FewerCards(t, own, c);
    }
  }

  // ---- Bookkeeping of a card list

  lemma NothingHeard(profiles: seq<Profile>)
    ensures Strict([]) && AllKnown([], profiles) && Sorted([]) && Shared([], [], profiles)
    ensures Faithful(seq(MAXCARDS, _ => 0), 0, [])
  {
  }

  lemma HeardReset(before: seq<word>, words: seq<word>)
    ensures Heard([], false, words) == Heard(before, true, words)
  {
  }

  lemma HoldsAt(a: array<word>, n: nat, s: seq<word>)
    requires Holds(a, n, s)
    ensures forall i :: 0 <= i < n ==> a[i] == s[i]
  {
  }

  lemma HoldsFacts(a: array<word>, n: nat, s: seq<word>)
    requires Holds(a, n, s)
    ensures a.Length == MAXCARDS && n == |s| <= MAXCARDS
  {
  }

  lemma StrictIsDistinct(s: seq<word>)
    requires Strict(s)
    ensures Distinct(s)
  {
  }

  lemma SameMembers(t: seq<word>, common: seq<word>, own: seq<word>, was: seq<word>, profiles: seq<Profile>)
    requires multiset(t) == multiset(common) && t == Gather(own, was, profiles) && AllKnown(t, profiles)
    ensures AllKnown(common, profiles)
    ensures forall c :: c in common <==> c in was || (c in own && Known(profiles, c))
  {
    hide Known, Gather;
    forall c
      ensures c in common <==> c in t
      ensures c in t <==> c in was || (c in own && Known(profiles, c))
    {
      assert c in common <==> c in multiset(common);
      assert c in t <==> c in multiset(t);
      GatherHas(own, was, profiles, c);
    }
    assert forall i :: 0 <= i < |common| ==> common[i] in t;
  }

  /** What the cards of a peer have to do with its common ones before those of a message are compared. */
  lemma ListedFacts(base: seq<word>, n: nat, before: seq<word>, was: seq<word>, words: seq<word>, r: seq<word>, m: nat,
                    profiles: seq<Profile>)
    requires Listed(base, words, r, m) && |base| == MAXCARDS && (0 !in before ==> Faithful(base, n, before) && Shared(before, was, profiles))
    ensures m <= |r| && Sorted(r[..m]) && (0 in r[..m] ==> 0 in words)
    ensures 0 !in before ==> Among(was, r[..m])
  {
    hide Known, Sorted, Faithful;
    var k := FirstZero(base);
    var own, parts := r[..m], base[..k] + words[..m - k];
    forall c
      ensures c in own <==> c in parts
    {
      assert c in own <==> c in multiset(own);
      assert c in parts <==> c in multiset(parts);
    }
    if 0 !in before {
      FaithfulSize(base, n, before);
      FrontIs(base, n, before);
      forall i | 0 <= i < |was|
        ensures was[i] in own
      {
        assert was[i] in base[..n];
      }
    }
  }

  /** Without zeros the cards stand in front of the first zero. */
  lemma FrontIs(base: seq<word>, n: nat, before: seq<word>)
    requires Faithful(base, n, before) && 0 !in before
    ensures FirstZero(base) == n
  {
    hide FirstZero;
    FaithfulSize(base, n, before);
    forall i | 0 <= i < n
      ensures base[i] != 0
    {
      assert base[..n][i] in before;
    }
    ZeroPlace(base, n);
  }

  /** What a message without a zero keeps. */
  lemma StillValid(base: seq<word>, n: nat, before: seq<word>, was: seq<word>, words: seq<word>, r: seq<word>, m: nat,
                   common: seq<word>, profiles: seq<Profile>)
    requires Listed(base, words, r, m) && |before| <= MAXCARDS && m <= |r|
    requires 0 !in before ==> Faithful(base, n, before) && Shared(before, was, profiles)
    requires forall c :: c in common <==> c in was || (c in r[..m] && Known(profiles, c))
    ensures var heard := Heard(before, false, words);
      0 !in heard ==> Faithful(r, m, heard) && Shared(heard, common, profiles)
  {
    hide Known, Sorted, Faithful, Listed;
    var heard := Heard(before, false, words);
    forall c | c in before
      ensures c in heard
    {
      var i :| 0 <= i < |before| && before[i] == c;
      assert heard[i] == c;
    }
    if 0 !in heard {
      StaysFaithful(base, n, before, words, r, m);
      FaithfulSize(r, m, heard);
    }
  }
}
