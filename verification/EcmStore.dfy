/** The store of requests and its lookups. */
module EcmStore {
  import opened Bits
  import opened EcmRings
  import opened Rings
  import opened EcmRuns
  import opened Walks

  // ---- Lookups

  datatype Query =
    | ByDcw(ecm: seq<byte>, sid: bv16)
    | ByRequest(ecm: seq<byte>, sid: bv16, caid: bv16)
    | ByHash(caid: bv16, sid: bv16, hash: bv32)
    | ByMd5(caid: bv16, provid: bv32, ecmd5: seq<byte>)

  /** What a lookup asks for, without the hash that speeds it up. */
  predicate Matches(n: Node, q: Query)
    reads n
  {
    match q
    case ByDcw(ecm, sid) =>
      n.dcwstatus != Failed && |n.ecm| == |ecm| && |ecm| >= 3 && n.ecm[0] == ecm[0] && n.ecm[3..] == ecm[3..] && n.sid == sid
    case ByRequest(ecm, sid, caid) => n.ecm == ecm && n.sid == sid && n.caid == caid
    case ByHash(caid, sid, hash) => n.hash == hash && n.caid == caid && n.sid == sid
    case ByMd5(caid, provid, ecmd5) => n.caid == caid && n.provid == provid && n.ecmd5 == ecmd5
  }

  predicate Live(n: Node, ticks: nat)
    reads n`recvtime
  {
    n.recvtime + TIME_ECMALIVE >= ticks
  }

  ghost function Lives(s: seq<Node>, ticks: nat): (t: seq<bool>)
    reads s`recvtime
    ensures |t| == |s| && forall i :: 0 <= i < |s| ==> t[i] == Live(s[i], ticks)
  {
    if s == [] then [] else [Live(s[0], ticks)] + Lives(s[1..], ticks)
  }

  ghost function Hits(s: seq<Node>, q: Query): (t: seq<bool>)
    reads s
    ensures |t| == |s| && forall i :: 0 <= i < |s| ==> t[i] == Matches(s[i], q)
  {
    if s == [] then [] else [Matches(s[0], q)] + Hits(s[1..], q)
  }

  /** What a lookup in the ring `s` returns. */
  ghost function Search(s: seq<Node>, q: Query, ticks: nat): (r: Node?)
    reads s
  {
    var k := Scan(Lives(s, ticks), Hits(s, q));
    if k < |s| then s[k] else null
  }

  ghost predicate Newest(r: Node, s: seq<Node>, q: Query, ticks: nat)
    reads r, s
  {
    && r in s && Live(r, ticks) && Matches(r, q)
    && forall n :: n in s && Live(n, ticks) && Matches(n, q) ==> n.recvtime <= r.recvtime
  }

  /** In a ring whose newest node comes first a lookup finds the newest living match, and null means there is none. */
  lemma FindsNewest(s: seq<Node>, q: Query, ticks: nat)
    requires NewestFirst(s)
    ensures Search(s, q, ticks) == null <==> forall n :: n in s && Live(n, ticks) ==> !Matches(n, q)
    ensures Search(s, q, ticks) != null ==> Newest(Search(s, q, ticks), s, q, ticks)
  {
    hide Matches, Scan, Lives, Hits;
    var live, hit := Lives(s, ticks), Hits(s, q);
    forall i | 0 <= i < |s| && live[i] && hit[i]
      ensures Scan(live, hit) <= i
    {
      ScanFinds(live, hit, i);
    }
    forall n | n in s && Live(n, ticks) && Matches(n, q)
      ensures Search(s, q, ticks) != null && n.recvtime <= Search(s, q, ticks).recvtime
    {
      var i :| 0 <= i < |s| && s[i] == n;
      assert live[i] && hit[i];
    }
  }

  lemma FoundIs(s: seq<Node>, q: Query, ticks: nat)
    ensures Search(s, q, ticks) != null ==> var r := Search(s, q, ticks); r in s && Live(r, ticks) && Matches(r, q)
  {
    hide Matches, Lives, Hits;
  }

  /** A lookup finds a living match, and one in a ring that stands newest first misses none. */
  lemma SearchTells(s: seq<Node>, q: Query, ticks: nat)
    ensures var r := Search(s, q, ticks); r != null ==> r in s && Live(r, ticks) && Matches(r, q)
    ensures Search(s, q, ticks) == null && NewestFirst(s) ==> forall n :: n in s && Live(n, ticks) ==> !Matches(n, q)
  {
    hide NewestFirst;
    FoundIs(s, q, ticks);
    if NewestFirst(s) {
      FindsNewest(s, q, ticks);
    }
  }

  /** A living node that did not fail, of that service and of a request that is the same but for its second and third
      byte; null in a ring that stands newest first only when there is none. */
  ghost predicate IsDcwAnswer(r: Node?, s: seq<Node>, ecm: seq<byte>, sid: bv16, ticks: nat)
    reads r, s
  {
    && (r != null ==> r in s && r.recvtime + TIME_ECMALIVE >= ticks && r.dcwstatus != Failed && r.sid == sid && Alike(r.ecm, ecm))
    && (r == null && NewestFirst(s) ==>
          forall n :: n in s && n.recvtime + TIME_ECMALIVE >= ticks && n.dcwstatus != Failed && n.sid == sid ==> !Alike(n.ecm, ecm))
  }

  predicate Alike(a: seq<byte>, b: seq<byte>) {
    |a| == |b| >= 3 && a[0] == b[0] && a[3..] == b[3..]
  }

  lemma DcwTells(s: seq<Node>, ecm: seq<byte>, sid: bv16, ticks: nat)
    requires |ecm| >= 3
    ensures IsDcwAnswer(Search(s, ByDcw(ecm, sid), ticks), s, ecm, sid, ticks)
  {
    hide Search, NewestFirst;
    SearchTells(s, ByDcw(ecm, sid), ticks);
  }

  lemma RequestTells(s: seq<Node>, ecm: seq<byte>, sid: bv16, caid: bv16, ticks: nat)
    ensures var n := Search(s, ByRequest(ecm, sid, caid), ticks); n != null ==> n in s && n.recvtime + TIME_ECMALIVE >= ticks && n.ecm == ecm && n.sid == sid && n.caid == caid
    ensures Search(s, ByRequest(ecm, sid, caid), ticks) == null && NewestFirst(s) ==>
      forall n :: n in s && n.recvtime + TIME_ECMALIVE >= ticks ==> !(n.ecm == ecm && n.sid == sid && n.caid == caid)
  {
    hide Search, NewestFirst;
    SearchTells(s, ByRequest(ecm, sid, caid), ticks);
  }

  lemma HashTells(s: seq<Node>, caid: bv16, sid: bv16, hash: bv32, ticks: nat)
    ensures var n := Search(s, ByHash(caid, sid, hash), ticks); n != null ==> n in s && n.recvtime + TIME_ECMALIVE >= ticks && n.hash == hash && n.sid == sid && n.caid == caid
    ensures Search(s, ByHash(caid, sid, hash), ticks) == null && NewestFirst(s) ==>
      forall n :: n in s && n.recvtime + TIME_ECMALIVE >= ticks ==> !(n.hash == hash && n.sid == sid && n.caid == caid)
  {
    hide Search, NewestFirst;
    SearchTells(s, ByHash(caid, sid, hash), ticks);
  }

  lemma Md5Tells(s: seq<Node>, caid: bv16, provid: bv32, ecmd5: seq<byte>, ticks: nat)
    ensures var n := Search(s, ByMd5(caid, provid, ecmd5), ticks); n != null ==> n in s && n.recvtime + TIME_ECMALIVE >= ticks && n.ecmd5 == ecmd5 && n.caid == caid && n.provid == provid
    ensures Search(s, ByMd5(caid, provid, ecmd5), ticks) == null && NewestFirst(s) ==>
      forall n :: n in s && n.recvtime + TIME_ECMALIVE >= ticks ==> !(n.ecmd5 == ecmd5 && n.caid == caid && n.provid == provid)
  {
    hide Search, NewestFirst;
    SearchTells(s, ByMd5(caid, provid, ecmd5), ticks);
  }

  lemma LiveIs(n: Node, ticks: nat)
    ensures Live(n, ticks) <==> n.recvtime + TIME_ECMALIVE >= ticks
  {
  }

  /** What the lookup compares. */
  predicate Compared(n: Node, ecm: seq<byte>, sid: bv16, hash: bv32)
    requires |n.ecm| >= 3 && |ecm| >= 3
    reads n`dcwstatus, n`hash, n`ecm, n`sid
  {
    n.dcwstatus != Failed && hash == n.hash && ecm[0] == n.ecm[0] && |ecm| == |n.ecm| && sid == n.sid && ecm[3..] == n.ecm[3..]
  }

  /** Comparing the hash first loses no match. */
  lemma DcwMatches(n: Node, ecm: seq<byte>, sid: bv16)
    requires |n.ecm| >= 3 && n.hash == HashCode(n.ecm[3..]) && |ecm| >= 3
    ensures Matches(n, ByDcw(ecm, sid)) <==> Compared(n, ecm, sid, HashCode(ecm[3..]))
  {
    hide HashCode;
  }

  lemma RequestMatches(n: Node, ecm: seq<byte>, sid: bv16, caid: bv16)
    requires |n.ecm| >= 3 && n.hash == HashCode(n.ecm[3..]) && |ecm| >= 3
    ensures Matches(n, ByRequest(ecm, sid, caid)) <==> HashCode(ecm[3..]) == n.hash && |ecm| == |n.ecm| && sid == n.sid && caid == n.caid && ecm == n.ecm
  {
    hide HashCode;
  }

  lemma HashMatches(n: Node, caid: bv16, sid: bv16, hash: bv32)
    ensures Matches(n, ByHash(caid, sid, hash)) <==> hash == n.hash && caid == n.caid && sid == n.sid
  {
  }

  lemma Md5Matches(n: Node, caid: bv16, provid: bv32, ecmd5: seq<byte>)
    ensures Matches(n, ByMd5(caid, provid, ecmd5)) <==> caid == n.caid && provid == n.provid && ecmd5 == n.ecmd5
  {
  }

  /** How often a failed request may be asked again: some places count the tries against a limit, others do not. */
  datatype Limit = NoLimit | AtMost(retry: nat)

  /** The last moment of each node. */
  ghost function Ends(s: seq<Node>): (t: seq<nat>)
    reads s`recvtime
    ensures |t| == |s| && forall i :: 0 <= i < |s| ==> t[i] == s[i].recvtime + TIME_ECMALIVE
  {
    if s == [] then [] else [s[0].recvtime + TIME_ECMALIVE] + Ends(s[1..])
  }

  lemma OrderOfEnds(s: seq<Node>)
    ensures NewestFirst(s) <==> Descending(Ends(s))
  {
    var e := Ends(s);
    if Descending(e) {
      assert forall i, j :: 0 <= i < j < |s| ==> e[i] >= e[j];
    }
  }

  function Later(t: seq<nat>): (e: seq<nat>)
    ensures |e| == |t| && forall i :: 0 <= i < |t| ==> e[i] == t[i] + TIME_ECMALIVE
  {
    seq(|t|, i requires 0 <= i < |t| => t[i] + TIME_ECMALIVE)
  }

  lemma EndsAre(s: seq<Node>, t: seq<nat>)
    requires Times(s) == t
    ensures Ends(s) == Later(t)
  {
    hide Ends, Times, Later;
    assert forall i :: 0 <= i < |t| ==> t[i] == s[i].recvtime;
  }

  lemma RetryOfTimes(was: seq<nat>, k: nat, ticks: nat)
    requires Descending(was) && k < |was| && was[0] <= ticks
    ensures AlwaysComplete(Later(was[k := ticks])) <==> forall j :: 0 <= j < k ==> was[j] == ticks
  {
    hide Later, AlwaysComplete;
    var ends := Later(was);
    assert forall i, j :: 0 <= i < j < |ends| ==> was[i] >= was[j] && ends[i] >= ends[j];
    assert Later(was[k := ticks]) == ends[k := ticks + TIME_ECMALIVE];
    RetryHides(ends, k, ticks + TIME_ECMALIVE);
    assert forall j :: 0 <= j < k ==> (ends[j] == ticks + TIME_ECMALIVE <==> was[j] == ticks);
  }

  /** No lookup in `s` misses a living match. */
  ghost predicate Complete(s: seq<Node>)
    reads s`recvtime
  {
    forall ticks: nat :: NeverMisses(Lives(s, ticks))
  }

  /** The lookups in a ring are complete at every time exactly when its nodes die from the last to the first, which is
      when the newest stands first. */
  lemma LookupsCompleteIff(s: seq<Node>)
    ensures Complete(s) <==> AlwaysComplete(Ends(s))
    ensures Complete(s) <==> NewestFirst(s)
  {
    hide Lives, Ends, NeverMisses, AliveAt;
    var e := Ends(s);
    forall ticks: nat
      ensures NeverMisses(Lives(s, ticks)) == NeverMisses(AliveAt(e, ticks))
    {
      assert Lives(s, ticks) == AliveAt(e, ticks);
    }
    if !AlwaysComplete(e) {
      var now: nat :| !NeverMisses(AliveAt(e, now));
      assert !NeverMisses(Lives(s, now));
    }
    CompleteIff(e);
    OrderOfEnds(s);
  }

  lemma RingStep(head: Node?, s: seq<Node>, i: nat)
    requires Ring(head, s) && i < |s|
    ensures i + 1 < |s| ==> s[i].next == s[i + 1] && s[i].next != head
    ensures i + 1 == |s| ==> s[i].next == head || s[i].next == null
  {
  }

  lemma CsRingStep(head: Node?, s: seq<Node>, i: nat)
    requires CsRing(head, s) && i < |s|
    ensures i + 1 < |s| ==> s[i].csnext == s[i + 1] && s[i].csnext != head
    ensures i + 1 == |s| ==> s[i].csnext == head || s[i].csnext == null
  {
  }

  class Store {
    var ecmdata: Node?
    var totalecm: int
    ghost var ring: seq<Node>
    ghost var profiles: set<Profile>
    ghost var run: seq<Event>

    /** The profile rings hold exactly the nodes of `s`, each in the ring of its own profile. */
    ghost predicate Members(s: seq<Node>)
      reads this`profiles, profiles, s`cs, s`csnext, s`csprev
    {
      && (forall p :: p in profiles ==> p.Holds(s))
      && (forall n :: n in s ==> n.cs != null && n.cs in profiles)
    }

    ghost predicate Hashed(s: seq<Node>)
      reads s`ecm, s`hash
    {
      forall n :: n in s ==> |n.ecm| >= 3 && n.hash == HashCode(n.ecm[3..])
    }

    ghost predicate Valid()
      reads this, profiles, ring
    {
      Ring(ecmdata, ring) && totalecm == |ring| && Members(ring) && Hashed(ring)
    }

    constructor (ps: set<Profile>)
      requires forall p :: p in ps ==> p.ecmdata == null && p.totalecm == 0
      ensures Valid() && ring == [] && run == [] && Traced() && profiles == ps
    {
      ecmdata, totalecm := null, 0;
      ring, profiles, run := [], ps, [];
    }

    predicate Dead(n: Node, ticks: nat)
      reads n`recvtime
    {
      n.recvtime + TIME_ECMALIVE * 2 < ticks
    }

    lemma OtherHolds(rest: seq<Node>, n: Node, p: Profile)
      requires p.Holds(rest + [n]) && n.cs != null && n.cs != p
      ensures p.Holds(rest) && forall i :: 0 <= i < |Of(rest, p)| ==> Of(rest, p)[i] !in Of(rest + [n], n.cs)
    {
      hide CsRing, Of;
      OfSnoc(rest, n, p);
    }

    /** Takes the oldest node, which is dead, out of the ring of its profile. */
    method Detach(n: Node)
      requires Valid() && |ring| > 1 && n == ring[|ring| - 1]
      modifies ring`csnext, ring`csprev, profiles
      ensures Members(ring[..|ring| - 1])
    {
      hide Distinct, After, Before, Without, Ring, CsRing, Hashed, HashCode, NewestFirst, Of;
      ghost var was, rest := ring, ring[..|ring| - 1];
      assert was == rest + [n];
      RingDistinct(ecmdata, ring);
      ghost var cs, own := n.cs, Of(was, n.cs);
      forall p | p in profiles && p != cs
        ensures p.Holds(rest) && forall i :: 0 <= i < |Of(rest, p)| ==> Of(rest, p)[i] !in own
      {
        OtherHolds(rest, n, p);
      }
      Remove(n.cs, n, was, rest);
      forall p | p in profiles && p != cs
        ensures p.Holds(rest)
      {
        assert Of(rest, p) == old(Of(rest, p));
      }
    }

    lemma HashedPart(s: seq<Node>, t: seq<Node>)
      requires Hashed(s) && forall n :: n in t ==> n in s
      ensures Hashed(t)
    {
    }

    lemma HashedAll(n: Node, rest: seq<Node>)
      requires Hashed(rest) && |n.ecm| >= 3 && n.hash == HashCode(n.ecm[3..])
      ensures Hashed([n] + rest)
    {
    }

    /** The oldest node leaves the ring of its profile and turns into the newest of the ring of all. */
    method Recycle(n: Node) returns (ghost rest: seq<Node>)
      requires Valid() && |ring| > 1 && n == ring[|ring| - 1]
      modifies this`ecmdata, n`next, ring`csnext, ring`csprev, n`cs, profiles
      ensures rest == ring[..|ring| - 1] && n !in rest
      ensures Ring(ecmdata, [n] + rest)
      ensures Members(rest)
    {
      hide Distinct, After, Before, Without, Ring, CsRing, HashCode, NewestFirst, Of, Members, Hashed;
      rest := ring[..|ring| - 1];
      RingDistinct(ecmdata, ring);
      assert ring == rest + [n];
      OldestIsLast(rest, n);
      Detach(n);
      Rotated(ecmdata, n, ring);
      n.cs := null;
      n.next := ecmdata;
      ecmdata := n;
    }

    /** The node for a new request: a new one, or the oldest when nothing has asked for it for twice its life. */
    method Take(ticks: nat) returns (n: Node, ghost rest: seq<Node>)
      requires Valid()
      modifies this`ecmdata, this`totalecm, this`ring, ring`next, ring`prev, ring`csnext, ring`csprev, ring`cs, profiles
      ensures Ring(ecmdata, [n] + rest) && ring == [n] + rest && totalecm == |ring| && n !in rest
      ensures Members(rest) && Hashed(rest)
      ensures forall m :: m in old(ring) && m != n ==> m.cs == old(m.cs)
      ensures if |old(ring)| > 1 && old(Dead(ring[|ring| - 1], ticks))
              then old(ring) == rest + [n] else fresh(n) && old(ring) == rest
    {
      hide Distinct, After, Before, Without, Ring, CsRing, HashCode, NewestFirst, Members, Hashed;
      rest := ring;
      RingHead(ecmdata, ring);
      RingDistinct(ecmdata, ring);
      if ecmdata == null {
        totalecm := totalecm + 1;
        n := new Node();
        SingleRing(n);
        assert [n] + rest == [n];
        ecmdata := n;
      } else if ecmdata.next == null {
        totalecm := totalecm + 1;
        n := new Node();
        Pair(ecmdata, n, ring);
        ecmdata := n;
      } else {
        n := ecmdata.prev;
        if n.recvtime + TIME_ECMALIVE * 2 < ticks {
          rest := Recycle(n);
          HashedPart(ring, rest);
          assert ring == rest + [n];
        } else {
          totalecm := totalecm + 1;
          n := new Node();
          Insert(ecmdata, n, ring);
          ecmdata := n;
        }
      }
      ring := [n] + rest;
    }

    /** The node joins the ring of a profile. */
    method Enlist(cs: Profile, n: Node, ghost rest: seq<Node>)
      requires Members(rest) && cs in profiles && n !in rest
      modifies cs, Of(rest, cs)`csnext, Of(rest, cs)`csprev, n`csnext, n`csprev, n`cs
      ensures Members([n] + rest) && n.cs == cs
    {
      hide Distinct, After, Before, Without, Ring, CsRing, HashCode, NewestFirst, Of;
      ghost var own := Of(rest, cs);
      assert forall p, i :: p in profiles && p != cs && 0 <= i < |Of(rest, p)| ==> Of(rest, p)[i] !in own && Of(rest, p)[i] != n;
      AddEcmData(cs, n, own);
      n.cs := cs;
      OfCons(rest, n, cs);
      forall p | p in profiles && p != cs
        ensures p.Holds([n] + rest)
      {
        assert Of(rest, p) == old(Of(rest, p));
        OfCons(rest, n, p);
      }
    }

    /** The nodes stand as the run of stores and retries left them, and carry its dates. */
    ghost predicate Traced()
      reads this`ring, this`run, ring`recvtime
    {
      Times(ring) == Dates(Ran(run))
    }

    /** Only counted retries so far: the nodes have the tries of the run. */
    ghost predicate Counted()
      reads this`ring, this`run, ring`period
    {
      Periods(ring) == Tries(Ran(run))
    }

    lemma TimesRest(ticks: nat)
      ensures Reuses(Times(ring), ticks) <==> |ring| > 1 && Dead(ring[|ring| - 1], ticks)
      ensures ring != [] ==> Times(ring[..|ring| - 1]) == Times(ring)[..|Times(ring)| - 1]
    {
    }

    method Place(cs: Profile, ticks: nat) returns (n: Node, ghost rest: seq<Node>)
      requires Valid() && cs in profiles
      modifies this`ecmdata, this`totalecm, this`ring, ring`next, ring`prev, ring`csnext, ring`csprev, ring`cs, profiles
      ensures Ring(ecmdata, ring) && ring == [n] + rest && totalecm == |ring|
      ensures Members(ring) && Hashed(rest) && n !in rest && n.cs == cs
      ensures if |old(ring)| > 1 && old(Dead(ring[|ring| - 1], ticks))
              then rest == old(ring)[..|old(ring)| - 1] && n == old(ring)[|old(ring)| - 1]
              else rest == old(ring) && fresh(n)
      ensures var was := old(Times(ring)); Times(rest) == if Reuses(was, ticks) then was[..|was| - 1] else was
      ensures forall m :: m in old(ring) && m != n ==> m.cs == old(m.cs)
    {
      hide Distinct, After, Before, Without, Ring, CsRing, HashCode, NewestFirst, Members, Hashed, Times, Reuses, Dead;
      TimesRest(ticks);
      n, rest := Take(ticks);
      assert forall i :: 0 <= i < |rest| ==> rest[i] == old(ring)[i];
      Enlist(cs, n, rest);
    }

    /** A step of `StoreEcm` on the dates of the nodes. */
    lemma TracedNext(n: Node, rest: seq<Node>, was: seq<nat>, before: seq<Event>, ticks: nat)
      requires ring == [n] + rest && n.recvtime == ticks
      requires Times(rest) == if Reuses(was, ticks) then was[..|was| - 1] else was
      requires run == before + [Stored(ticks)]
      ensures was == Dates(Ran(before)) ==> Traced()
    {
      LastOf(before, Stored(ticks));
      assert ring[1..] == rest;
    }

    lemma CountedNext(n: Node, rest: seq<Node>, was: seq<nat>, tries: seq<nat>, before: seq<Event>, ticks: nat)
      requires ring == [n] + rest && n.period == 1 && |tries| == |was|
      requires Periods(rest) == if Reuses(was, ticks) then tries[..|tries| - 1] else tries
      requires run == before + [Stored(ticks)]
      ensures was == Dates(Ran(before)) && tries == Tries(Ran(before)) ==> Counted()
    {
      hide Ran;
      LastOf(before, Stored(ticks));
      if was == Dates(Ran(before)) && tries == Tries(Ran(before)) {
        var after := Ran(run);
        forall i | 0 <= i < |ring|
          ensures |after| == |ring| && ring[i].period == after[i].retries + 1
        {
          assert i > 0 ==> ring[i] == rest[i - 1] && Periods(rest)[i - 1] == tries[i - 1];
        }
      }
    }

    method Put(cs: Profile, ecm: seq<byte>, sid: bv16, caid: bv16, provid: bv32, md5: seq<byte>, ticks: nat)
      returns (n: Node, ghost rest: seq<Node>)
      requires Valid() && cs in profiles && |ecm| >= 3
      modifies this`ecmdata, this`totalecm, this`ring, ring, profiles
      ensures Valid() && ring == [n] + rest && n !in rest
      ensures if |old(ring)| > 1 && old(Dead(ring[|ring| - 1], ticks))
              then rest == old(ring)[..|old(ring)| - 1] && n == old(ring)[|old(ring)| - 1]
              else rest == old(ring) && fresh(n)
      ensures n.cs == cs && n.Request() == Entry(ecm, HashCode(ecm[3..]), md5, sid, caid, provid, ticks, Wait)
      ensures forall m :: m in old(ring) && m != n ==> m.Request() == old(m.Request()) && m.cs == old(m.cs) && m.period == old(m.period)
      ensures var was := old(Times(ring)); Times(rest) == if Reuses(was, ticks) then was[..|was| - 1] else was
      ensures n.period == 1
      ensures var was := old(Periods(ring)); Periods(rest) == if Reuses(old(Times(ring)), ticks) then was[..|was| - 1] else was
    {
      hide Distinct, After, Before, Without, Ring, CsRing, HashCode, NewestFirst, Members, Hashed, Node.Request, Times, Reuses, Dead, Periods;
      TimesRest(ticks);
      ghost var tries := Periods(ring);
      n, rest := Place(cs, ticks);
      assert forall i :: 0 <= i < |rest| ==> rest[i].period == tries[i];
      n.Fill(ecm, sid, caid, provid, md5, ticks);
      HashedAll(n, rest);
    }

    method StoreEcm(cs: Profile, ecm: seq<byte>, sid: bv16, caid: bv16, provid: bv32, md5: seq<byte>, ticks: nat)
      returns (n: Node)
      requires Valid() && cs in profiles && |ecm| >= 3
      modifies this`ecmdata, this`totalecm, this`ring, this`run, ring, profiles
      ensures Valid() && run == old(run) + [Stored(ticks)] && (old(Traced()) ==> Traced())
      ensures if |old(ring)| > 1 && old(Dead(ring[|ring| - 1], ticks))
              then ring == [n] + old(ring)[..|old(ring)| - 1] && n == old(ring)[|old(ring)| - 1]
              else ring == [n] + old(ring) && fresh(n)
      ensures n.cs == cs && n.Request() == Entry(ecm, HashCode(ecm[3..]), md5, sid, caid, provid, ticks, Wait)
      ensures forall m :: m in old(ring) && m != n ==> m.Request() == old(m.Request()) && m.cs == old(m.cs) && m.period == old(m.period)
      ensures n.period == 1 && (old(Traced()) && old(Counted()) ==> Counted())
    {
      hide Distinct, After, Before, Without, Ring, CsRing, HashCode, NewestFirst, Members, Hashed, Times, Reuses, Dead, Ran, Dates, Periods;
      ghost var rest;
      ghost var tries := Periods(ring);
      n, rest := Put(cs, ecm, sid, caid, provid, md5, ticks);
      run := run + [Stored(ticks)];
      TracedNext(n, rest, old(Times(ring)), old(run), ticks);
      CountedNext(n, rest, old(Times(ring)), tries, old(run), ticks);
    }

    lemma HashOf(s: seq<Node>, i: nat)
      requires Hashed(ring) && i < |s| && s[i] in ring
      ensures |s[i].ecm| >= 3 && s[i].hash == HashCode(s[i].ecm[3..])
    {
      hide HashCode;
    }

    method SearchDcw(ecm: seq<byte>, sid: bv16, ticks: nat) returns (r: Node?)
      requires Valid() && |ecm| >= 3
      ensures r == Search(ring, ByDcw(ecm, sid), ticks)
      ensures IsDcwAnswer(r, ring, ecm, sid, ticks)
    {
      hide NewestFirst, Ring, CsRing, Distinct, Members, Hashed, HashCode, Scan, Lives, Hits, Of, Matches, Live, IsDcwAnswer, Compared;
      ghost var s, q := ring, ByDcw(ecm, sid);
      RingHead(ecmdata, ring);
      RingDistinct(ecmdata, ring);
      var hash := ComputeHash(ecm[3..]);
      var req := ecmdata;
      ghost var i := 0;
      while req != null
        invariant i <= |s| && (req != null ==> i < |s| && req == s[i]) && (req == null ==> i == |s|)
        invariant forall j :: 0 <= j < i ==> Live(s[j], ticks) && !Matches(s[j], q)
        decreases |s| - i
      {
        LiveIs(req, ticks);
        if req.recvtime + TIME_ECMALIVE < ticks {
          ScanIs(Lives(s, ticks), Hits(s, q), i);
          DcwTells(ring, ecm, sid, ticks);
          return null;
        }
        HashOf(s, i);
        DcwMatches(req, ecm, sid);
        if Compared(req, ecm, sid, hash) {
          ScanIs(Lives(s, ticks), Hits(s, q), i);
          DcwTells(ring, ecm, sid, ticks);
          return req;
        }
        RingStep(ecmdata, s, i);
        req := req.next;
        i := i + 1;
        if req == ecmdata {
          break;
        }
      }
      ScanIs(Lives(s, ticks), Hits(s, q), i);
      DcwTells(ring, ecm, sid, ticks);
      return null;
    }

    method SearchAny(cs: Profile, ecm: seq<byte>, sid: bv16, caid: bv16, ticks: nat) returns (r: Node?)
      requires Valid() && |ecm| >= 3 && cs in profiles
      ensures r == Search(Of(ring, cs), ByRequest(ecm, sid, caid), ticks)
      ensures r != null ==> r in Of(ring, cs) && r.recvtime + TIME_ECMALIVE >= ticks && r.ecm == ecm && r.sid == sid && r.caid == caid
      ensures r == null && NewestFirst(Of(ring, cs)) ==> forall n :: n in Of(ring, cs) && n.recvtime + TIME_ECMALIVE >= ticks ==> !(n.ecm == ecm && n.sid == sid && n.caid == caid)
    {
      hide NewestFirst, Ring, CsRing, Distinct, Members, Hashed, HashCode, Scan, Lives, Hits, Of, Matches, Live;
      ghost var s, q := Of(ring, cs), ByRequest(ecm, sid, caid);
      ProfileRing(cs);
      var hash := ComputeHash(ecm[3..]);
      var req := cs.ecmdata;
      ghost var i := 0;
      while req != null
        invariant i <= |s| && (req != null ==> i < |s| && req == s[i]) && (req == null ==> i == |s|)
        invariant forall j :: 0 <= j < i ==> Live(s[j], ticks) && !Matches(s[j], q)
        decreases |s| - i
      {
        LiveIs(req, ticks);
        if req.recvtime + TIME_ECMALIVE < ticks {
          ScanIs(Lives(s, ticks), Hits(s, q), i);
          RequestTells(Of(ring, cs), ecm, sid, caid, ticks);
          return null;
        }
        HashOf(s, i);
        RequestMatches(req, ecm, sid, caid);
        if hash == req.hash && |ecm| == |req.ecm| && sid == req.sid && caid == req.caid && ecm == req.ecm {
          ScanIs(Lives(s, ticks), Hits(s, q), i);
          RequestTells(Of(ring, cs), ecm, sid, caid, ticks);
          return req;
        }
        CsRingStep(cs.ecmdata, s, i);
        req := req.csnext;
        i := i + 1;
        if req == cs.ecmdata {
          break;
        }
      }
      ScanIs(Lives(s, ticks), Hits(s, q), i);
      RequestTells(Of(ring, cs), ecm, sid, caid, ticks);
      return null;
    }

    method SearchByHash(caid: bv16, sid: bv16, hash: bv32, ticks: nat) returns (r: Node?)
      requires Valid()
      ensures r == Search(ring, ByHash(caid, sid, hash), ticks)
      ensures r != null ==> r in ring && r.recvtime + TIME_ECMALIVE >= ticks && r.hash == hash && r.sid == sid && r.caid == caid
      ensures r == null && NewestFirst(ring) ==> forall n :: n in ring && n.recvtime + TIME_ECMALIVE >= ticks ==> !(n.hash == hash && n.sid == sid && n.caid == caid)
    {
      hide NewestFirst, Ring, CsRing, Distinct, Members, Hashed, HashCode, Scan, Lives, Hits, Of, Matches, Live;
      ghost var s, q := ring, ByHash(caid, sid, hash);
      RingHead(ecmdata, ring);
      RingDistinct(ecmdata, ring);
      var req := ecmdata;
      ghost var i := 0;
      while req != null
        invariant i <= |s| && (req != null ==> i < |s| && req == s[i]) && (req == null ==> i == |s|)
        invariant forall j :: 0 <= j < i ==> Live(s[j], ticks) && !Matches(s[j], q)
        decreases |s| - i
      {
        LiveIs(req, ticks);
        if req.recvtime + TIME_ECMALIVE < ticks {
          ScanIs(Lives(s, ticks), Hits(s, q), i);
          HashTells(ring, caid, sid, hash, ticks);
          return null;
        }
        HashMatches(req, caid, sid, hash);
        if hash == req.hash && caid == req.caid && sid == req.sid {
          ScanIs(Lives(s, ticks), Hits(s, q), i);
          HashTells(ring, caid, sid, hash, ticks);
          return req;
        }
        RingStep(ecmdata, s, i);
        req := req.next;
        i := i + 1;
        if req == ecmdata {
          break;
        }
      }
      ScanIs(Lives(s, ticks), Hits(s, q), i);
      HashTells(ring, caid, sid, hash, ticks);
      return null;
    }

    method SearchByMd5(caid: bv16, provid: bv32, ecmd5: seq<byte>, ticks: nat) returns (r: Node?)
      requires Valid()
      ensures r == Search(ring, ByMd5(caid, provid, ecmd5), ticks)
      ensures r != null ==> r in ring && r.recvtime + TIME_ECMALIVE >= ticks && r.ecmd5 == ecmd5 && r.caid == caid && r.provid == provid
      ensures r == null && NewestFirst(ring) ==> forall n :: n in ring && n.recvtime + TIME_ECMALIVE >= ticks ==> !(n.ecmd5 == ecmd5 && n.caid == caid && n.provid == provid)
    {
      hide NewestFirst, Ring, CsRing, Distinct, Members, Hashed, HashCode, Scan, Lives, Hits, Of, Matches, Live;
      ghost var s, q := ring, ByMd5(caid, provid, ecmd5);
      RingHead(ecmdata, ring);
      RingDistinct(ecmdata, ring);
      var req := ecmdata;
      ghost var i := 0;
      while req != null
        invariant i <= |s| && (req != null ==> i < |s| && req == s[i]) && (req == null ==> i == |s|)
        invariant forall j :: 0 <= j < i ==> Live(s[j], ticks) && !Matches(s[j], q)
        decreases |s| - i
      {
        LiveIs(req, ticks);
        if req.recvtime + TIME_ECMALIVE < ticks {
          ScanIs(Lives(s, ticks), Hits(s, q), i);
          Md5Tells(ring, caid, provid, ecmd5, ticks);
          return null;
        }
        Md5Matches(req, caid, provid, ecmd5);
        if caid == req.caid && provid == req.provid && ecmd5 == req.ecmd5 {
          ScanIs(Lives(s, ticks), Hits(s, q), i);
          Md5Tells(ring, caid, provid, ecmd5, ticks);
          return req;
        }
        RingStep(ecmdata, s, i);
        req := req.next;
        i := i + 1;
        if req == ecmdata {
          break;
        }
      }
      ScanIs(Lives(s, ticks), Hits(s, q), i);
      Md5Tells(ring, caid, provid, ecmd5, ticks);
      return null;
    }

    lemma ProfileRing(cs: Profile)
      requires Valid() && cs in profiles
      ensures CsRing(cs.ecmdata, Of(ring, cs))
      ensures cs.ecmdata == null <==> Of(ring, cs) == []
      ensures cs.ecmdata != null ==> cs.ecmdata == Of(ring, cs)[0]
    {
      hide After, Before, Distinct, Of, Ring, HashCode;
    }

    /** Every node is once in the ring of all, once in the ring of its own profile and in the ring of no other. */
    lemma OneRingEach(n: Node, p: Profile)
      requires Valid() && p in profiles
      ensures Distinct(ring) && Distinct(Of(ring, p)) && totalecm == |ring| && p.totalecm == |Of(ring, p)|
      ensures n in Of(ring, p) <==> n in ring && n.cs == p
      ensures n in ring ==> n.cs != null && n.cs in profiles && n in Of(ring, n.cs)
    {
      hide After, Before, CsRing, HashCode, Ring, Of;
      RingDistinct(ecmdata, ring);
      OfDistinct(ring, p);
      OfHas(ring, p, n);
      if n in ring {
        OfHas(ring, n.cs, n);
      }
    }

    /** The ring of all is in the order of the births, and `d` bounds what the retries add to the window: the store holds
        no more nodes than the larger of two and the most stores in one window of `TIME_ECMALIVE * 2 + d`. */
    lemma NodesBounded(d: nat)
      requires Traced() && Ticking(run) && Ahead(run, d)
      ensures |ring| == |Ran(run)| <= |Stores(run)|
      ensures forall i :: 0 <= i < |ring| ==> Ran(run)[i].birth == Stores(run)[|Stores(run)| - 1 - i]
      ensures |ring| <= 2 || Within(Stores(run), |ring|, TIME_ECMALIVE * 2 + d)
    {
      hide Ran, Stores, Within;
      assert |Times(ring)| == |Dates(Ran(run))|;
      RunInBirthOrder(run, if run == [] then 0 else run[|run| - 1].ticks);
      BoundedRun(run, d);
    }

    /** Where every retry is counted against a limit of at most `most`, that is `most` lives more. */
    lemma NodesBoundedByLimit(most: nat)
      requires Traced() && Ticking(run) && Living(run, most)
      ensures |ring| <= 2 || Within(Stores(run), |ring|, TIME_ECMALIVE * 2 + TIME_ECMALIVE * most)
    {
      hide Ran, Stores, Within, Ahead, Living;
      LivingIsAhead(run, most);
      NodesBounded(TIME_ECMALIVE * most);
    }

    /** Without retries both rings stand newest first, and the window is `TIME_ECMALIVE * 2`. */
    lemma RecordedMeans(p: Profile)
      requires Traced() && Ticking(run) && forall i :: 0 <= i < |run| ==> run[i].Stored?
      ensures NewestFirst(ring) && NewestFirst(Of(ring, p))
      ensures |ring| <= 2 || Within(Stores(run), |ring|, TIME_ECMALIVE * 2)
    {
      hide Ran, Stores, Within, Of;
      OnlyStores(run);
      RunInBirthOrder(run, if run == [] then 0 else run[|run| - 1].ticks);
      assert forall i :: 0 <= i < |ring| ==> Times(ring)[i] == Dates(Ran(run))[i] == Ran(run)[i].birth;
      OfNewest(ring, p);
    }

    /** A client asks again for a request that failed: its node is dated anew where it stands. The lookups stay complete at
        every time exactly when each node in front carries that very date. */
    method Retry(n: Node, ticks: nat, ghost k: nat)
      requires Valid() && k < |ring| && ring[k] == n
      modifies n`recvtime, n`dcwstatus, this`run
      ensures Valid() && (old(Traced()) ==> Traced())
      ensures if old(n.dcwstatus) == Failed
              then n.dcwstatus == Wait && n.recvtime == ticks && run == old(run) + [Retried(k, ticks)]
              else n.dcwstatus == old(n.dcwstatus) && n.recvtime == old(n.recvtime) && run == old(run)
      ensures old(n.dcwstatus) == Failed && old(NewestFirst(ring)) && old(ring[0].recvtime) <= ticks ==>
        (Complete(ring) <==> NewestFirst(ring)) && (Complete(ring) <==> forall j :: 0 <= j < k ==> ring[j].recvtime == ticks)
    {
      hide Distinct, Ring, CsRing, HashCode, Members, Hashed, Ran, Dates, Times, Complete, NewestFirst;
      ghost var was := Times(ring);
      TimesOrder(ring);
      if n.dcwstatus == Failed {
        Redate(n, ticks, k);
        run := run + [Retried(k, ticks)];
        TracedRetry(was, old(run), k, ticks);
        CompleteRetry(was, k, ticks);
      }
    }

    /** A client sends a request: when the lookup finds it failed, and the retries are not used up where they are
        counted, it is asked again. */
    method Repeat(cs: Profile, ecm: seq<byte>, sid: bv16, caid: bv16, ticks: nat, limit: Limit, ghost most: nat)
      returns (r: Node?, again: bool)
      requires Valid() && |ecm| >= 3 && cs in profiles
      modifies this`run, ring`recvtime, ring`dcwstatus, ring`period
      ensures Valid() && (old(Traced()) ==> Traced())
      ensures r == old(Search(Of(ring, cs), ByRequest(ecm, sid, caid), ticks))
      ensures again <==> r != null && old(r.dcwstatus) == Failed && (limit.NoLimit? || old(r.period) <= limit.retry)
      ensures again ==> r.dcwstatus == Wait && r.recvtime == ticks && exists k :: 0 <= k < |ring| && ring[k] == r && run == old(run) + [Retried(k, ticks)]
      ensures !again ==> run == old(run) && (r != null ==> r.dcwstatus == old(r.dcwstatus) && r.recvtime == old(r.recvtime))
      ensures forall m :: m in ring && m != r ==> m.recvtime == old(m.recvtime) && m.dcwstatus == old(m.dcwstatus) && m.period == old(m.period)
      ensures limit.AtMost? && limit.retry <= most && old(Traced()) && old(Counted()) && old(Living(run, most)) ==>
        Counted() && Living(run, most)
    {
      hide Distinct, Ring, CsRing, HashCode, Members, Hashed, Ran, Dates, Times, Periods, Tries, Living, Complete, NewestFirst, Search, Of;
      r := SearchAny(cs, ecm, sid, caid, ticks);
      again := false;
      if r != null {
        FoundIs(Of(ring, cs), ByRequest(ecm, sid, caid), ticks);
        OfHas(ring, cs, r);
        ghost var k :| 0 <= k < |ring| && ring[k] == r;
        if r.dcwstatus == Failed && (limit.NoLimit? || r.period <= limit.retry) {
          ghost var was, tries := Times(ring), Periods(ring);
          assert was[k] == r.recvtime && tries[k] == r.period;
          if limit.AtMost? {
            Recount(r, k);
          }
          Retry(r, ticks, k);
          again := true;
          if limit.AtMost? && limit.retry <= most {
            CountedRetry(was, tries, old(run), k, ticks, limit.retry, most);
          }
        }
      }
    }

    method Recount(n: Node, ghost k: nat)
      requires Valid() && k < |ring| && ring[k] == n
      modifies n`period
      ensures Valid() && n.period == old(n.period) + 1 && Periods(ring) == old(Periods(ring))[k := old(n.period) + 1]
    {
      hide After, Before, CsRing, HashCode, Members, Periods;
      RingDistinct(ecmdata, ring);
      ghost var was := Periods(ring);
      n.period := n.period + 1;
      assert Periods(ring) == was[k := was[k] + 1];
    }

    method Redate(n: Node, ticks: nat, ghost k: nat)
      requires Valid() && k < |ring| && ring[k] == n
      modifies n`recvtime, n`dcwstatus
      ensures Valid() && n.recvtime == ticks && n.dcwstatus == Wait && Times(ring) == old(Times(ring))[k := ticks]
    {
      hide After, Before, CsRing, HashCode, Members, Times;
      RingDistinct(ecmdata, ring);
      ghost var was := Times(ring);
      n.recvtime := ticks;
      n.dcwstatus := Wait;
      assert Times(ring) == was[k := ticks];
    }

    lemma TimesOrder(s: seq<Node>)
      ensures NewestFirst(s) <==> Descending(Times(s))
    {
      if Descending(Times(s)) {
        assert forall i, j :: 0 <= i < j < |s| ==> Times(s)[i] >= Times(s)[j];
      }
    }

    /** The ring after a retry, by the dates before it. */
    lemma CompleteRetry(was: seq<nat>, k: nat, ticks: nat)
      requires k < |was| == |ring| && Times(ring) == was[k := ticks]
      ensures Complete(ring) <==> NewestFirst(ring)
      ensures Descending(was) && was[0] <= ticks ==>
        (Complete(ring) <==> forall j :: 0 <= j < k ==> ring[j].recvtime == ticks)
    {
      hide Complete, NewestFirst, Ends, Descending, Times, AlwaysComplete;
      LookupsCompleteIff(ring);
      if Descending(was) && was[0] <= ticks {
        EndsAre(ring, was[k := ticks]);
        RetryOfTimes(was, k, ticks);
        assert forall j :: 0 <= j < k ==> ring[j].recvtime == was[k := ticks][j] == was[j];
      }
    }

    lemma TracedRetry(was: seq<nat>, before: seq<Event>, k: nat, ticks: nat)
      requires k < |ring| == |was| && Times(ring) == was[k := ticks] && run == before + [Retried(k, ticks)]
      ensures was == Dates(Ran(before)) ==> Traced()
    {
      hide Ran;
      LastOf(before, Retried(k, ticks));
      if was == Dates(Ran(before)) {
        assert Dates(Ran(run)) == was[k := ticks];
      }
    }

    lemma CountedRetry(was: seq<nat>, tries: seq<nat>, before: seq<Event>, k: nat, ticks: nat, retry: nat, most: nat)
      requires k < |ring| == |was| == |tries| && Periods(ring) == tries[k := tries[k] + 1] && run == before + [Retried(k, ticks)]
      requires was[k] + TIME_ECMALIVE >= ticks && tries[k] <= retry <= most
      ensures was == Dates(Ran(before)) && tries == Tries(Ran(before)) ==> Counted() && (Living(before, most) ==> Living(run, most))
    {
      hide Ran, Living;
      LastOf(before, Retried(k, ticks));
      LivingLast(before, Retried(k, ticks), most);
      if was == Dates(Ran(before)) && tries == Tries(Ran(before)) {
        assert Tries(Ran(run)) == tries[k := tries[k] + 1];
      }
    }

    lemma Parts()
      requires Valid()
      ensures Distinct(ring)
    {
    }

    /** The answer to a request. */
    method Answer(n: Node, status: Status)
      requires Valid()
      modifies n`dcwstatus
      ensures Valid() && n.dcwstatus == status && Traced() == old(Traced())
    {
      hide Distinct, After, Before, Ring, CsRing, HashCode, Members, Ran, Dates, Times;
      n.dcwstatus := status;
    }
  }

  // ---- What a retry does to a store

  const FIRST: seq<byte> := [0x80, 0, 1, 7]
  const OTHER: seq<byte> := [0x80, 0, 1, 8]

  /** A store of two profiles with one request of the first. */
  method OneRequest(ticks: nat) returns (s: Store, p: Profile, q: Profile, n: Node)
    ensures fresh(s) && fresh(s.ring) && fresh(s.profiles) && p in s.profiles && q in s.profiles && p != q
    ensures s.Valid() && s.Traced() && s.run == [Stored(ticks)] && s.ring == [n]
    ensures n.cs == p && n.Request() == First(ticks, Wait) && n.recvtime == ticks
  {
    hide *;
    p := new Profile();
    q := new Profile();
    s := new Store({p, q});
    Numbers();
    n := s.StoreEcm(p, FIRST, 1, 0x0100, 0, [], ticks);
    FirstIs(n, ticks, Wait);
  }

  /** The node carries the first request of `p` and that date. */
  ghost predicate Asked(n: Node, p: Profile, date: nat)
    reads n
  {
    n.cs == p && n.Request() == First(date, n.dcwstatus)
  }

  function First(date: nat, status: Status): Entry {
    Entry(FIRST, HashCode(FIRST[3..]), [], 1, 0x0100, 0, date, status)
  }

  lemma FirstIs(n: Node, date: nat, status: Status)
    ensures First(date, status) == Entry(FIRST, HashCode(FIRST[3..]), [], 1, 0x0100, 0, date, status)
    ensures n.Request() == First(date, status) ==> n.recvtime == date && n.dcwstatus == status && (n.cs != null ==> Asked(n, n.cs, date))
    ensures n.cs != null && Asked(n, n.cs, date) ==> n.Request() == First(date, n.dcwstatus) && n.recvtime == date
  {
  }

  /** No other node is of the profile `p`. */
  ghost predicate Alone(s: seq<Node>, n: Node, p: Profile)
    reads s`cs
  {
    forall m :: m in s && m != n ==> m.cs != p
  }

  /** The only node of a profile is what the lookup by request finds. */
  lemma FoundAlone(s: seq<Node>, n: Node, p: Profile, date: nat, ticks: nat)
    requires Distinct(s) && n in s && Asked(n, p, date) && date + TIME_ECMALIVE >= ticks
    requires Alone(s, n, p)
    ensures Search(Of(s, p), ByRequest(FIRST, 1, 0x0100), ticks) == n
  {
    hide Of, HashCode;
    OfOnly(s, n, p);
    ScanIs(Lives([n], ticks), Hits([n], ByRequest(FIRST, 1, 0x0100)), 0);
  }

  lemma {:induction false} OfOnly(s: seq<Node>, n: Node, p: Profile)
    requires Distinct(s) && n in s && n.cs == p && Alone(s, n, p)
    ensures Of(s, p) == [n]
  {
    if s[0] == n {
      OfNone(s[1..], p);
    } else {
      OfOnly(s[1..], n, p);
    }
  }

  lemma {:induction false} OfNone(s: seq<Node>, p: Profile)
    requires forall m :: m in s ==> m.cs != p
    ensures Of(s, p) == []
  {
    if s != [] {
      OfNone(s[1..], p);
    }
  }

  lemma Numbers()
    ensures |FIRST| == |OTHER| == 4 && TIME_ECMALIVE == 17000
  {
  }

  /** The client of the first request asks again, where retries are not counted. */
  method AskAgain(s: Store, p: Profile, n: Node, ghost date: nat, ticks: nat, ghost k: nat)
    requires s.Valid() && s.Traced() && p in s.profiles && k < |s.ring| && s.ring[k] == n && Asked(n, p, date)
    requires n.recvtime == date && date + TIME_ECMALIVE >= ticks && Alone(s.ring, n, p)
    modifies s`run, s.ring`recvtime, s.ring`dcwstatus, s.ring`period
    ensures s.Valid() && s.Traced()
    ensures s.run == old(s.run) + [Retried(k, ticks)]
    ensures Asked(n, p, ticks) && n.recvtime == ticks
    ensures forall m :: m in s.ring && m != n ==> m.recvtime == old(m.recvtime)
  {
    hide Store.Valid, Store.Traced, Of, Search, HashCode;
    s.Parts();
    FoundAlone(s.ring, n, p, date, ticks);
    s.Answer(n, Failed);
    FoundAlone(s.ring, n, p, date, ticks);
    Numbers();
    var r, again := s.Repeat(p, FIRST, 1, 0x0100, ticks, NoLimit, 0);
    ghost var j :| 0 <= j < |s.ring| && s.ring[j] == n && s.run == old(s.run) + [Retried(j, ticks)];
  }

  /** Two stores, and the older request fails and is asked again: eighteen seconds after the start the lookup stops at the
      other one and returns null, although the request it asks for lives in the ring. */
  method LostLookup() returns (s: Store, n: Node, r: Node?)
    ensures s.Valid() && s.Traced() && s.run == [Stored(1000), Stored(1100), Retried(1, 10000)]
    ensures n in s.ring && Live(n, 18200) && Matches(n, ByHash(n.caid, n.sid, n.hash))
    ensures r == null && r == Search(s.ring, ByHash(n.caid, n.sid, n.hash), 18200)
  {
    hide Distinct, Ring, CsRing, HashCode, Ran, Dates, Times, Reuses, Store.Members, Store.Hashed, Complete, NewestFirst;
    var q;
    s, q, n := RetriedStore(10000);
    r := s.SearchByHash(n.caid, n.sid, n.hash, 18200);
    ScanIs(Lives(s.ring, 18200), Hits(s.ring, ByHash(n.caid, n.sid, n.hash)), 0);
  }

  /** A store of two requests, the older of which was asked again. */
  method RetriedStore(ticks: nat) returns (s: Store, q: Profile, n: Node)
    requires 1100 <= ticks <= 18000
    ensures fresh(s) && fresh(s.ring) && fresh(s.profiles) && q in s.profiles
    ensures s.Valid() && s.Traced() && s.run == [Stored(1000), Stored(1100), Retried(1, ticks)]
    ensures |s.ring| == 2 && s.ring[1] == n && n.recvtime == ticks && s.ring[0].recvtime == 1100
  {
    hide *;
    var p;
    s, p, q, n := OneRequest(1000);
    Numbers();
    var m := s.StoreEcm(q, OTHER, 1, 0x0100, 0, [], 1100);
    FirstIs(n, 1000, Wait);
    RequestDate(m);
    AloneOfTwo(s.ring, n, p);
    AskAgain(s, p, n, 1000, ticks, 1);
  }

  lemma AloneOfTwo(s: seq<Node>, n: Node, p: Profile)
    requires |s| == 2 && s[1] == n && s[0].cs != p
    ensures Alone(s, n, p)
  {
  }

  lemma RequestDate(n: Node)
    ensures n.Request().recvtime == n.recvtime && n.Request().dcwstatus == n.dcwstatus
  {
  }

  /** One retry, and three nodes although no three stores lie in one window. */
  method OverfullStore() returns (s: Store)
    ensures s.Valid() && s.Traced() && Ticking(s.run) && Living(s.run, 1)
    ensures |s.ring| == 3 && Stores(s.run) == [1000, 1100, 35050] && !Within(Stores(s.run), |s.ring|, TIME_ECMALIVE * 2)
  {
    hide *;
    var q, n;
    s, q, n := RetriedStore(17000);
    YoungByDate(s, n);
    Numbers();
    n := s.StoreEcm(q, OTHER, 2, 0x0100, 0, [], 35050);
    NoWindow(s.run);
  }

  lemma YoungByDate(s: Store, n: Node)
    requires n.recvtime == 17000
    ensures !s.Dead(n, 35050)
  {
  }

  lemma NoWindow(run: seq<Event>)
    requires run == [Stored(1000), Stored(1100), Retried(1, 17000), Stored(35050)]
    ensures Ticking(run) && Living(run, 1) && Stores(run) == [1000, 1100, 35050] && !Within(Stores(run), 3, TIME_ECMALIVE * 2)
  {
    hide Ticking, Living, Stores, Ran, Within;
    ThreeNodes();
  }

  /** Where the retries are not counted there is no bound: the first client asks again at the end of every life of its
      request, and every time a request of the other profile has been stored just before. */
  method PileUp(n: nat) returns (s: Store)
    requires n > 0
    ensures s.Valid() && s.Traced() && s.run == Pile(n) && |s.ring| == n
  {
    hide *;
    var p, q, first;
    s, p, q, first := OneRequest(17000);
    PileStarts();
    FirstIs(first, 17000, Wait);
    Numbers();
    AloneFirst(first, p);
    AskAgain(s, p, first, 17000, 17000, 0);
    var i := 1;
    while i < n
      invariant 1 <= i <= n && s.Valid() && s.Traced() && s.run == Pile(i) && |s.ring| == i && s.ring[i - 1] == first
      invariant fresh(s) && (forall j :: 0 <= j < i ==> fresh(s.ring[j])) && fresh(s.profiles) && p in s.profiles && q in s.profiles && p != q
      invariant Asked(first, p, 17000 * i) && first.recvtime == 17000 * i && Alone(s.ring, first, p)
    {
      PileStep(s, p, q, first, i);
      i := i + 1;
    }
  }

  method PileStep(s: Store, p: Profile, q: Profile, first: Node, i: nat)
    requires i > 0 && s.Valid() && s.Traced() && s.run == Pile(i) && |s.ring| == i && s.ring[i - 1] == first
    requires p in s.profiles && q in s.profiles && p != q
    requires Asked(first, p, 17000 * i) && first.recvtime == 17000 * i && Alone(s.ring, first, p)
    modifies s`ecmdata, s`totalecm, s`ring, s`run, s.ring, s.profiles
    ensures s.Valid() && s.Traced() && s.run == Pile(i + 1) && |s.ring| == i + 1 && s.ring[i] == first
    ensures s.profiles == old(s.profiles) && fresh(s.ring[0]) && s.ring[1..] == old(s.ring)
    ensures Asked(first, p, 17000 * (i + 1)) && first.recvtime == 17000 * (i + 1) && Alone(s.ring, first, p)
  {
    hide *;
    Numbers();
    FirstIs(first, 17000 * i, first.dcwstatus);
    AskedOf(first, p, 17000 * i);
    ghost var status, was := first.dcwstatus, s.ring;
    AloneMeans(s.ring, first, p);
    NotDead(s, first, i);
    var m := s.StoreEcm(q, OTHER, 1, 0x0100, 0, [], 17000 * (i + 1));
    FirstIs(first, 17000 * i, status);
    AloneCons(m, was, first, p);
    AskAgain(s, p, first, 17000 * i, 17000 * (i + 1), i);
    PileNext(i);
  }

  lemma PileStarts()
    ensures [Stored(17000)] + [Retried(0, 17000)] == Pile(1)
  {
    assert Pile(0) == [];
  }

  lemma PileNext(i: nat)
    ensures Pile(i + 1) == Pile(i) + [Stored(17000 * (i + 1))] + [Retried(i, 17000 * (i + 1))]
  {
  }

  lemma AskedOf(n: Node, p: Profile, date: nat)
    requires Asked(n, p, date)
    ensures n.cs == p
  {
  }

  lemma NotDead(s: Store, n: Node, i: nat)
    requires n.recvtime == 17000 * i
    ensures !s.Dead(n, 17000 * (i + 1))
  {
  }

  lemma AloneFirst(n: Node, p: Profile)
    ensures Alone([n], n, p)
  {
  }

  lemma AloneMeans(s: seq<Node>, n: Node, p: Profile)
    requires Alone(s, n, p)
    ensures forall m :: m in s && m != n ==> m.cs != p
  {
  }

  lemma AloneCons(m: Node, s: seq<Node>, n: Node, p: Profile)
    requires m.cs != p && forall k :: k in s && k != n ==> k.cs != p
    ensures Alone([m] + s, n, p)
  {
  }
}
