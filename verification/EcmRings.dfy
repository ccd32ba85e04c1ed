/** The request cache: every node sits in the ring of all requests and in the ring of its own profile. Both rings
    are circular and doubly linked, with null links when they hold a single node. */
module EcmRings {
  import opened Bits
  import opened Rings

  // ---- The hash of a request

  function HashCode(s: seq<byte>): bv32 {
    if s == [] then 0 else Mix(HashCode(s[..|s| - 1]), s[|s| - 1])
  }

  function Mix(h: bv32, b: byte): bv32 {
    31 * h + (b as bv32)
  }

  method ComputeHash(buf: seq<byte>) returns (h: bv32)
    ensures h == HashCode(buf)
  {
    hide Mix;
    h := 0;
    var i := 0;
    while i < |buf|
      invariant 0 <= i <= |buf| && h == HashCode(buf[..i])
    {
      assert buf[..i + 1][..i] == buf[..i];
      h := Mix(h, buf[i]);
      i := i + 1;
    }
    assert buf[..i] == buf;
  }

  // ---- Nodes and rings

  datatype Status = Failed | Wait | WaitCache | WaitDedup | Success

  /** What a node stores about its request. */
  datatype Entry = Entry(ecm: seq<byte>, hash: bv32, ecmd5: seq<byte>, sid: bv16, caid: bv16, provid: bv32, recvtime: nat,
    dcwstatus: Status)

  class Profile {
    var ecmdata: Node?
    var totalecm: int

    constructor ()
      ensures ecmdata == null && totalecm == 0
    {
      ecmdata, totalecm := null, 0;
    }

    /** The ring of this profile is made of the nodes among `s` that belong to it, in the same order. */
    ghost predicate Holds(s: seq<Node>)
      reads this, s`cs, s`csnext, s`csprev
    {
      CsRing(ecmdata, Of(s, this)) && totalecm == |Of(s, this)|
    }
  }

  class Node {
    var next: Node?
    var prev: Node?
    var csnext: Node?
    var csprev: Node?
    var cs: Profile?
    var ecm: seq<byte>
    var hash: bv32
    var ecmd5: seq<byte>
    var sid: bv16
    var caid: bv16
    var provid: bv32
    var recvtime: nat
    var dcwstatus: Status
    var period: nat

    constructor ()
      ensures next == null && prev == null && csnext == null && csprev == null && cs == null
    {
      next, prev, csnext, csprev, cs := null, null, null, null, null;
      ecm, hash, ecmd5, sid, caid, provid, recvtime, dcwstatus, period := [], 0, [], 0, 0, 0, 0, Failed, 0;
    }

    function Request(): Entry
      reads this`ecm, this`hash, this`ecmd5, this`sid, this`caid, this`provid, this`recvtime, this`dcwstatus
    {
      Entry(ecm, hash, ecmd5, sid, caid, provid, recvtime, dcwstatus)
    }

    method Fill(e: seq<byte>, s: bv16, c: bv16, p: bv32, m: seq<byte>, ticks: nat)
      requires |e| >= 3
      modifies this`ecm, this`hash, this`ecmd5, this`sid, this`caid, this`provid, this`recvtime, this`dcwstatus, this`period
      ensures Request() == Entry(e, HashCode(e[3..]), m, s, c, p, ticks, Wait)
      ensures ecm == e && hash == HashCode(e[3..]) && recvtime == ticks && period == 1
    {
      ecm, sid, caid, provid, ecmd5 := e, s, c, p, m;
      hash := ComputeHash(e[3..]);
      recvtime, dcwstatus, period := ticks, Wait, 1;
    }
  }

  /** `s` is the ring that starts at `head`. */
  ghost predicate Ring(head: Node?, s: seq<Node>)
    reads s`next, s`prev
  {
    && Distinct(s)
    && head == (if s == [] then null else s[0])
    && (|s| == 1 ==> s[0].next == null && s[0].prev == null)
    && (|s| > 1 ==> forall i :: 0 <= i < |s| ==> s[i].next == After(s, i) && s[i].prev == Before(s, i))
  }

  /** The same for the links of the profile rings. */
  ghost predicate CsRing(head: Node?, s: seq<Node>)
    reads s`csnext, s`csprev
  {
    && Distinct(s)
    && head == (if s == [] then null else s[0])
    && (|s| == 1 ==> s[0].csnext == null && s[0].csprev == null)
    && (|s| > 1 ==> forall i :: 0 <= i < |s| ==> s[i].csnext == After(s, i) && s[i].csprev == Before(s, i))
  }

  lemma RingDistinct(head: Node?, s: seq<Node>)
    requires Ring(head, s)
    ensures Distinct(s) && (s != [] ==> head == s[0])
  {
  }

  // ---- The ring of a profile

  /** The nodes of a profile, in the order of `s`. */
  ghost function Of(s: seq<Node>, p: Profile): (r: seq<Node>)
    reads s`cs
    ensures forall i :: 0 <= i < |r| ==> r[i] in s && r[i].cs == p
  {
    if s == [] then [] else (if s[0].cs == p then [s[0]] else []) + Of(s[1..], p)
  }

  lemma {:induction false} OfSnoc(s: seq<Node>, n: Node, p: Profile)
    ensures Of(s + [n], p) == if n.cs == p then Of(s, p) + [n] else Of(s, p)
  {
    if s != [] {
      assert (s + [n])[1..] == s[1..] + [n];
      OfSnoc(s[1..], n, p);
    } else {
      assert (s + [n])[1..] == [];
    }
  }

  lemma {:induction false} OfCons(s: seq<Node>, n: Node, p: Profile)
    ensures Of([n] + s, p) == if n.cs == p then [n] + Of(s, p) else Of(s, p)
  {
    assert ([n] + s)[1..] == s;
  }

  lemma {:induction false} OfHas(s: seq<Node>, p: Profile, n: Node)
    ensures n in Of(s, p) <==> n in s && n.cs == p
  {
    if s != [] {
      OfHas(s[1..], p, n);
    }
  }

  lemma {:induction false} OfDistinct(s: seq<Node>, p: Profile)
    requires Distinct(s)
    ensures Distinct(Of(s, p))
  {
    if s != [] {
      OfDistinct(s[1..], p);
      assert s[0] !in s[1..];
    }
  }

  /** A second node beside the only one of a profile. */
  method PairCs(head: Node, n: Node, ghost s: seq<Node>)
    requires CsRing(head, s) && |s| == 1 && n !in s
    modifies n`csnext, n`csprev, s`csnext, s`csprev
    ensures CsRing(n, [n] + s)
  {
    head.csnext := n;
    head.csprev := n;
    n.csnext := head;
    n.csprev := head;
  }

  /** A new node between the oldest and the newest one of a profile. */
  method InsertCs(head: Node, n: Node, ghost s: seq<Node>)
    requires CsRing(head, s) && |s| > 1 && n !in s
    modifies n`csnext, n`csprev, s`csnext, s`csprev
    ensures CsRing(n, [n] + s)
  {
    var prev, next := head.csprev, head;
    n.csnext := next;
    n.csprev := prev;
    prev.csnext := n;
    next.csprev := n;
    ghost var w := [n] + s;
    forall i | 0 <= i < |w|
      ensures w[i].csnext == After(w, i) && w[i].csprev == Before(w, i)
    {
      if i > 0 {
        assert w[i] == s[i - 1];
      }
    }
  }

  lemma SingleCs(n: Node)
    requires n.csnext == null && n.csprev == null
    ensures CsRing(n, [n] + [])
  {
    assert [n] + [] == [n];
  }

  method AddEcmData(cs: Profile, new_: Node, ghost s: seq<Node>)
    requires CsRing(cs.ecmdata, s) && new_ !in s
    modifies cs, s`csnext, s`csprev, new_`csnext, new_`csprev
    ensures CsRing(cs.ecmdata, [new_] + s) && cs.totalecm == old(cs.totalecm) + 1
  {
    hide CsRing;
    CsHead(cs.ecmdata, s);
    if cs.ecmdata == null {
      new_.csnext := null;
      new_.csprev := null;
      SingleCs(new_);
    } else if cs.ecmdata.csnext == null {
      PairCs(cs.ecmdata, new_, s);
    } else {
      InsertCs(cs.ecmdata, new_, s);
    }
    cs.ecmdata := new_;
    cs.totalecm := cs.totalecm + 1;
  }

  lemma CsHead(head: Node?, s: seq<Node>)
    requires CsRing(head, s)
    ensures head == null <==> s == []
    ensures head != null ==> head == s[0] && (head.csnext == null <==> |s| == 1)
  {
  }

  /** Joining the two neighbours of a node of a ring of at least three leaves the ring of the others. */
  method Bridge(cs: Profile, old_: Node, ghost s: seq<Node>, ghost k: nat)
    requires k < |s| && s[k] == old_ && |s| > 2 && Distinct(s)
    requires forall i :: 0 <= i < |s| ==> s[i].csnext == After(s, i) && s[i].csprev == Before(s, i)
    modifies s`csnext, s`csprev
    ensures old_.csnext == old(old_.csnext) && old_.csprev == old(old_.csprev)
    ensures var w := Without(s, k); forall i :: 0 <= i < |w| ==> w[i].csnext == After(w, i) && w[i].csprev == Before(w, i)
  {
    assert After(s, k) in s && Before(s, k) in s;
    assert After(s, k) != Before(s, k) && After(s, k) != old_ && Before(s, k) != old_;
    old_.csprev.csnext := old_.csnext;
    old_.csnext.csprev := old_.csprev;
    ghost var w := Without(s, k);
    forall i | 0 <= i < |w|
      ensures w[i].csnext == After(w, i) && w[i].csprev == Before(w, i)
    {
      hide Distinct, After, Before, Without;
      Neighbours(s, k, i);
    }
  }

  /** How a node tells the size of its ring, and where its neighbours are. */
  lemma RingShape(head: Node?, s: seq<Node>, k: nat)
    requires CsRing(head, s) && k < |s|
    ensures head == s[k] <==> k == 0
    ensures |s| == 1 <==> s[k].csnext == null
    ensures |s| == 2 ==> s[k].csnext == s[1 - k]
    ensures |s| > 1 ==> (s[k].csnext == s[k].csprev <==> |s| == 2)
    ensures |s| > 1 && k == 0 ==> s[k].csnext == s[1]
  {
  }

  lemma WithoutKeeps(s: seq<Node>, k: nat)
    requires Distinct(s) && k < |s|
    ensures Distinct(Without(s, k)) && |Without(s, k)| == |s| - 1
    ensures |s| > 1 ==> Without(s, k)[0] == if k == 0 then s[1] else s[0]
    ensures forall n :: n in Without(s, k) <==> n in s && n != s[k]
    ensures forall i :: 0 <= i < |s| - 1 ==> Without(s, k)[i] in s && Without(s, k)[i] != s[k]
  {
    var w := Without(s, k);
    forall n | n in s && n != s[k]
      ensures n in w
    {
      var i :| 0 <= i < |s| && s[i] == n;
      assert w[if i < k then i else i - 1] == n;
    }
  }

  method DelEcmData(cs: Profile, old_: Node, ghost s: seq<Node>, ghost k: nat)
    requires CsRing(cs.ecmdata, s) && (s != [] ==> k < |s| && s[k] == old_)
    modifies cs, s`csnext, s`csprev, old_`csnext, old_`csprev
    ensures old_.csnext == null && old_.csprev == null
    ensures s == [] ==> cs.ecmdata == null && cs.totalecm == old(cs.totalecm)
    ensures s != [] ==> CsRing(cs.ecmdata, Without(s, k)) && cs.totalecm == old(cs.totalecm) - 1
  {
    hide Distinct, After, Before, Without;
    if cs.ecmdata == null {
      old_.csprev := null;
      old_.csnext := null;
      return;
    }
    RingShape(cs.ecmdata, s, k);
    WithoutKeeps(s, k);
    if cs.ecmdata == old_ {
      if cs.ecmdata.csnext == null {
        cs.ecmdata := null;
      } else {
        cs.ecmdata := old_.csnext;
        if old_.csnext == old_.csprev {
          cs.ecmdata.csnext := null;
          cs.ecmdata.csprev := null;
        } else {
          Bridge(cs, old_, s, k);
        }
      }
    } else if old_.csnext == old_.csprev {
      cs.ecmdata.csnext := null;
      cs.ecmdata.csprev := null;
    } else {
      Bridge(cs, old_, s, k);
    }
    old_.csprev := null;
    old_.csnext := null;
    cs.totalecm := cs.totalecm - 1;
  }

  // ---- The order of a ring

  ghost predicate NewestFirst(s: seq<Node>)
    reads s`recvtime
  {
    forall i, j :: 0 <= i < j < |s| ==> s[i].recvtime >= s[j].recvtime
  }

  ghost function Times(s: seq<Node>): (t: seq<nat>)
    reads s`recvtime
    ensures |t| == |s| && forall i :: 0 <= i < |s| ==> t[i] == s[i].recvtime
  {
    if s == [] then [] else [s[0].recvtime] + Times(s[1..])
  }

  ghost function Periods(s: seq<Node>): (t: seq<nat>)
    reads s`period
    ensures |t| == |s| && forall i :: 0 <= i < |s| ==> t[i] == s[i].period
  {
    if s == [] then [] else [s[0].period] + Periods(s[1..])
  }

  lemma OldestIsLast(s: seq<Node>, n: Node)
    ensures Without(s + [n], |s|) == s
    ensures Distinct(s + [n]) ==> n !in s
  {
    var w := s + [n];
    assert w[..|s|] == s && w[|s|] == n;
    assert forall i :: 0 <= i < |s| ==> s[i] == w[i];
  }

  /** `DelEcmData` for the oldest node of all. */
  method Remove(cs: Profile, n: Node, ghost s: seq<Node>, ghost t: seq<Node>)
    requires cs.Holds(s) && n.cs == cs && s == t + [n] && Distinct(s)
    modifies cs, Of(s, cs)`csnext, Of(s, cs)`csprev
    ensures cs.Holds(t)
  {
    hide Distinct, After, Before, CsRing, Of, Without;
    OfSnoc(t, n, cs);
    ghost var own := Of(t, cs);
    OldestIsLast(own, n);
    assert Of(s, cs) == own + [n];
    assert n == Of(s, cs)[|own|];
    assert n in Of(s, cs);
    DelEcmData(cs, n, own + [n], |own|);
    assert Of(t, cs) == own;
  }

  lemma RingHead(head: Node?, s: seq<Node>)
    requires Ring(head, s)
    ensures head == null <==> s == []
    ensures head != null ==> (head.next == null <==> |s| == 1)
    ensures |s| > 1 ==> head.prev == s[|s| - 1]
  {
  }

  lemma SingleRing(n: Node)
    requires n.next == null && n.prev == null
    ensures Ring(n, [n])
  {
  }

  /** A second node beside the only one. */
  method Pair(head: Node, n: Node, ghost s: seq<Node>)
    requires Ring(head, s) && |s| == 1 && n !in s
    modifies n`next, n`prev, s`next, s`prev
    ensures Ring(n, [n] + s)
  {
    n.prev := head;
    n.next := head;
    head.prev := n;
    head.next := n;
  }

  /** Opens a ring of at least two between its oldest and its newest node. */
  method Insert(head: Node, n: Node, ghost s: seq<Node>)
    requires Ring(head, s) && |s| > 1 && n !in s
    modifies n`next, n`prev, s`next, s`prev
    ensures Ring(n, [n] + s)
  {
    n.prev := head.prev;
    n.next := head;
    n.prev.next := n;
    head.prev := n;
    ghost var w := [n] + s;
    forall i | 0 <= i < |w|
      ensures w[i].next == After(w, i) && w[i].prev == Before(w, i)
    {
      if i > 0 {
        assert w[i] == s[i - 1];
      }
    }
  }

  /** The oldest node of a ring of at least two becomes its newest, where it stands. */
  lemma Rotated(head: Node, n: Node, s: seq<Node>)
    requires Ring(head, s) && |s| > 1 && n == s[|s| - 1]
    ensures Ring(n, [n] + s[..|s| - 1])
    ensures n.next == head
  {
    var w := [n] + s[..|s| - 1];
    forall i | 0 <= i < |w|
      ensures w[i].next == After(w, i) && w[i].prev == Before(w, i)
    {
      assert w[i] == if i == 0 then s[|s| - 1] else s[i - 1];
    }
  }

  lemma {:induction false} OfNewest(s: seq<Node>, p: Profile)
    requires NewestFirst(s)
    ensures NewestFirst(Of(s, p))
  {
    if s != [] {
      ghost var t := s[1..];
      OfNewest(t, p);
      assert forall i :: 0 <= i < |t| ==> t[i] == s[i + 1] && t[i].recvtime <= s[0].recvtime;
      OfNewestCons(s[0], Of(t, p));
      assert Of(s, p) == if s[0].cs == p then [s[0]] + Of(t, p) else Of(t, p);
    }
  }

  lemma OfNewestCons(n: Node, r: seq<Node>)
    requires NewestFirst(r) && forall i :: 0 <= i < |r| ==> r[i].recvtime <= n.recvtime
    ensures NewestFirst([n] + r)
  {
  }
}
