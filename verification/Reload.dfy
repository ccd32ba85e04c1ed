/** Reload of the configuration: two linked lists are reconciled node by node, and the nodes that survive stay the same
    objects, so that their connections live on. */
module Reload {
  import opened ReloadPlan

  datatype ClientSettings = ClientSettings(pass: string, hops: int, ports: seq<int>, mode: int, nodeid: seq<int>, limits: seq<int>)

  datatype ServerSettings = ServerSettings(pass: string, kind: int, deskey: seq<int>, ports: seq<int>, limits: seq<int>)

  /** The settings whose change breaks the connection; those of a cache peer are its share limits. */
  datatype Hard = OfClient(client: ClientSettings) | OfServer(server: ServerSettings) | OfPeer(limits: seq<int>)

  const TYPE_NEWCAMD := 1

  /** The settings of `old_` once it has taken over those of `new_`: the limits of a client in a cache exchange mode and
      the key of a server of another protocol are left alone. */
  function Merged(old_: Hard, new_: Hard): Hard {
    match (old_, new_)
    case (OfClient(a), OfClient(b)) => OfClient(if b.mode == 0 then b else b.(limits := a.limits))
    case (OfServer(a), OfServer(b)) => OfServer(if b.kind == TYPE_NEWCAMD then b else b.(deskey := a.deskey))
    case (OfPeer(_), OfPeer(_)) => new_
    case _ => old_
  }

  predicate SameKind(a: Hard, b: Hard) {
    (a.OfClient? <==> b.OfClient?) && (a.OfServer? <==> b.OfServer?)
  }

  /** A survivor comes to have the settings of its new namesake exactly when those it leaves alone agree. */
  lemma TakesAllIff(old_: Hard, new_: Hard)
    requires SameKind(old_, new_)
    ensures Merged(old_, new_) == new_ <==>
      && (new_.OfClient? ==> new_.client.mode == 0 || old_.client.limits == new_.client.limits)
      && (new_.OfServer? ==> new_.server.kind == TYPE_NEWCAMD || old_.server.deskey == new_.server.deskey)
  {
  }

  /** The settings of a surviving client, one by one: those of its namesake in every mode, but for the limits of a client
      in an exchange mode, which stay. */
  predicate ClientSettled(n: ClientSettings, w: ClientSettings, p: ClientSettings) {
    && n.pass == p.pass && n.hops == p.hops && n.ports == p.ports && n.mode == p.mode && n.nodeid == p.nodeid
    && n.limits == if p.mode == 0 then p.limits else w.limits
  }

  /** Those of a surviving server: the key of a server of another protocol stays. */
  predicate ServerSettled(n: ServerSettings, w: ServerSettings, p: ServerSettings) {
    && n.pass == p.pass && n.kind == p.kind && n.ports == p.ports && n.limits == p.limits
    && n.deskey == if p.kind == TYPE_NEWCAMD then p.deskey else w.deskey
  }

  predicate Settled(now: Hard, was: Hard, new_: Hard) {
    && (was.OfClient? && new_.OfClient? ==> now.OfClient? && ClientSettled(now.client, was.client, new_.client))
    && (was.OfServer? && new_.OfServer? ==> now.OfServer? && ServerSettled(now.server, was.server, new_.server))
    && (was.OfPeer? && new_.OfPeer? ==> now.OfPeer? && now.limits == new_.limits)
  }

  predicate ClientDiffers(w: ClientSettings, p: ClientSettings) {
    || w.pass != p.pass || w.hops != p.hops || w.ports != p.ports || w.mode != p.mode || w.nodeid != p.nodeid
    || (p.mode == 0 && w.limits != p.limits)
  }

  predicate ServerDiffers(w: ServerSettings, p: ServerSettings) {
    || w.pass != p.pass || w.kind != p.kind || w.ports != p.ports || w.limits != p.limits
    || (p.kind == TYPE_NEWCAMD && w.deskey != p.deskey)
  }

  /** One of the settings that are taken over is another one. */
  predicate Differs(was: Hard, new_: Hard) {
    || (was.OfClient? && new_.OfClient? && ClientDiffers(was.client, new_.client))
    || (was.OfServer? && new_.OfServer? && ServerDiffers(was.server, new_.server))
    || (was.OfPeer? && new_.OfPeer? && was.limits != new_.limits)
  }

  lemma MergedMeans(was: Hard, new_: Hard)
    ensures Settled(Merged(was, new_), was, new_) && (Merged(was, new_) != was <==> Differs(was, new_))
  {
  }

  class Node {
    var next: Node?
    var deleted: bool
    var disconnect: bool
    var runtime: bool
    const key: Key
    var hard: Hard
    var soft: seq<int>
    var info: seq<int>

    constructor (key: Key, hard: Hard, soft: seq<int>, info: seq<int>, runtime: bool)
      ensures next == null && !deleted && !disconnect && this.runtime == runtime
      ensures this.key == key && this.hard == hard && this.soft == soft && this.info == info
    {
      next, deleted, disconnect, this.runtime := null, false, false, runtime;
      this.key, this.hard, this.soft, this.info := key, hard, soft, info;
    }
  }

  class List {
    var head: Node?
    ghost var nodes: seq<Node>

    constructor ()
      ensures head == null && nodes == []
    {
      head, nodes := null, [];
    }

    ghost predicate Valid()
      reads this, nodes`next
    {
      Linked(head, nodes)
    }
  }

  ghost predicate Linked(head: Node?, s: seq<Node>)
    reads s`next
  {
    && (forall i, j :: 0 <= i < j < |s| ==> s[i] != s[j])
    && head == (if s == [] then null else s[0])
    && forall i :: 0 <= i < |s| ==> s[i].next == After(s, i)
  }

  function After(s: seq<Node>, i: nat): Node?
    requires i < |s|
  {
    if i + 1 < |s| then s[i + 1] else null
  }

  function Keys(s: seq<Node>): (k: seq<Key>)
    ensures |k| == |s| && forall i :: 0 <= i < |s| ==> k[i] == s[i].key
  {
    if s == [] then [] else Keys(s[..|s| - 1]) + [s[|s| - 1].key]
  }

  ghost function Flags(s: seq<Node>): (f: seq<bool>)
    reads s`deleted
    ensures |f| == |s| && forall i :: 0 <= i < |s| ==> f[i] == s[i].deleted
  {
    if s == [] then [] else Flags(s[..|s| - 1]) + [s[|s| - 1].deleted]
  }

  // ---- Lists

  /** Adds a node at the end. */
  method Append(l: List, n: Node)
    requires l.Valid() && n !in l.nodes
    modifies l, l.nodes`next, n`next
    ensures l.Valid() && l.nodes == old(l.nodes) + [n]
  {
    n.next := null;
    var tmp := l.head;
    if tmp != null {
      ghost var i := 0;
      while tmp.next != null
        invariant i < |l.nodes| && tmp == l.nodes[i]
        decreases |l.nodes| - i
      {
        tmp := tmp.next;
        i := i + 1;
      }
      tmp.next := n;
    } else {
      l.head := n;
    }
    l.nodes := l.nodes + [n];
  }

  /** Takes the node after `prev` out. */
  method Unlink(l: List, prev: Node?, n: Node, ghost k: nat)
    requires l.Valid() && k < |l.nodes| && l.nodes[k] == n && prev == if k == 0 then null else l.nodes[k - 1]
    modifies l, l.nodes`next
    ensures l.Valid() && l.nodes == old(l.nodes)[..k] + old(l.nodes)[k + 1..]
    ensures forall i :: 0 <= i < |l.nodes| ==> l.nodes[i] in old(l.nodes) && l.nodes[i] != n
  {
    ghost var s := l.nodes;
    if prev != null {
      prev.next := n.next;
    } else {
      l.head := n.next;
    }
    ghost var t := s[..k] + s[k + 1..];
    forall i | 0 <= i < |t|
      ensures t[i].next == After(t, i)
    {
      assert t[i] == s[if i < k then i else i + 1];
    }
    l.nodes := l.nodes[..k] + l.nodes[k + 1..];
  }

  // ---- Moving nodes from one list to another

  lemma PickNext(s: seq<Node>, f: seq<bool>, b: bool, i: nat)
    requires |f| == |s| && i < |s|
    ensures Pick(s[..i + 1], f[..i + 1], b) == if f[i] == b then Pick(s[..i], f[..i], b) + [s[i]] else Pick(s[..i], f[..i], b)
  {
    assert s[..i + 1][..i] == s[..i] && f[..i + 1][..i] == f[..i];
  }

  lemma PickFrom(s: seq<Node>, f: seq<bool>, b: bool)
    requires |f| == |s|
    ensures forall n :: n in Pick(s, f, b) ==> n in s
  {
    forall n | n in Pick(s, f, b)
      ensures n in s
    {
      assert n in multiset(Pick(s, f, b));
      PickOnly(s, f, b, n);
    }
  }

  /** One step of the walk: the node at `k` leaves the list for the end of the other one. */
  method MoveOne(from: List, to: List, prev: Node?, n: Node, ghost k: nat)
    requires from.Valid() && to.Valid() && from != to
    requires k < |from.nodes| && from.nodes[k] == n && prev == if k == 0 then null else from.nodes[k - 1]
    requires Apart(from.nodes, to.nodes)
    modifies from, to, from.nodes`next, to.nodes`next
    ensures from.Valid() && to.Valid()
    ensures from.nodes == old(from.nodes)[..k] + old(from.nodes)[k + 1..] && to.nodes == old(to.nodes) + [n]
    ensures Apart(from.nodes, to.nodes)
  {
    hide Linked;
    Unlink(from, prev, n, k);
    Append(to, n);
  }

  /** Moves the nodes whose mark is `b`; the others stay, and both keep their order. */
  method Move(from: List, to: List, b: bool, ghost all: set<Node>)
    requires from.Valid() && to.Valid() && from != to
    requires Apart(from.nodes, to.nodes) && Within(from.nodes, all) && Within(to.nodes, all)
    modifies from, to, all`next
    ensures from.Valid() && to.Valid() && Within(from.nodes, all) && Within(to.nodes, all)
    ensures from.nodes == Pick(old(from.nodes), Flags(old(from.nodes)), !b)
    ensures to.nodes == old(to.nodes) + Pick(old(from.nodes), Flags(old(from.nodes)), b)
    ensures Apart(from.nodes, to.nodes)
  {
    hide Linked, Pick, Flags, Apart, Within, Foremost, Hindmost, List.Valid, After;
    ghost var s, t, f := from.nodes, to.nodes, Flags(from.nodes);
    ghost var i: nat, stay: seq<Node>, gone: seq<Node>, rest := 0, [], [], s;
    var prev: Node? := null;
    var n := from.head;
    LinkedFacts(from);
    PickNone(s[..0], f[..0]);
    assert s == stay + rest && t == t + gone;
    while n != null
      invariant i <= |s| && rest == s[i..] && n == Foremost(rest) && prev == Hindmost(stay)
      invariant from.Valid() && to.Valid() && Apart(from.nodes, to.nodes)
      invariant from.nodes == stay + rest && to.nodes == t + gone
      invariant stay == Pick(s[..i], f[..i], !b) && gone == Pick(s[..i], f[..i], b)
      invariant forall j :: 0 <= j < |s| ==> s[j].deleted == f[j]
      invariant Within(from.nodes, all) && Within(to.nodes, all)
      decreases |rest|
    {
      Ends(rest, stay, n);
      PickNext(s, f, b, i);
      PickNext(s, f, !b, i);
      assert n == s[i];
      var next := Pass(from, to, b, prev, n, stay, rest, all);
      if n.deleted == b {
        gone := gone + [n];
      } else {
        prev := n;
        stay := stay + [n];
      }
      n := next;
      i := i + 1;
      rest := rest[1..];
    }
    Ends(rest, stay, n);
    assert s[..i] == s && f[..i] == f && stay + rest == stay;
  }

  lemma Ends(rest: seq<Node>, stay: seq<Node>, n: Node?)
    requires n == Foremost(rest)
    ensures n == null <==> rest == []
    ensures n != null ==> rest[0] == n && Hindmost(stay + [n]) == n
  {
  }

  function Foremost(s: seq<Node>): Node? {
    if s == [] then null else s[0]
  }

  function Hindmost(s: seq<Node>): Node? {
    if s == [] then null else s[|s| - 1]
  }

  predicate Within(s: seq<Node>, all: set<Node>) {
    forall i :: 0 <= i < |s| ==> s[i] in all
  }

  ghost predicate Apart(s: seq<Node>, t: seq<Node>) {
    forall i :: 0 <= i < |s| ==> s[i] !in t
  }

  /** One step of the walk: the node after `stay` goes over when its mark is `b`. */
  method Pass(from: List, to: List, b: bool, prev: Node?, n: Node, ghost stay: seq<Node>, ghost rest: seq<Node>,
              ghost all: set<Node>) returns (next: Node?)
    requires from.Valid() && to.Valid() && from != to && Apart(from.nodes, to.nodes)
    requires Within(from.nodes, all) && Within(to.nodes, all)
    requires from.nodes == stay + rest && rest != [] && rest[0] == n && prev == Hindmost(stay)
    modifies from, to, all`next
    ensures Within(from.nodes, all) && Within(to.nodes, all)
    ensures from.Valid() && to.Valid() && Apart(from.nodes, to.nodes) && next == Foremost(rest[1..])
    ensures from.nodes == (if n.deleted == b then stay else stay + [n]) + rest[1..]
    ensures to.nodes == if n.deleted == b then old(to.nodes) + [n] else old(to.nodes)
  {
    hide Linked;
    next := NextOf(from, stay, rest, n);
    if n.deleted == b {
      MoveOne(from, to, prev, n, |stay|);
    }
  }

  method NextOf(l: List, ghost stay: seq<Node>, ghost rest: seq<Node>, n: Node) returns (next: Node?)
    requires l.Valid() && l.nodes == stay + rest && rest != [] && rest[0] == n
    ensures next == if |rest| > 1 then rest[1] else null
    ensures stay + rest == stay + [n] + rest[1..] && l.nodes[|stay|] == n
    ensures l.nodes[..|stay|] == stay && l.nodes[|stay| + 1..] == rest[1..]
    ensures stay != [] ==> l.nodes[|stay| - 1] == stay[|stay| - 1]
  {
    next := n.next;
    assert l.nodes[|stay|] == n;
  }

  lemma LinkedFacts(l: List)
    requires l.Valid()
    ensures l.head == Foremost(l.nodes) && Hindmost([]) == null
  {
  }

  lemma PickNone(s: seq<Node>, f: seq<bool>)
    requires |f| == |s| == 0
    ensures forall b :: Pick(s, f, b) == []
  {
  }

  // ---- Matching

  /** The first unmarked node of the list with the name of `n`, unless `n` is marked itself. */
  method FindPartner(l: List, n: Node, ghost ns: seq<Key>, ghost f: seq<bool>) returns (p: Node?, ghost j: nat)
    requires l.Valid() && ns == Keys(l.nodes) && f == Flags(l.nodes)
    ensures j == Found(ns, f, n.key, n.deleted)
    ensures if j < |ns| then p == l.nodes[j] else p == null
  {
    hide Linked, Keys, Flags, First;
    LinkedFacts(l);
    p, j := l.head, 0;
    while p != null && !(!p.deleted && !n.deleted && p.key == n.key)
      invariant j <= |ns| && p == (if j < |ns| then l.nodes[j] else null)
      invariant n.deleted || forall i :: 0 <= i < j ==> f[i] || ns[i] != n.key
      decreases |ns| - j
    {
      NextIs(l, j);
      p := p.next;
      j := j + 1;
    }
    if !n.deleted {
      FirstIs(ns, f, n.key, j);
    }
  }

  lemma NextIs(l: List, i: nat)
    requires l.Valid() && i < |l.nodes|
    ensures l.nodes[i].next == if i + 1 < |l.nodes| then l.nodes[i + 1] else null
  {
  }

  lemma FirstIs(ns: seq<Key>, f: seq<bool>, k: Key, j: nat)
    requires |f| == |ns| && j <= |ns| && (forall i :: 0 <= i < j ==> f[i] || ns[i] != k)
    requires j < |ns| ==> !f[j] && ns[j] == k
    ensures First(ns, f, k) == j
  {
  }

  /** A node takes over the settings of the new configuration, and the other one its list of infos or services. A cache peer
      has none; it counts as configured from then on. */
  method Adopt(n: Node, p: Node)
    requires n != p
    modifies n`disconnect, n`hard, n`soft, n`info, n`runtime, p`info, p`deleted
    ensures p.deleted && n.hard == Merged(old(n.hard), p.hard) && n.soft == p.soft
    ensures n.disconnect == (old(n.disconnect) || old(n.hard) != n.hard)
    ensures if n.hard.OfPeer? then !n.runtime && n.info == old(n.info) && p.info == old(p.info)
            else n.runtime == old(n.runtime) && n.info == old(p.info) && p.info == old(n.info)
  {
    p.deleted := true;
    if n.hard.OfClient? && p.hard.OfClient? {
      AdoptClient(n, p);
    } else if n.hard.OfServer? && p.hard.OfServer? {
      AdoptServer(n, p);
    } else if n.hard.OfPeer? && p.hard.OfPeer? {
      if n.hard.limits != p.hard.limits {
        n.disconnect := true;
        n.hard := p.hard;
      }
    }
    n.soft := p.soft;
    if n.hard.OfPeer? {
      n.runtime := false;
    } else {
      n.info, p.info := p.info, n.info;
    }
  }

  method AdoptClient(n: Node, p: Node)
    requires n != p && n.hard.OfClient? && p.hard.OfClient?
    modifies n`disconnect, n`hard
    ensures n.hard == Merged(old(n.hard), p.hard) && n.disconnect == (old(n.disconnect) || old(n.hard) != n.hard)
  {
    if n.hard.client.pass != p.hard.client.pass {
      n.disconnect := true;
      n.hard := OfClient(n.hard.client.(pass := p.hard.client.pass));
    }
    if n.hard.client.hops != p.hard.client.hops {
      n.disconnect := true;
      n.hard := OfClient(n.hard.client.(hops := p.hard.client.hops));
    }
    if n.hard.client.ports != p.hard.client.ports {
      n.disconnect := true;
      n.hard := OfClient(n.hard.client.(ports := p.hard.client.ports));
    }
    if n.hard.client.mode != p.hard.client.mode {
      n.disconnect := true;
      n.hard := OfClient(n.hard.client.(mode := p.hard.client.mode));
    }
    if n.hard.client.nodeid != p.hard.client.nodeid {
      n.disconnect := true;
      n.hard := OfClient(n.hard.client.(nodeid := p.hard.client.nodeid));
    }
    if n.hard.client.mode == 0 {
      if n.hard.client.limits != p.hard.client.limits {
        n.disconnect := true;
        n.hard := OfClient(n.hard.client.(limits := p.hard.client.limits));
      }
    }
  }

  method AdoptServer(n: Node, p: Node)
    requires n != p && n.hard.OfServer? && p.hard.OfServer?
    modifies n`disconnect, n`hard
    ensures n.hard == Merged(old(n.hard), p.hard) && n.disconnect == (old(n.disconnect) || old(n.hard) != n.hard)
  {
    if n.hard.server.pass != p.hard.server.pass {
      n.disconnect := true;
      n.hard := OfServer(n.hard.server.(pass := p.hard.server.pass));
    }
    if n.hard.server.kind != p.hard.server.kind {
      n.disconnect := true;
      n.hard := OfServer(n.hard.server.(kind := p.hard.server.kind));
    }
    if n.hard.server.kind == TYPE_NEWCAMD && n.hard.server.deskey != p.hard.server.deskey {
      n.disconnect := true;
      n.hard := OfServer(n.hard.server.(deskey := p.hard.server.deskey));
    }
    if n.hard.server.ports != p.hard.server.ports {
      n.disconnect := true;
      n.hard := OfServer(n.hard.server.(ports := p.hard.server.ports));
    }
    if n.hard.server.limits != p.hard.server.limits {
      n.disconnect := true;
      n.hard := OfServer(n.hard.server.(limits := p.hard.server.limits));
    }
  }

  /** What a reload may change of a running node. */
  datatype State = State(hard: Hard, disconnect: bool, deleted: bool, runtime: bool)

  function StateOf(n: Node): State
    reads n`hard, n`disconnect, n`deleted, n`runtime
  {
    State(n.hard, n.disconnect, n.deleted, n.runtime)
  }

  ghost function States(s: seq<Node>): (f: seq<State>)
    reads s`hard, s`disconnect, s`deleted, s`runtime
    ensures |f| == |s| && forall i :: 0 <= i < |s| ==> f[i] == StateOf(s[i])
  {
    if s == [] then [] else States(s[..|s| - 1]) + [StateOf(s[|s| - 1])]
  }

  /** A cache peer that was made at run time. */
  predicate Held(w: State) {
    w.hard.OfPeer? && w.runtime
  }

  /** Which nodes were marked for deletion before the reload. */
  function Gone(was: seq<State>): (f: seq<bool>)
    ensures |f| == |was| && forall i :: 0 <= i < |was| ==> f[i] == was[i].deleted
  {
    seq(|was|, i requires 0 <= i < |was| => was[i].deleted)
  }

  function Helds(was: seq<State>): (f: seq<bool>)
    ensures |f| == |was| && forall i :: 0 <= i < |was| ==> f[i] == Held(was[i])
  {
    seq(|was|, i requires 0 <= i < |was| => Held(was[i]))
  }

  /** What the first `i` old nodes look like after the matching; `was` is what all of them looked like before. */
  ghost predicate Matched(s: seq<Node>, t: seq<Node>, m: Marks, i: nat, was: seq<State>)
    requires i <= |s| == |was| && |m.kept| == |m.partner| == i && |m.taken| == |t|
    reads s`deleted, t`deleted, s`hard, s`soft, s`disconnect, s`runtime, t`hard, t`soft
  {
    && (forall j :: 0 <= j < i ==> s[j].deleted == !(m.kept[j] || (Held(was[j]) && !was[j].deleted)))
    && (forall j :: 0 <= j < i && !m.kept[j] ==> s[j].hard == was[j].hard && s[j].disconnect == was[j].disconnect && s[j].runtime == was[j].runtime)
    && (forall j :: i <= j < |s| ==> StateOf(s[j]) == was[j])
    && (forall j :: 0 <= j < |t| ==> t[j].deleted == m.taken[j])
    && (forall j :: 0 <= j < i && m.kept[j] && m.partner[j] < |t| ==> Renewed(s[j], t[m.partner[j]], was[j]))
  }

  /** A node that survives has taken over the settings of its new namesake, and is cut off exactly when one that matters
      changed. */
  predicate Renewed(n: Node, p: Node, was: State)
    reads n`hard, n`soft, n`disconnect, n`runtime, p`hard, p`soft
  {
    && n.hard == Merged(was.hard, p.hard) && n.soft == p.soft && n.disconnect == (was.disconnect || was.hard != n.hard)
    && n.runtime == (was.runtime && !n.hard.OfPeer?)
  }

  method MarkOne(live: List, other: List, ghost ks: seq<Key>, ghost ns: seq<Key>, ghost i: nat, ghost was: seq<State>, n: Node)
    requires live.Valid() && other.Valid() && Apart(live.nodes, other.nodes)
    requires ks == Keys(live.nodes) && ns == Keys(other.nodes) && i < |ks| && n == live.nodes[i] && |was| == |ks|
    requires Matched(live.nodes, other.nodes, Mark(ks, Gone(was), ns, i), i, was)
    modifies n`deleted, n`hard, n`soft, n`disconnect, n`runtime, n`info, other.nodes`deleted, other.nodes`info
    ensures Matched(live.nodes, other.nodes, Mark(ks, Gone(was), ns, i + 1), i + 1, was)
  {
    hide Linked, Keys, First, Found, Mark, Renewed, Flags, Matched;
    ghost var m := Mark(ks, Gone(was), ns, i);
    StillUnmarked(live.nodes, other.nodes, m, i, was);
    MarkNext(ks, Gone(was), ns, i);
    DistinctNodes(live);
    DistinctNodes(other);
    var p, j := FindPartner(other, n, ns, m.taken);
    if p != null {
      MarkFound(live.nodes, other.nodes, m, i, was, n, p, j);
    } else {
      MarkMissing(live.nodes, other.nodes, m, i, was, n, |ns|);
    }
  }

  lemma StillUnmarked(s: seq<Node>, t: seq<Node>, m: Marks, i: nat, was: seq<State>)
    requires i < |s| == |was| && |m.kept| == |m.partner| == i && |m.taken| == |t|
    requires Matched(s, t, m, i, was)
    ensures s[i].deleted == was[i].deleted && Flags(t) == m.taken
  {
  }

  method MarkFound(ghost s: seq<Node>, ghost t: seq<Node>, ghost m: Marks, ghost i: nat, ghost was: seq<State>,
                   n: Node, p: Node, ghost j: nat)
    requires i < |s| == |was| && |m.kept| == |m.partner| == i && |m.taken| == |t| && Matched(s, t, m, i, was)
    requires Apart(s, t) && s[i] == n && j < |t| && t[j] == p && !n.deleted
    requires (forall i, j :: 0 <= i < j < |s| ==> s[i] != s[j]) && forall i, j :: 0 <= i < j < |t| ==> t[i] != t[j]
    modifies n`deleted, n`hard, n`soft, n`disconnect, n`runtime, n`info, p`deleted, p`info
    ensures Matched(s, t, Marks(m.kept + [true], m.taken[j := true], m.partner + [j]), i + 1, was)
  {
    hide Renewed, Merged, Held;
    Adopt(n, p);
    RenewedIs(n, p, was[i]);
  }

  method MarkMissing(ghost s: seq<Node>, ghost t: seq<Node>, ghost m: Marks, ghost i: nat, ghost was: seq<State>,
                     n: Node, ghost j: nat)
    requires i < |s| == |was| && |m.kept| == |m.partner| == i && |m.taken| == |t| && Matched(s, t, m, i, was)
    requires Apart(s, t) && s[i] == n && j == |t|
    requires forall i, j :: 0 <= i < j < |s| ==> s[i] != s[j]
    modifies n`deleted
    ensures Matched(s, t, Marks(m.kept + [false], m.taken, m.partner + [j]), i + 1, was)
  {
    hide Renewed;
    if !(n.hard.OfPeer? && n.runtime) {
      n.deleted := true;
    }
  }

  lemma RenewedIs(n: Node, p: Node, was: State)
    requires n.hard == Merged(was.hard, p.hard) && n.soft == p.soft && n.disconnect == (was.disconnect || was.hard != n.hard)
    requires n.runtime == (was.runtime && !n.hard.OfPeer?)
    ensures Renewed(n, p, was)
  {
  }

  lemma DistinctNodes(l: List)
    requires l.Valid()
    ensures forall i, j :: 0 <= i < j < |l.nodes| ==> l.nodes[i] != l.nodes[j]
  {
  }

  method MarkAll(live: List, other: List, ghost ks: seq<Key>, ghost ns: seq<Key>, ghost was: seq<State>)
    requires live.Valid() && other.Valid() && Apart(live.nodes, other.nodes)
    requires ks == Keys(live.nodes) && ns == Keys(other.nodes) && was == States(live.nodes)
    requires Unmarked(other.nodes)
    modifies live.nodes`deleted, live.nodes`hard, live.nodes`soft, live.nodes`disconnect, live.nodes`runtime, live.nodes`info
    modifies other.nodes`deleted, other.nodes`info
    ensures Matched(live.nodes, other.nodes, Mark(ks, Gone(was), ns, |ks|), |ks|, was)
  {
    hide Linked, Keys, Mark, Matched, States, Apart;
    LinkedFacts(live);
    var n := live.head;
    ghost var i := 0;
    NothingMatched(live.nodes, other.nodes, ks, ns, was);
    while n != null
      invariant i <= |ks| && n == (if i < |ks| then live.nodes[i] else null)
      invariant Matched(live.nodes, other.nodes, Mark(ks, Gone(was), ns, i), i, was)
      decreases |ks| - i
    {
      NextIs(live, i);
      MarkOne(live, other, ks, ns, i, was, n);
      n := n.next;
      i := i + 1;
    }
  }

  ghost predicate Unmarked(s: seq<Node>)
    reads s`deleted
  {
    forall i :: 0 <= i < |s| ==> !s[i].deleted
  }

  lemma NothingMatched(s: seq<Node>, t: seq<Node>, ks: seq<Key>, ns: seq<Key>, was: seq<State>)
    requires Unmarked(t) && was == States(s) && |ks| == |s| && |ns| == |t|
    ensures Matched(s, t, Mark(ks, Gone(was), ns, 0), 0, was)
  {
  }

  // ---- The reload

  /** `update_cccam_clients`, `update_servers` and `update_cache_peers`: `live` is the running list, of which some nodes may
      have been marked for deletion before, `other` the one just read. */
  method Update(live: List, other: List)
    requires live.Valid() && other.Valid() && live != other && Apart(live.nodes, other.nodes)
    requires Unmarked(other.nodes)
    modifies live, other, live.nodes, other.nodes
    ensures live.Valid() && other.Valid() && Apart(live.nodes, other.nodes) && Unmarked(live.nodes)
    ensures var s, t, was := old(live.nodes), old(other.nodes), old(States(live.nodes));
      var m := Mark(Keys(s), Gone(was), Keys(t), |s|);
      && Outcome(s, t, was, live.nodes, other.nodes)
      && (forall j :: 0 <= j < |s| && m.kept[j] ==> Taken(s[j], t[m.partner[j]], was[j]))
      && (forall j :: 0 <= j < |s| && !m.kept[j] && Held(was[j]) && !was[j].deleted ==> StateOf(s[j]) == was[j])
  {
    hide Linked, Keys, Mark, States, Flags, Pick, Matched, Renewed, After, List.Valid, Within, Apart, Unmarked, Marked, Outcome, Taken;
    ghost var s, t, was := live.nodes, other.nodes, States(live.nodes);
    ghost var m := Mark(Keys(s), Gone(was), Keys(t), |s|);
    ghost var all := (set n | n in s) + (set n | n in t);
    AllWithin(s, t, all);
    MarkAll(live, other, Keys(s), Keys(t), was);
    MatchedFlags(s, t, m, was);
    Exchange(live, other, Stays(m.kept, Gone(was), Helds(was)), m.taken, all);
    OutcomeIs(s, t, was, live.nodes, other.nodes);
    AllTaken(s, t, m, was);
    UnmarkedLive(s, t, Stays(m.kept, Gone(was), Helds(was)), m.taken, live.nodes);
  }

  /** A survivor next to its namesake: settled, and cut off exactly when it was before or a setting differs. */
  predicate Taken(n: Node, p: Node, was: State)
    reads n`hard, n`soft, n`disconnect, n`runtime, p`hard, p`soft
  {
    && Settled(n.hard, was.hard, p.hard) && n.soft == p.soft
    && (n.disconnect <==> was.disconnect || Differs(was.hard, p.hard))
    && n.runtime == (was.runtime && !n.hard.OfPeer?)
  }

  lemma AllTaken(s: seq<Node>, t: seq<Node>, m: Marks, was: seq<State>)
    requires |s| == |was| && |m.kept| == |m.partner| == |s|
    requires forall j :: 0 <= j < |s| && m.kept[j] ==> m.partner[j] < |t| && Renewed(s[j], t[m.partner[j]], was[j])
    ensures forall j :: 0 <= j < |s| && m.kept[j] ==> Taken(s[j], t[m.partner[j]], was[j])
  {
    hide Settled, Differs, Merged;
    forall j | 0 <= j < |s| && m.kept[j]
      ensures Taken(s[j], t[m.partner[j]], was[j])
    {
      MergedMeans(was[j].hard, t[m.partner[j]].hard);
    }
  }

  lemma OutcomeIs(s: seq<Node>, t: seq<Node>, was: seq<State>, live: seq<Node>, other: seq<Node>)
    requires |was| == |s|
    requires var m := Mark(Keys(s), Gone(was), Keys(t), |s|); var stay := Stays(m.kept, Gone(was), Helds(was));
      live == Pick(s, stay, true) + Pick(t, m.taken, false) && other == Pick(t, m.taken, true) + Pick(s, stay, false)
    ensures Outcome(s, t, was, live, other)
  {
  }

  lemma UnmarkedLive(s: seq<Node>, t: seq<Node>, stay: seq<bool>, taken: seq<bool>, live: seq<Node>)
    requires |stay| == |s| && |taken| == |t| && Marked(s, t, stay, taken) && live == Pick(s, stay, true) + Pick(t, taken, false)
    ensures Unmarked(live)
  {
    hide Pick;
    var p, q := Pick(s, stay, true), Pick(t, taken, false);
    forall i | 0 <= i < |live|
      ensures !live[i].deleted
    {
      if i < |p| {
        assert p[i] in multiset(p);
        PickOnly(s, stay, true, p[i]);
      } else {
        assert q[i - |p|] in multiset(q);
        PickOnly(t, taken, false, q[i - |p|]);
      }
    }
  }

  /** Moves the new nodes that found no partner and the old ones that are to go. */
  method Exchange(live: List, other: List, ghost stay: seq<bool>, ghost taken: seq<bool>, ghost all: set<Node>)
    requires live.Valid() && other.Valid() && live != other && Apart(live.nodes, other.nodes)
    requires Within(live.nodes, all) && Within(other.nodes, all)
    requires |stay| == |live.nodes| && |taken| == |other.nodes| && Marked(live.nodes, other.nodes, stay, taken)
    requires Flags(other.nodes) == taken
    modifies live, other, all`next
    ensures live.Valid() && other.Valid() && Apart(live.nodes, other.nodes)
    ensures live.nodes == Pick(old(live.nodes), stay, true) + Pick(old(other.nodes), taken, false)
    ensures other.nodes == Pick(old(other.nodes), taken, true) + Pick(old(live.nodes), stay, false)
  {
    hide Linked, Flags, Pick, After, List.Valid, Within, Apart, Marked;
    ghost var s, t := live.nodes, other.nodes;
    ApartBack(s, t);
    Move(other, live, false, all);
    ApartBack(other.nodes, live.nodes);
    Move(live, other, true, all);
    SecondMove(s, Pick(t, taken, false), t, stay, taken);
  }

  lemma AllWithin(s: seq<Node>, t: seq<Node>, all: set<Node>)
    requires all == (set n | n in s) + (set n | n in t)
    ensures Within(s, all) && Within(t, all)
  {
  }

  lemma ApartBack(s: seq<Node>, t: seq<Node>)
    ensures Apart(s, t) <==> Apart(t, s)
  {
    if Apart(s, t) {
      assert forall n :: n in s ==> n !in t;
    }
    if Apart(t, s) {
      assert forall n :: n in t ==> n !in s;
    }
  }

  lemma MatchedFlags(s: seq<Node>, t: seq<Node>, m: Marks, was: seq<State>)
    requires |s| == |was| && |m.kept| == |m.partner| == |s| && |m.taken| == |t|
    requires Matched(s, t, m, |s|, was)
    ensures Flags(t) == m.taken && Marked(s, t, Stays(m.kept, Gone(was), Helds(was)), m.taken)
    ensures forall j :: 0 <= j < |s| && m.kept[j] && m.partner[j] < |t| ==> Renewed(s[j], t[m.partner[j]], was[j])
    ensures forall j :: 0 <= j < |s| && !m.kept[j] && Held(was[j]) && !was[j].deleted ==> StateOf(s[j]) == was[j]
  {
    hide Renewed, Held;
  }

  ghost predicate Marked(s: seq<Node>, t: seq<Node>, stay: seq<bool>, taken: seq<bool>)
    requires |stay| == |s| && |taken| == |t|
    reads s`deleted, t`deleted
  {
    (forall j :: 0 <= j < |s| ==> s[j].deleted == !stay[j]) && forall j :: 0 <= j < |t| ==> t[j].deleted == taken[j]
  }

  lemma SecondMove(s: seq<Node>, new_: seq<Node>, t: seq<Node>, stay: seq<bool>, taken: seq<bool>)
    requires |stay| == |s| && |taken| == |t| && new_ == Pick(t, taken, false)
    requires Marked(s, t, stay, taken)
    ensures Pick(s + new_, Flags(s + new_), false) == Pick(s, stay, true) + new_
    ensures Pick(s + new_, Flags(s + new_), true) == Pick(s, stay, false)
  {
    hide Pick, Flags, Marked;
    var f := Flags(new_);
    FlagsOf(s, t, stay, taken, new_);
    assert Flags(s + new_) == Flags(s) + f;
    PickConcat(s, new_, Flags(s), f, true);
    PickConcat(s, new_, Flags(s), f, false);
    PickAll(new_, f, false);
    PickOpposite(s, Flags(s), stay, true);
    PickOpposite(s, Flags(s), stay, false);
  }

  lemma FlagsOf(s: seq<Node>, t: seq<Node>, stay: seq<bool>, taken: seq<bool>, new_: seq<Node>)
    requires |stay| == |s| && |taken| == |t| && new_ == Pick(t, taken, false) && Marked(s, t, stay, taken)
    ensures forall i :: 0 <= i < |s| ==> Flags(s)[i] == !stay[i]
    ensures forall i :: 0 <= i < |new_| ==> !Flags(new_)[i]
  {
    hide Pick, Flags;
    forall i | 0 <= i < |new_|
      ensures !new_[i].deleted
    {
      assert new_[i] in multiset(Pick(t, taken, false));
      PickOnly(t, taken, false, new_[i]);
    }
  }

  // ---- What a reload promises

  lemma {:induction false} KeysPick(s: seq<Node>, f: seq<bool>, b: bool)
    requires |f| == |s|
    ensures Keys(Pick(s, f, b)) == Pick(Keys(s), f, b)
  {
    if s != [] {
      var n := |s| - 1;
      KeysPick(s[..n], f[..n], b);
      assert Keys(s)[..n] == Keys(s[..n]);
      if f[n] == b {
        var p := Pick(s[..n], f[..n], b) + [s[n]];
        assert p[..|p| - 1] == Pick(s[..n], f[..n], b);
      } else {
        assert Pick(s, f, b) == Pick(s[..n], f[..n], b);
      }
    }
  }

  lemma {:induction false} KeysConcat(s: seq<Node>, t: seq<Node>)
    ensures Keys(s + t) == Keys(s) + Keys(t)
  {
    if t == [] {
      assert s + t == s;
    } else {
      assert (s + t)[..|s + t| - 1] == s + t[..|t| - 1];
      KeysConcat(s, t[..|t| - 1]);
    }
  }

  /** The two lists that `Update` leaves behind. */
  predicate Outcome(s: seq<Node>, t: seq<Node>, was: seq<State>, live: seq<Node>, other: seq<Node>)
    requires |was| == |s|
  {
    var m := Mark(Keys(s), Gone(was), Keys(t), |s|);
    var stay := Stays(m.kept, Gone(was), Helds(was));
    live == Pick(s, stay, true) + Pick(t, m.taken, false) && other == Pick(t, m.taken, true) + Pick(s, stay, false)
  }

  /** The nodes that stay although the new configuration does not have them. */
  function Leftover(s: seq<Node>, t: seq<Node>, was: seq<State>): seq<Node>
    requires |was| == |s|
  {
    Pick(s, Left(Mark(Keys(s), Gone(was), Keys(t), |s|).kept, Gone(was), Helds(was)), true)
  }

  /** The running list has the names of the configuration just read, each as often, and those of the cache peers made at
      run time that are neither in it nor marked. */
  lemma LiveHasNewNames(s: seq<Node>, t: seq<Node>, was: seq<State>, live: seq<Node>, other: seq<Node>)
    requires |was| == |s| && Outcome(s, t, was, live, other)
    ensures multiset(Keys(live)) == multiset(Keys(t)) + multiset(Keys(Leftover(s, t, was)))
  {
    hide Keys, Pick, Mark;
    var gone, held := Gone(was), Helds(was);
    var m := Mark(Keys(s), gone, Keys(t), |s|);
    var stay := Stays(m.kept, gone, held);
    KeysConcat(Pick(s, stay, true), Pick(t, m.taken, false));
    KeysPick(s, stay, true);
    KeysPick(t, m.taken, false);
    KeysPick(s, Left(m.kept, gone, held), true);
    LiveNames(Keys(s), gone, held, Keys(t));
  }

  /** Clients and servers: the names of the configuration just read, and no others. */
  lemma NothingLeftOver(s: seq<Node>, t: seq<Node>, was: seq<State>)
    requires |was| == |s| && forall i :: 0 <= i < |s| ==> !was[i].hard.OfPeer?
    ensures Leftover(s, t, was) == []
  {
    hide Pick, Mark, Keys;
    var f := Left(Mark(Keys(s), Gone(was), Keys(t), |s|).kept, Gone(was), Helds(was));
    PickAll(s, f, false);
  }

  /** No node is lost and none is in the lists twice. */
  lemma NodesArePartitioned(s: seq<Node>, t: seq<Node>, was: seq<State>, live: seq<Node>, other: seq<Node>)
    requires |was| == |s| && Outcome(s, t, was, live, other)
    ensures multiset(live) + multiset(other) == multiset(s) + multiset(t)
  {
    hide Keys, Pick, Mark;
    var m := Mark(Keys(s), Gone(was), Keys(t), |s|);
    PickSplits(s, Stays(m.kept, Gone(was), Helds(was)));
    PickSplits(t, m.taken);
  }

  /** How many nodes of that key stand before the one at `i` and were not marked. */
  function Before(s: seq<Node>, was: seq<State>, i: nat): nat
    requires i < |s| == |was|
  {
    multiset(Pick(Keys(s)[..i], Gone(was)[..i], false))[s[i].key]
  }

  /** A running node stays in the running list, as the same object, exactly when it was not marked before and either the
      new configuration has more entries of its name than unmarked ones stand before it, or it is a cache peer made at run
      time. */
  lemma SurvivesIff(s: seq<Node>, t: seq<Node>, was: seq<State>, live: seq<Node>, other: seq<Node>, i: nat)
    requires i < |s| == |was| && Outcome(s, t, was, live, other) && s[i] !in t
    requires forall j :: 0 <= j < |s| && j != i ==> s[j] != s[i]
    ensures s[i] in live <==>
      !was[i].deleted && (Before(s, was, i) < multiset(Keys(t))[s[i].key] || Held(was[i]))
  {
    hide Keys, Pick, Mark;
    var ks, ns := Keys(s), Keys(t);
    var m := Mark(ks, Gone(was), ns, |s|);
    KeptIff(ks, Gone(was), ns, i);
    MarkStays(ks, Gone(was), ns, i, |s|);
    var stay := Stays(m.kept, Gone(was), Helds(was));
    var p, q := Pick(s, stay, true), Pick(t, m.taken, false);
    if stay[i] {
      PickHas(s, stay, true, i);
      assert s[i] in p;
    } else {
      if s[i] in p {
        assert s[i] in multiset(p);
        PickOnly(s, stay, true, s[i]);
      }
      PickFrom(t, m.taken, false);
    }
  }
}
