/** Which entries of the running configuration survive a reload, on the names alone. */
module ReloadPlan {
  /** What identifies an entry: a client by its user, a server by its host, port and user, a cache peer by host and port. */
  datatype Key = Client(user: string) | Server(host: int, port: int, user: string) | Peer(host: int, port: int)

  /** After some old entries were looked up: which of them were found, which new ones they took, and which each found. An
      old entry that was marked for deletion before is not looked up. */
  datatype Marks = Marks(kept: seq<bool>, taken: seq<bool>, partner: seq<nat>)

  /** The first new entry with this key that is not taken yet. */
  function First(ns: seq<Key>, taken: seq<bool>, k: Key): (j: nat)
    requires |taken| == |ns|
    ensures j <= |ns|
    ensures j < |ns| ==> ns[j] == k && !taken[j]
    ensures forall i :: 0 <= i < j ==> taken[i] || ns[i] != k
  {
    if ns == [] || (!taken[0] && ns[0] == k) then 0 else 1 + First(ns[1..], taken[1..], k)
  }

  function None(n: nat): (s: seq<bool>)
    ensures |s| == n && forall i :: 0 <= i < n ==> !s[i]
  {
    if n == 0 then [] else None(n - 1) + [false]
  }

  /** The new entry that an old one takes. */
  function Found(ns: seq<Key>, taken: seq<bool>, k: Key, gone: bool): (j: nat)
    requires |taken| == |ns|
    ensures j <= |ns| && (j < |ns| ==> ns[j] == k && !taken[j] && !gone)
  {
    if gone then |ns| else First(ns, taken, k)
  }

  /** The marks after the first `i` old entries, of which `gone` were marked for deletion before. */
  function Mark(ks: seq<Key>, gone: seq<bool>, ns: seq<Key>, i: nat): (m: Marks)
    requires i <= |ks| == |gone|
    ensures |m.kept| == |m.partner| == i && |m.taken| == |ns|
    ensures forall j :: 0 <= j < i ==> m.partner[j] <= |ns| && (m.kept[j] <==> m.partner[j] < |ns|)
    ensures forall j :: 0 <= j < i && m.kept[j] ==> ns[m.partner[j]] == ks[j] && m.taken[m.partner[j]]
  {
    if i == 0 then Marks([], None(|ns|), [])
    else
      var b := Mark(ks, gone, ns, i - 1);
      var j := Found(ns, b.taken, ks[i - 1], gone[i - 1]);
      if j < |ns| then Marks(b.kept + [true], b.taken[j := true], b.partner + [j])
      else Marks(b.kept + [false], b.taken, b.partner + [|ns|])
  }

  lemma MarkNext(ks: seq<Key>, gone: seq<bool>, ns: seq<Key>, i: nat)
    requires i < |ks| == |gone|
    ensures var b, a := Mark(ks, gone, ns, i), Mark(ks, gone, ns, i + 1); var j := Found(ns, b.taken, ks[i], gone[i]);
      && a.kept == b.kept + [j < |ns|] && a.partner == b.partner + [j]
      && a.taken == if j < |ns| then b.taken[j := true] else b.taken
  {
  }

  /** The old entries that stay although they were not found: those that were made at run time, unless they are marked. */
  function Left(kept: seq<bool>, gone: seq<bool>, held: seq<bool>): (r: seq<bool>)
    requires |kept| == |gone| == |held|
    ensures |r| == |kept| && forall i :: 0 <= i < |r| ==> r[i] == (!kept[i] && held[i] && !gone[i])
  {
    seq(|kept|, i requires 0 <= i < |kept| => !kept[i] && held[i] && !gone[i])
  }

  function Either(f: seq<bool>, g: seq<bool>): (r: seq<bool>)
    requires |f| == |g|
    ensures |r| == |f| && forall i :: 0 <= i < |r| ==> r[i] == (f[i] || g[i])
  {
    seq(|f|, i requires 0 <= i < |f| => f[i] || g[i])
  }

  /** The old entries that stay. */
  function Stays(kept: seq<bool>, gone: seq<bool>, held: seq<bool>): (r: seq<bool>)
    requires |kept| == |gone| == |held|
    ensures |r| == |kept|
  {
    Either(kept, Left(kept, gone, held))
  }

  /** The elements of `s` that are marked with `b`, in order. */
  function Pick<T>(s: seq<T>, f: seq<bool>, b: bool): (r: seq<T>)
    requires |f| == |s|
  {
    if s == [] then [] else Pick(s[..|s| - 1], f[..|s| - 1], b) + if f[|s| - 1] == b then [s[|s| - 1]] else []
  }

  lemma {:induction false} PickSplits<T>(s: seq<T>, f: seq<bool>)
    requires |f| == |s|
    ensures multiset(Pick(s, f, true)) + multiset(Pick(s, f, false)) == multiset(s)
  {
    if s != [] {
      PickSplits(s[..|s| - 1], f[..|s| - 1]);
      assert s == s[..|s| - 1] + [s[|s| - 1]];
    }
  }

  lemma {:induction false} PickTakes<T>(s: seq<T>, f: seq<bool>, j: nat)
    requires |f| == |s| && j < |s| && !f[j]
    ensures multiset(Pick(s, f[j := true], true)) == multiset(Pick(s, f, true)) + multiset{s[j]}
  {
    var n := |s| - 1;
    if j < n {
      assert f[j := true][..n] == f[..n][j := true];
      PickTakes(s[..n], f[..n], j);
    } else {
      assert f[j := true][..n] == f[..n];
    }
  }

  lemma {:induction false} PickHas<T>(s: seq<T>, f: seq<bool>, b: bool, j: nat)
    requires |f| == |s| && j < |s| && f[j] == b
    ensures s[j] in multiset(Pick(s, f, b))
  {
    if j < |s| - 1 {
      PickHas(s[..|s| - 1], f[..|s| - 1], b, j);
    }
  }

  lemma {:induction false} PickOnly<T>(s: seq<T>, f: seq<bool>, b: bool, x: T)
    requires |f| == |s| && x in multiset(Pick(s, f, b))
    ensures exists j :: 0 <= j < |s| && s[j] == x && f[j] == b
  {
    var n := |s| - 1;
    if f[n] == b && s[n] == x {
    } else {
      assert x in multiset(Pick(s[..n], f[..n], b));
      PickOnly(s[..n], f[..n], b, x);
      var j :| 0 <= j < n && s[..n][j] == x && f[..n][j] == b;
      assert s[j] == x && f[j] == b;
    }
  }

  lemma {:induction false} PickConcat<T>(s: seq<T>, t: seq<T>, f: seq<bool>, g: seq<bool>, b: bool)
    requires |f| == |s| && |g| == |t|
    ensures Pick(s + t, f + g, b) == Pick(s, f, b) + Pick(t, g, b)
  {
    if t == [] {
      assert s + t == s && f + g == f;
    } else {
      assert (s + t)[..|s + t| - 1] == s + t[..|t| - 1] && (f + g)[..|f + g| - 1] == f + g[..|g| - 1];
      PickConcat(s, t[..|t| - 1], f, g[..|g| - 1], b);
    }
  }

  lemma {:induction false} PickAll<T>(s: seq<T>, f: seq<bool>, b: bool)
    requires |f| == |s| && forall i :: 0 <= i < |f| ==> f[i] == b
    ensures Pick(s, f, b) == s && Pick(s, f, !b) == []
  {
    if s != [] {
      PickAll(s[..|s| - 1], f[..|s| - 1], b);
    }
  }

  lemma {:induction false} PickOpposite<T>(s: seq<T>, f: seq<bool>, g: seq<bool>, b: bool)
    requires |f| == |s| == |g| && forall i :: 0 <= i < |f| ==> f[i] == !g[i]
    ensures Pick(s, f, b) == Pick(s, g, !b)
  {
    if s != [] {
      PickOpposite(s[..|s| - 1], f[..|s| - 1], g[..|s| - 1], b);
    }
  }

  lemma {:induction false} PickEither<T>(s: seq<T>, f: seq<bool>, g: seq<bool>)
    requires |f| == |g| == |s| && forall i :: 0 <= i < |s| ==> !(f[i] && g[i])
    ensures multiset(Pick(s, Either(f, g), true)) == multiset(Pick(s, f, true)) + multiset(Pick(s, g, true))
  {
    if s != [] {
      var n := |s| - 1;
      assert Either(f, g)[..n] == Either(f[..n], g[..n]);
      PickEither(s[..n], f[..n], g[..n]);
    }
  }

  function Min(a: nat, b: nat): nat {
    if a < b then a else b
  }

  /** The unmarked old entries of a key take new ones of that key as long as there are any. */
  lemma {:induction false} TakenCount(ks: seq<Key>, gone: seq<bool>, ns: seq<Key>, i: nat, k: Key)
    requires i <= |ks| == |gone|
    ensures multiset(Pick(ns, Mark(ks, gone, ns, i).taken, true))[k]
         == Min(multiset(Pick(ks[..i], gone[..i], false))[k], multiset(ns)[k])
    decreases i
  {
    hide Pick, First, Mark, Min;
    if i == 0 {
      TakenNone(ks, gone, ns, k);
    } else {
      TakenCount(ks, gone, ns, i - 1, k);
      MarkCounts(ks, gone, ns, i);
      OneMore(ks, gone, i);
      var f := Mark(ks, gone, ns, i - 1).taken;
      SplitCount(ns, f, k);
      CountStep(multiset(Pick(ns, f, true)), multiset(Pick(ns, f, false)), multiset(ns),
                multiset(Pick(ks[..i - 1], gone[..i - 1], false)), ks[i - 1], k, gone[i - 1], Mark(ks, gone, ns, i).kept[i - 1]);
    }
  }

  lemma TakenNone(ks: seq<Key>, gone: seq<bool>, ns: seq<Key>, k: Key)
    requires |gone| == |ks|
    ensures multiset(Pick(ns, Mark(ks, gone, ns, 0).taken, true))[k] == 0
         == Min(multiset(Pick(ks[..0], gone[..0], false))[k], multiset(ns)[k])
  {
    NothingTaken(ns);
  }

  lemma OneMore(ks: seq<Key>, gone: seq<bool>, i: nat)
    requires 0 < i <= |ks| == |gone|
    ensures multiset(Pick(ks[..i], gone[..i], false))
         == multiset(Pick(ks[..i - 1], gone[..i - 1], false)) + if gone[i - 1] then multiset{} else multiset{ks[i - 1]}
  {
    assert ks[..i][..i - 1] == ks[..i - 1] && gone[..i][..i - 1] == gone[..i - 1];
  }

  lemma CountStep(t: multiset<Key>, u: multiset<Key>, n: multiset<Key>, p: multiset<Key>, a: Key, k: Key, gone: bool, took: bool)
    requires t[k] == Min(p[k], n[k]) && t[k] + u[k] == n[k] && (took <==> !gone && u[a] > 0)
    ensures (t + if took then multiset{a} else multiset{})[k] == Min((p + if gone then multiset{} else multiset{a})[k], n[k])
  {
  }

  lemma SplitCount(ns: seq<Key>, f: seq<bool>, k: Key)
    requires |f| == |ns|
    ensures multiset(Pick(ns, f, true))[k] + multiset(Pick(ns, f, false))[k] == multiset(ns)[k]
  {
    PickSplits(ns, f);
    assert (multiset(Pick(ns, f, true)) + multiset(Pick(ns, f, false)))[k] == multiset(ns)[k];
  }

  lemma {:induction false} NothingTaken(ns: seq<Key>)
    ensures Pick(ns, None(|ns|), true) == []
  {
    if ns != [] {
      assert None(|ns|)[..|ns| - 1] == None(|ns| - 1);
      NothingTaken(ns[..|ns| - 1]);
    }
  }

  /** One old entry: it is found exactly when it is not marked and some new entry of its key is not taken yet. */
  lemma MarkCounts(ks: seq<Key>, gone: seq<bool>, ns: seq<Key>, i: nat)
    requires 0 < i <= |ks| == |gone|
    ensures var b, a := Mark(ks, gone, ns, i - 1), Mark(ks, gone, ns, i); var k := ks[i - 1];
      && (a.kept[i - 1] <==> !gone[i - 1] && multiset(Pick(ns, b.taken, false))[k] > 0)
      && multiset(Pick(ns, a.taken, true)) == multiset(Pick(ns, b.taken, true)) + (if a.kept[i - 1] then multiset{k} else multiset{})
  {
    hide Mark, First, Pick;
    MarkNext(ks, gone, ns, i - 1);
    var b, k := Mark(ks, gone, ns, i - 1), ks[i - 1];
    var j := First(ns, b.taken, k);
    if j < |ns| {
      PickTakes(ns, b.taken, j);
      PickHas(ns, b.taken, false, j);
    } else if k in multiset(Pick(ns, b.taken, false)) {
      PickOnly(ns, b.taken, false, k);
    }
  }

  /** An old entry finds a partner exactly when it was not marked before and the new configuration has more entries of its
      key than unmarked ones stand before it. */
  lemma KeptIff(ks: seq<Key>, gone: seq<bool>, ns: seq<Key>, i: nat)
    requires i < |ks| == |gone|
    ensures Mark(ks, gone, ns, i + 1).kept[i] <==>
      !gone[i] && multiset(Pick(ks[..i], gone[..i], false))[ks[i]] < multiset(ns)[ks[i]]
  {
    hide Mark, Pick;
    TakenCount(ks, gone, ns, i, ks[i]);
    MarkCounts(ks, gone, ns, i + 1);
    SplitCount(ns, Mark(ks, gone, ns, i).taken, ks[i]);
  }

  /** The marks of an old entry do not change any more. */
  lemma {:induction false} MarkStays(ks: seq<Key>, gone: seq<bool>, ns: seq<Key>, i: nat, j: nat)
    requires i < j <= |ks| == |gone|
    ensures Mark(ks, gone, ns, j).kept[i] == Mark(ks, gone, ns, i + 1).kept[i]
    ensures Mark(ks, gone, ns, j).partner[i] == Mark(ks, gone, ns, i + 1).partner[i]
    decreases j
  {
    hide Mark, First;
    if i + 1 < j {
      MarkStays(ks, gone, ns, i, j - 1);
      MarkNext(ks, gone, ns, j - 1);
    }
  }

  /** A marked entry finds none. */
  lemma GoneIsNotKept(ks: seq<Key>, gone: seq<bool>, ns: seq<Key>)
    requires |gone| == |ks|
    ensures forall i :: 0 <= i < |ks| && gone[i] ==> !Mark(ks, gone, ns, |ks|).kept[i]
  {
    hide Mark, Pick;
    forall i | 0 <= i < |ks| && gone[i]
      ensures !Mark(ks, gone, ns, |ks|).kept[i]
    {
      KeptIff(ks, gone, ns, i);
      MarkStays(ks, gone, ns, i, |ks|);
    }
  }

  /** The names kept are the names taken. */
  lemma {:induction false} KeptAreTaken(ks: seq<Key>, gone: seq<bool>, ns: seq<Key>, i: nat)
    requires i <= |ks| == |gone|
    ensures multiset(Pick(ks[..i], Mark(ks, gone, ns, i).kept, true)) == multiset(Pick(ns, Mark(ks, gone, ns, i).taken, true))
    decreases i
  {
    hide First, Found;
    if i == 0 {
      NothingTaken(ns);
    } else {
      KeptAreTaken(ks, gone, ns, i - 1);
      MarkCounts(ks, gone, ns, i);
      assert ks[..i][..i - 1] == ks[..i - 1];
      assert Mark(ks, gone, ns, i).kept[..i - 1] == Mark(ks, gone, ns, i - 1).kept;
    }
  }

  /** After the reload the running configuration has the names of the new one, each as often, and those of the entries made
      at run time that are not in the new one and were not marked. */
  lemma LiveNames(ks: seq<Key>, gone: seq<bool>, held: seq<bool>, ns: seq<Key>)
    requires |gone| == |held| == |ks|
    ensures var m := Mark(ks, gone, ns, |ks|);
      multiset(Pick(ks, Stays(m.kept, gone, held), true) + Pick(ns, m.taken, false))
      == multiset(ns) + multiset(Pick(ks, Left(m.kept, gone, held), true))
  {
    hide Mark, Pick;
    var m := Mark(ks, gone, ns, |ks|);
    KeptAreTaken(ks, gone, ns, |ks|);
    assert ks[..|ks|] == ks;
    PickSplits(ns, m.taken);
    PickEither(ks, m.kept, Left(m.kept, gone, held));
  }
}
