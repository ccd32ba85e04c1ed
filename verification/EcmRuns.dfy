/** Runs of the request store on the dates alone: when nodes are recycled, and how many of them a run allocates. */
module EcmRuns {
  const TIME_ECMALIVE: nat := 17000

  /** A node: when its request was stored, the date it carries, and how often it was retried. */
  datatype Slot = Slot(birth: nat, date: nat, retries: nat)

  datatype Event =
    | Stored(ticks: nat)
    /** The request at place `k` of the ring failed and is asked again. */
    | Retried(k: nat, ticks: nat)

  /** The oldest node is taken for the next request. */
  predicate Reuses(dates: seq<nat>, ticks: nat) {
    |dates| > 1 && dates[|dates| - 1] + TIME_ECMALIVE * 2 < ticks
  }

  function Dates(s: seq<Slot>): (d: seq<nat>)
    ensures |d| == |s| && forall i :: 0 <= i < |s| ==> d[i] == s[i].date
  {
    if s == [] then [] else [s[0].date] + Dates(s[1..])
  }

  /** The tries that the nodes count. */
  function Tries(s: seq<Slot>): (d: seq<nat>)
    ensures |d| == |s| && forall i :: 0 <= i < |s| ==> d[i] == s[i].retries + 1
  {
    if s == [] then [] else [s[0].retries + 1] + Tries(s[1..])
  }

  function Step(s: seq<Slot>, ev: Event): seq<Slot> {
    match ev
    case Stored(ticks) => [Slot(ticks, ticks, 0)] + if Reuses(Dates(s), ticks) then s[..|s| - 1] else s
    case Retried(k, ticks) => if k < |s| then s[k := s[k].(date := ticks, retries := s[k].retries + 1)] else s
  }

  /** The ring after a run, newest node first. */
  function Ran(run: seq<Event>): seq<Slot> {
    if run == [] then [] else Step(Ran(run[..|run| - 1]), run[|run| - 1])
  }

  /** The times of the stores. */
  function Stores(run: seq<Event>): seq<nat> {
    if run == [] then []
    else
      var ev, before := run[|run| - 1], Stores(run[..|run| - 1]);
      if ev.Stored? then before + [ev.ticks] else before
  }

  predicate Sorted(hist: seq<nat>) {
    forall i, j :: 0 <= i < j < |hist| ==> hist[i] <= hist[j]
  }

  /** The clock of a run does not run backwards. */
  predicate Ticking(run: seq<Event>) {
    forall i, j :: 0 <= i < j < |run| ==> run[i].ticks <= run[j].ticks
  }

  /** Some `m` stores in a row took at most `w`. */
  ghost predicate Within(hist: seq<nat>, m: nat, w: nat) {
    exists j :: 0 <= j < |hist| && 0 < m <= j + 1 && hist[j] - hist[j + 1 - m] <= w
  }

  // ---- The order of the ring

  /** The nodes are those of the latest stores, newest first, and no date lies before the birth or after `now`. */
  predicate InBirthOrder(s: seq<Slot>, hist: seq<nat>, now: nat) {
    && |s| <= |hist| && Sorted(hist) && (forall i :: 0 <= i < |hist| ==> hist[i] <= now)
    && (forall i :: 0 <= i < |s| ==> s[i].birth == hist[|hist| - 1 - i] && s[i].birth <= s[i].date <= now)
  }

  lemma {:induction false} RunInBirthOrder(run: seq<Event>, now: nat)
    requires Ticking(run) && (run != [] ==> run[|run| - 1].ticks <= now)
    ensures InBirthOrder(Ran(run), Stores(run), now)
  {
    if run != [] {
      var n := |run| - 1;
      RunInBirthOrder(run[..n], run[n].ticks);
      StepInBirthOrder(Ran(run[..n]), Stores(run[..n]), run[n], now);
    }
  }

  lemma StepInBirthOrder(s: seq<Slot>, hist: seq<nat>, ev: Event, now: nat)
    requires InBirthOrder(s, hist, ev.ticks) && ev.ticks <= now
    ensures InBirthOrder(Step(s, ev), if ev.Stored? then hist + [ev.ticks] else hist, now)
  {
  }

  // ---- The bound

  /** No more nodes than the larger of two and the most stores in one window of `TIME_ECMALIVE * 2 + d`. */
  ghost predicate Bounded(run: seq<Event>, d: nat) {
    |Ran(run)| <= 2 || Within(Stores(run), |Ran(run)|, TIME_ECMALIVE * 2 + d)
  }

  lemma WithinNext(hist: seq<nat>, ticks: nat, m: nat, w: nat)
    requires 0 < m
    ensures Within(hist + [ticks], m, w) <==>
      Within(hist, m, w) || m == 1 || (m <= |hist| + 1 && ticks - hist[|hist| + 1 - m] <= w)
  {
    var after := hist + [ticks];
    if Within(hist, m, w) {
      var j :| 0 <= j < |hist| && 0 < m <= j + 1 && hist[j] - hist[j + 1 - m] <= w;
      assert after[j] - after[j + 1 - m] <= w;
    }
    if m <= |hist| + 1 && (m == 1 || ticks - hist[|hist| + 1 - m] <= w) {
      assert after[|hist|] - after[|hist| + 1 - m] <= w;
    }
  }

  lemma LastOf(run: seq<Event>, ev: Event)
    ensures Ran(run + [ev]) == Step(Ran(run), ev)
    ensures Stores(run + [ev]) == if ev.Stored? then Stores(run) + [ev.ticks] else Stores(run)
  {
    assert (run + [ev])[..|run|] == run;
  }

  /** A store breaks the bound exactly when the oldest node is still young by its date but not by its birth, and no
      earlier window held one store more than there were nodes. */
  lemma BoundBreaksIff(run: seq<Event>, ticks: nat)
    requires Ticking(run + [Stored(ticks)]) && Bounded(run, 0)
    ensures var s := Ran(run);
      !Bounded(run + [Stored(ticks)], 0) <==>
        |s| > 1 && s[|s| - 1].birth + TIME_ECMALIVE * 2 < ticks <= s[|s| - 1].date + TIME_ECMALIVE * 2
          && !Within(Stores(run), |s| + 1, TIME_ECMALIVE * 2)
  {
    hide Within, Ran, Stores, InBirthOrder;
    var s, hist := Ran(run), Stores(run);
    LastOf(run, Stored(ticks));
    TickingBefore(run, Stored(ticks));
    RunInBirthOrder(run, ticks);
    OldestBirth(s, hist, ticks);
    if |s| > 0 {
      WithinNext(hist, ticks, |s|, TIME_ECMALIVE * 2);
    }
    WithinNext(hist, ticks, |s| + 1, TIME_ECMALIVE * 2);
  }

  lemma OldestBirth(s: seq<Slot>, hist: seq<nat>, now: nat)
    requires InBirthOrder(s, hist, now)
    ensures |s| <= |hist|
    ensures s != [] ==> hist[|hist| - |s|] == s[|s| - 1].birth <= s[|s| - 1].date
  {
  }

  lemma TickingBefore(run: seq<Event>, ev: Event)
    requires Ticking(run + [ev])
    ensures Ticking(run) && (run != [] ==> run[|run| - 1].ticks <= ev.ticks)
  {
    var all := run + [ev];
    assert forall i :: 0 <= i < |run| ==> all[i] == run[i];
    assert all[|run|] == ev;
  }

  /** No retry dates a node more than `d` past its birth. */
  predicate Ahead(run: seq<Event>, d: nat) {
    run == [] ||
    var before, ev := run[..|run| - 1], run[|run| - 1];
    Ahead(before, d) && (ev.Retried? && ev.k < |Ran(before)| ==> ev.ticks <= Ran(before)[ev.k].birth + d)
  }

  predicate NotAhead(s: seq<Slot>, d: nat) {
    forall i :: 0 <= i < |s| ==> s[i].date <= s[i].birth + d
  }

  lemma StepNotAhead(s: seq<Slot>, ev: Event, d: nat)
    requires NotAhead(s, d) && (ev.Retried? && ev.k < |s| ==> ev.ticks <= s[ev.k].birth + d)
    ensures NotAhead(Step(s, ev), d)
  {
  }

  lemma StepBounded(run: seq<Event>, ev: Event, d: nat)
    requires Ticking(run + [ev]) && Bounded(run, d) && NotAhead(Ran(run), d)
    ensures Bounded(run + [ev], d)
  {
    hide Within, InBirthOrder, Ticking, Stores, Ran;
    var s, hist := Ran(run), Stores(run);
    LastOf(run, ev);
    if ev.Stored? {
      TickingBefore(run, ev);
      RunInBirthOrder(run, ev.ticks);
      OldestBirth(s, hist, ev.ticks);
      if |s| > 1 {
        WithinNext(hist, ev.ticks, |s|, TIME_ECMALIVE * 2 + d);
        WithinNext(hist, ev.ticks, |s| + 1, TIME_ECMALIVE * 2 + d);
      }
    }
  }

  /** Over every run the bound holds for a window that is longer by as much as a date may be ahead of its birth. */
  lemma {:induction false} BoundedRun(run: seq<Event>, d: nat)
    requires Ticking(run) && Ahead(run, d)
    ensures Bounded(run, d) && NotAhead(Ran(run), d)
  {
    hide Bounded, NotAhead, Ticking;
    if run == [] {
      NothingBounded(d);
    } else {
      var before, ev := run[..|run| - 1], run[|run| - 1];
      assert run == before + [ev];
      TickingBefore(before, ev);
      BoundedRun(before, d);
      StepBounded(before, ev, d);
      StepNotAhead(Ran(before), ev, d);
    }
  }

  lemma NothingBounded(d: nat)
    ensures Bounded([], d) && NotAhead(Ran([]), d)
  {
  }

  // ---- Retries of living requests

  /** Every retry is of a living request, and no request is retried more than `r` times. */
  predicate Living(run: seq<Event>, r: nat) {
    run == [] ||
    var before, ev := run[..|run| - 1], run[|run| - 1];
    Living(before, r) && (ev.Retried? && ev.k < |Ran(before)| ==>
      Ran(before)[ev.k].date + TIME_ECMALIVE >= ev.ticks && Ran(before)[ev.k].retries < r)
  }

  predicate Counted(s: seq<Slot>, r: nat) {
    forall i :: 0 <= i < |s| ==> s[i].date <= s[i].birth + TIME_ECMALIVE * s[i].retries && s[i].retries <= r
  }

  lemma StepCounted(s: seq<Slot>, ev: Event, r: nat)
    requires Counted(s, r)
    requires ev.Retried? && ev.k < |s| ==> s[ev.k].date + TIME_ECMALIVE >= ev.ticks && s[ev.k].retries < r
    ensures Counted(Step(s, ev), r)
  {
  }

  lemma {:induction false} LivingIsAhead(run: seq<Event>, r: nat)
    requires Living(run, r)
    ensures Ahead(run, TIME_ECMALIVE * r) && Counted(Ran(run), r)
  {
    hide Step;
    if run != [] {
      var before, ev := run[..|run| - 1], run[|run| - 1];
      LivingIsAhead(before, r);
      StepCounted(Ran(before), ev, r);
    }
  }

  /** With at most `r` retries of a request, each while it lives, the window is longer by `r` lives. */
  lemma BoundedByRetries(run: seq<Event>, r: nat)
    requires Ticking(run) && Living(run, r)
    ensures Bounded(run, TIME_ECMALIVE * r)
  {
    LivingIsAhead(run, r);
    BoundedRun(run, TIME_ECMALIVE * r);
  }

  /** Without retries the bound holds as it stands, and every node carries the date of its birth. */
  lemma {:induction false} OnlyStores(run: seq<Event>)
    requires Ticking(run) && forall i :: 0 <= i < |run| ==> run[i].Stored?
    ensures Bounded(run, 0) && forall i :: 0 <= i < |Ran(run)| ==> Ran(run)[i].date == Ran(run)[i].birth
  {
    hide Bounded, Ran, Step;
    NoRetries(run);
    BoundedByRetries(run, 0);
    LivingIsAhead(run, 0);
    RunInBirthOrder(run, if run == [] then 0 else run[|run| - 1].ticks);
  }

  lemma {:induction false} NoRetries(run: seq<Event>)
    requires forall i :: 0 <= i < |run| ==> run[i].Stored?
    ensures Living(run, 0)
  {
    if run != [] {
      NoRetries(run[..|run| - 1]);
    }
  }

  // ---- Without a limit on the retries there is no bound

  lemma LivingLast(run: seq<Event>, ev: Event, r: nat)
    ensures Living(run + [ev], r) <==>
      Living(run, r) && (ev.Retried? && ev.k < |Ran(run)| ==>
        Ran(run)[ev.k].date + TIME_ECMALIVE >= ev.ticks && Ran(run)[ev.k].retries < r)
  {
    assert (run + [ev])[..|run|] == run;
  }

  lemma {:induction false} LivingMore(run: seq<Event>, r: nat)
    requires Living(run, r)
    ensures Living(run, r + 1)
  {
    if run != [] {
      LivingMore(run[..|run| - 1], r);
    }
  }

  /** One retry: three nodes, and no three stores in one window. */
  lemma ThreeNodes()
    ensures var run := [Stored(1000), Stored(1100), Retried(1, 17000), Stored(35050)];
      Ticking(run) && Living(run, 1) && |Ran(run)| == 3 && Stores(run) == [1000, 1100, 35050] && !Bounded(run, 0)
  {
    hide Ran, Stores, Living, Step;
    var r := [Stored(1000), Stored(1100), Retried(1, 17000)];
    OneRetry();
    LastOf(r, Stored(35050));
    LivingLast(r, Stored(35050), 1);
    NotReused();
    assert r + [Stored(35050)] == [Stored(1000), Stored(1100), Retried(1, 17000), Stored(35050)];
  }

  lemma NotReused()
    ensures |Step([Slot(1100, 1100, 0), Slot(1000, 17000, 1)], Stored(35050))| == 3
  {
  }

  lemma OneRetry()
    ensures var run := [Stored(1000), Stored(1100), Retried(1, 17000)];
      Living(run, 1) && Ran(run) == [Slot(1100, 1100, 0), Slot(1000, 17000, 1)] && Stores(run) == [1000, 1100]
  {
    hide Ran, Stores, Living;
    var r: seq<Event> := [Stored(1000), Stored(1100)];
    TwoNodes();
    LastOf(r, Retried(1, 17000));
    LivingLast(r, Retried(1, 17000), 1);
    assert r + [Retried(1, 17000)] == [Stored(1000), Stored(1100), Retried(1, 17000)];
  }

  lemma TwoNodes()
    ensures var run := [Stored(1000), Stored(1100)];
      Living(run, 1) && Ran(run) == [Slot(1100, 1100, 0), Slot(1000, 1000, 0)] && Stores(run) == [1000, 1100]
  {
    hide Ran, Stores, Living;
    var r: seq<Event> := [Stored(1000)];
    NothingRan(1);
    LastOf([], Stored(1000));
    LivingLast([], Stored(1000), 1);
    assert [] + [Stored(1000)] == r;
    LastOf(r, Stored(1100));
    LivingLast(r, Stored(1100), 1);
    assert r + [Stored(1100)] == [Stored(1000), Stored(1100)];
  }

  lemma NothingRan(r: nat)
    ensures Ran([]) == [] && Stores([]) == [] && Living([], r)
  {
  }

  /** A store at the end of every life, and then a retry of the oldest request, which still lives. */
  function Pile(n: nat): (run: seq<Event>)
    ensures n > 0 ==> run != [] && run[|run| - 1].ticks == TIME_ECMALIVE * n
  {
    if n == 0 then [] else Pile(n - 1) + [Stored(TIME_ECMALIVE * n)] + [Retried(n - 1, TIME_ECMALIVE * n)]
  }

  /** The first request is never recycled, and behind it no other one can be: the nodes pile up, although no four stores lie
      in one window. */
  lemma {:induction false} NodesPileUp(n: nat)
    ensures Ticking(Pile(n)) && Living(Pile(n), n) && |Ran(Pile(n))| == n
    ensures n > 0 ==> Ran(Pile(n))[n - 1].date == TIME_ECMALIVE * n && Ran(Pile(n))[n - 1].retries == n
    ensures |Stores(Pile(n))| == n && forall i :: 0 <= i < n ==> Stores(Pile(n))[i] == TIME_ECMALIVE * (i + 1)
    ensures n > 3 ==> !Bounded(Pile(n), 0)
  {
    hide Ran, Stores, Living, Ticking, Bounded;
    if n == 0 {
      NothingRan(0);
      TickingNothing();
    } else {
      NodesPileUp(n - 1);
      var p, t := Pile(n - 1), TIME_ECMALIVE * n;
      var q := p + [Stored(t)];
      LastOf(p, Stored(t));
      LastOf(q, Retried(n - 1, t));
      LivingMore(p, n - 1);
      LivingLast(p, Stored(t), n);
      LivingLast(q, Retried(n - 1, t), n);
      TickingMore(p, Stored(t));
      TickingMore(q, Retried(n - 1, t));
      assert Pile(n) == q + [Retried(n - 1, t)];
      SparseStores(Pile(n), n);
    }
  }

  lemma TickingNothing()
    ensures Ticking([])
  {
  }

  lemma TickingMore(run: seq<Event>, ev: Event)
    requires Ticking(run) && (run != [] ==> run[|run| - 1].ticks <= ev.ticks)
    ensures Ticking(run + [ev])
  {
  }

  lemma SparseStores(run: seq<Event>, n: nat)
    requires |Ran(run)| == n && |Stores(run)| == n && forall i :: 0 <= i < n ==> Stores(run)[i] == TIME_ECMALIVE * (i + 1)
    ensures n > 3 ==> !Bounded(run, 0)
  {
    hide Ran, Stores;
  }
}
