/** Which words the cycle check drops, what its counters tell, and what it remembers. */
module CycleVerdict {
  import opened CycleCheck
  import CacheWords

  // ---- The verdict on one word

  /** The first place of the history that has this hash, which is not zero, holds that word. */
  predicate Remembered(hist: seq<Heard>, hash: bv32, cw: Cw) {
    hash != 0 && exists k :: 0 <= k < |hist| && hist[k] == Heard(hash, cw) && forall j :: 0 <= j < k ==> hist[j].hash != hash
  }

  predicate HashHeard(hist: seq<Heard>, hash: bv32) {
    hash != 0 && exists k :: 0 <= k < |hist| && hist[k].hash == hash
  }

  lemma PlaceTells(hist: seq<Heard>, hash: bv32)
    ensures Place(hist, hash) < |hist| <==> HashHeard(hist, hash)
    ensures forall cw: Cw :: Remembered(hist, hash, cw) <==> Place(hist, hash) < |hist| && hist[Place(hist, hash)].cw == cw
  {
    var p := Place(hist, hash);
    forall cw: Cw
      ensures Remembered(hist, hash, cw) <==> p < |hist| && hist[p].cw == cw
    {
      if p < |hist| && hist[p].cw == cw {
        assert hist[p] == Heard(hash, cw);
      }
    }
  }

  /** With `dropbad` on a judged word other than the stored one is kept exactly when it is accepted, or `dropold` is off and
      the word is the one that was heard with this hash. */
  lemma KeptIff(o: Opts, c: Chan, m: Msg)
    requires Shape(c) && InWindow(c, m.now) && m.cw != c.cw && o.dropbad
    ensures !Step(o, c, m).1 <==> Accepts(o, c, m.cw) || (!o.dropold && Remembered(c.hist, m.hash, m.cw))
  {
    hide Place, Remembered, HashHeard, U32, Fixed, CacheWords.Agreements;
    PlaceTells(c.hist, m.hash);
  }

  predicate TooLate(o: Opts, c: Chan, m: Msg) {
    m.cw == c.cw && o.dropold && U32(m.now - c.time) >= U32(c.cycletime - c.dyncycletime)
  }

  predicate Replayed(o: Opts, c: Chan, m: Msg) {
    && m.cw != c.cw && !Accepts(o, c, m.cw) && HashHeard(c.hist, m.hash)
    && (o.dropold || !Remembered(c.hist, m.hash, m.cw))
  }

  predicate Strange(o: Opts, c: Chan, m: Msg) {
    m.cw != c.cw && !Accepts(o, c, m.cw) && !HashHeard(c.hist, m.hash) && o.dropbad
  }

  /** All the words that are dropped: outside the window none; the stored word when it comes late and `dropold` is on; and
      a word that is not accepted when its hash was heard, unless with this very word and `dropold` is off, and otherwise
      when `dropbad` is on. */
  lemma DroppedIff(o: Opts, c: Chan, m: Msg)
    requires Shape(c)
    ensures Step(o, c, m).1 <==> InWindow(c, m.now) && (TooLate(o, c, m) || Replayed(o, c, m) || Strange(o, c, m))
  {
    hide Place, Remembered, HashHeard, U32, Fixed, CacheWords.Agreements;
    PlaceTells(c.hist, m.hash);
  }

  /** An accepted word is the one stored next, its other half must stay next, and the delay in force is by how much it
      came later than the cycle; a word that is judged and not accepted changes none of this. */
  lemma AcceptedTells(o: Opts, c: Chan, m: Msg)
    requires Well(c) && InWindow(c, m.now)
    requires 0 <= c.cycletime < 0x8000_0000 && 0 <= c.time <= m.now < 0x8000_0000
    ensures var d := Step(o, c, m).0; var late := m.now - c.time - c.cycletime;
      && d.cycletime == c.cycletime && d.locktime == c.locktime
      && if Accepts(o, c, m.cw) then
           && d.cw == m.cw != c.cw && d.time == m.now
           && d.nextcyclecw == 1 - c.nextcyclecw && d.dyncycletime == (if late > 0 then late else 0)
         else
           Essence(d) == Essence(c)
  {
    hide Place, Fixed, CacheWords.Agreements;
  }

  // ---- The counters

  function Count(v: seq<bool>): nat {
    if v == [] then 0 else (if v[0] then 1 else 0) + Count(v[1..])
  }

  lemma CountersStep(o: Opts, c: Chan, m: Msg)
    requires Shape(c)
    ensures var (d, drop) := Step(o, c, m);
      && d.checked == c.checked + 1 && d.bad == c.bad + (if drop then 1 else 0)
      && d.ok == c.ok + if InWindow(c, m.now) && Accepts(o, c, m.cw) then 1 else 0
  {
    hide Place, U32, Fixed, CacheWords.Agreements, NextHalf, Near;
  }

  /** Over every run: all words are counted as checked, the dropped ones as bad, and the accepted ones as good. */
  lemma {:induction false} CountersTell(o: Opts, c: Chan, run: seq<Msg>)
    requires Shape(c)
    ensures After(o, c, run).checked == c.checked + |run|
    ensures After(o, c, run).bad == c.bad + Count(Verdicts(o, c, run))
    ensures After(o, c, run).ok == c.ok + |Passed(o, c, run)|
    decreases |run|
  {
    hide Step, InWindow, Accepts;
    if run != [] {
      CountersStep(o, c, run[0]);
      CountersTell(o, Step(o, c, run[0]).0, run[1..]);
      var v := Verdicts(o, Step(o, c, run[0]).0, run[1..]);
      assert ([Step(o, c, run[0]).1] + v)[1..] == v;
    }
  }

  // ---- The stages

  /** Just one half of the words differs: `h` is the one that is the same. */
  predicate KeepsHalf(a: Cw, b: Cw, h: int) {
    Fixed(a, b, h) && !Fixed(a, b, 1 - h)
  }

  /** Leaving stage 3, and coming back to it from stage 4. */
  lemma LapseTells(o: Opts, c: Chan, m: Msg)
    requires Well(c)
    ensures InWindow(c, m.now) ==> Step(o, c, m).0.stage == 3
    ensures c.stage == 3 && !InWindow(c, m.now) ==>
      Step(o, c, m).0.stage == if o.keep > 0 && U32(m.now - c.time) < U32(o.keep * 60000) then 4 else 2
    ensures c.stage == 4 ==> var d := Step(o, c, m).0;
      && (d.stage == 3 <==> KeepsHalf(c.cw, m.cw, 0) || KeepsHalf(c.cw, m.cw, 1))
      && (d.stage == 1 <==> d.stage != 3 && c.repeat4 >= 12) && d.stage in {1, 3, 4}
      && d.repeat4 == (if d.stage == 3 then 0 else c.repeat4 + 1)
      && d.cycletime == c.cycletime && d.dyncycletime == c.dyncycletime
  {
    hide Place, U32, CacheWords.Agreements;
  }

  /** Coming to stage 3: the half that changed last is the one that must stay next. */
  lemma ArrivalTells(o: Opts, c: Chan, m: Msg)
    requires Well(c) && c.stage != 3 && Step(o, c, m).0.stage == 3
    ensures var h := Step(o, c, m).0.nextcyclecw; 0 <= h < 2 && KeepsHalf(c.cw, m.cw, 1 - h)
  {
    hide Place, U32, CacheWords.Agreements;
  }

  /** The learning stages: a word that comes while the lock is on changes nothing; otherwise a gap near the last one goes
      one stage on, and any other one goes back. */
  lemma LearningTells(o: Opts, c: Chan, m: Msg)
    requires Well(c) && c.stage < 3
    ensures var (d, gap) := (Step(o, c, m).0, m.now - c.time); var near := Near(gap, c.cycletime);
      if m.now <= c.locktime then Essence(d) == Essence(c)
      else
        && d.cycletime == gap && d.dyncycletime == c.dyncycletime && d.time == m.now && d.cw == m.cw
        && d.locktime == (if d.stage == 3 then 0 else m.now + LOCKTIME)
        && (d.stage == 3 <==> c.stage == 2 && near && c.cycletime > 0 && (KeepsHalf(c.cw, m.cw, 0) || KeepsHalf(c.cw, m.cw, 1)))
        && (d.stage == 2 <==> c.stage == 1 && near)
        && (d.stage == 1 <==> (c.stage == 0 && near) || (c.stage == 2 && d.stage != 3))
  {
    hide Place, U32, CacheWords.Agreements;
  }

  // ---- The history

  /** The step stores its word. */
  predicate Stores(o: Opts, c: Chan, m: Msg) {
    if InWindow(c, m.now) then Accepts(o, c, m.cw) else c.stage >= 3 || m.now > c.locktime
  }

  function Stored(o: Opts, c: Chan, run: seq<Msg>): seq<Heard>
    requires Shape(c)
    decreases |run|
  {
    if run == [] then []
    else (if Stores(o, c, run[0]) then [Heard(run[0].hash, run[0].cw)] else []) + Stored(o, Step(o, c, run[0]).0, run[1..])
  }

  /** The history holds the last words of `log`, as many as it has room for, the latest at its index. */
  predicate HoldsLast(c: Chan, log: seq<Heard>) {
    Shape(c) && forall j :: 0 <= j < |log| && j < MAXHIST ==> c.hist[Back(c.histidx, j)] == log[|log| - 1 - j]
  }

  /** The place of the ring that was filled `j` words before the one at `i`. */
  function Back(i: int, j: int): (k: int)
    ensures 0 <= k < MAXHIST
  {
    (i - j) % MAXHIST
  }

  lemma BackNext(i: int, j: int)
    requires 0 <= i < MAXHIST && 0 < j < MAXHIST
    ensures var n := if i + 1 > MAXHIST - 1 then 0 else i + 1; Back(n, j) == Back(i, j - 1) != n && Back(n, 0) == n
  {
  }

  lemma HistoryStep(o: Opts, c: Chan, m: Msg, log: seq<Heard>)
    requires Well(c) && HoldsLast(c, log)
    ensures HoldsLast(Step(o, c, m).0, log + if Stores(o, c, m) then [Heard(m.hash, m.cw)] else [])
  {
    hide HoldsLast, NextHalf, Near, U32, Fixed, CacheWords.Agreements, Place;
    var d := Step(o, c, m).0;
    if Stores(o, c, m) {
      assert d.histidx == (if c.histidx + 1 > MAXHIST - 1 then 0 else c.histidx + 1) && d.hist == c.hist[d.histidx := Heard(m.hash, m.cw)];
      PushedLast(c, d, Heard(m.hash, m.cw), log);
    } else {
      assert d.histidx == c.histidx && d.hist == c.hist;
      assert log + [] == log;
      SameLast(c, d, log);
    }
  }

  lemma SameLast(c: Chan, d: Chan, log: seq<Heard>)
    requires HoldsLast(c, log) && d.histidx == c.histidx && d.hist == c.hist
    ensures HoldsLast(d, log)
  {
  }

  lemma PushedLast(c: Chan, d: Chan, h: Heard, log: seq<Heard>)
    requires HoldsLast(c, log) && d.histidx == (if c.histidx + 1 > MAXHIST - 1 then 0 else c.histidx + 1)
    requires d.hist == c.hist[d.histidx := h]
    ensures HoldsLast(d, log + [h])
  {
    var all := log + [h];
    BackNext(c.histidx, 1);
    hide Back;
    forall j | 0 <= j < |all| && j < MAXHIST
      ensures d.hist[Back(d.histidx, j)] == all[|all| - 1 - j]
    {
      if j > 0 {
        BackNext(c.histidx, j);
      }
    }
  }

  /** Over every run the history of a channel holds the last fifteen words that were stored. */
  lemma {:induction false} HistoryTells(o: Opts, c: Chan, run: seq<Msg>, log: seq<Heard>)
    requires Well(c) && HoldsLast(c, log)
    ensures HoldsLast(After(o, c, run), log + Stored(o, c, run))
    decreases |run|
  {
    hide Step, HoldsLast, Stores;
    if run == [] {
      assert log + [] == log;
    } else {
      StepWell(o, c, run[0]);
      HistoryStep(o, c, run[0], log);
      var now := if Stores(o, c, run[0]) then [Heard(run[0].hash, run[0].cw)] else [];
      var rest := Stored(o, Step(o, c, run[0]).0, run[1..]);
      HistoryTells(o, Step(o, c, run[0]).0, run[1..], log + now);
      assert (log + now) + rest == log + (now + rest);
    }
  }

  lemma BornHistory(m: Msg)
    ensures Well(Born(m)) && HoldsLast(Born(m), [Heard(m.hash, m.cw)])
  {
  }
}
