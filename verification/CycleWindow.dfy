/** How long the window of stage 3 stays open. Its length is computed from the learned times and read as unsigned. */
module CycleWindow {
  import opened CycleCheck
  import CacheWords

  /** The clock does not reach this value. */
  const CLOCKEND: int := 0x8000_0000

  /** The clock of a run that starts at `now` does not run backwards and does not wrap. */
  predicate Ticking(now: int, run: seq<Msg>)
    decreases |run|
  {
    run == [] || (now <= run[0].now < CLOCKEND && Ticking(run[0].now, run[1..]))
  }

  /** The length of the window before it is read as unsigned. */
  function Length(c: Chan): int {
    c.cycletime * 2 - c.dyncycletime - 1000
  }

  // ---- Every reachable channel

  /** The learned times are not longer than the clock has run, and the lock of the learning is off from stage 3 on. */
  predicate Timed(c: Chan) {
    && 0 <= c.time < CLOCKEND && 0 <= c.dyncycletime <= c.time
    && 0 <= c.cycletime && (c.cycletime <= c.time || (c.cycletime == 99000 && c.stage < 3))
    && (c.stage >= 3 ==> c.locktime == 0)
  }

  lemma TimedStep(o: Opts, c: Chan, m: Msg)
    requires Well(c) && Timed(c) && c.time <= m.now < CLOCKEND
    ensures Timed(Step(o, c, m).0) && c.time <= Step(o, c, m).0.time <= m.now
  {
    hide Fixed, CacheWords.Agreements, Place, NextHalf, Near;
  }

  lemma {:induction false} TimedRun(o: Opts, c: Chan, run: seq<Msg>, now: int)
    requires Well(c) && Timed(c) && c.time <= now && Ticking(now, run)
    ensures Timed(After(o, c, run))
    decreases |run|
  {
    hide Step, Timed;
    if run != [] {
      StepWell(o, c, run[0]);
      TimedStep(o, c, run[0]);
      TimedRun(o, Step(o, c, run[0]).0, run[1..], run[0].now);
    }
  }

  lemma BornTimed(m: Msg)
    requires m.now < CLOCKEND
    ensures Timed(Born(m))
  {
  }

  // ---- When the window never closes

  /** The window is open at every time that is left. */
  predicate StaysOpen(c: Chan) {
    forall now: nat :: c.time <= now < CLOCKEND ==> InWindow(c, now)
  }

  /** The window never closes exactly when its length is negative or exceeds what is left of the clock. */
  lemma StaysOpenIff(c: Chan)
    requires Well(c) && Timed(c) && c.stage == 3
    ensures StaysOpen(c) <==> Length(c) < 0 || Length(c) >= CLOCKEND - c.time
  {
    var last: nat := CLOCKEND - 1;
    assert InWindow(c, last) <==> Length(c) < 0 || Length(c) >= CLOCKEND - c.time;
  }

  /** The same for the channel that any run has reached. */
  lemma ReachableStaysOpenIff(o: Opts, first: Msg, run: seq<Msg>)
    requires first.now < CLOCKEND && Ticking(first.now, run) && After(o, Born(first), run).stage == 3
    ensures var c := After(o, Born(first), run);
      StaysOpen(c) <==> Length(c) < 0 || Length(c) >= CLOCKEND - c.time
  {
    hide Step, Born, StaysOpen;
    BornWell(first);
    BornTimed(first);
    BornTime(first);
    Stage3Knows(o, Born(first), run);
    TimedRun(o, Born(first), run, first.now);
    StaysOpenIff(After(o, Born(first), run));
  }

  lemma BornTime(m: Msg)
    ensures Born(m).time == m.now
  {
  }

  // ---- A window with room for a cycle

  /** The window is at least as long as the cycle, and the cycle longer than the lock. */
  predicate Roomy(c: Chan) {
    c.cycletime > LOCKTIME && Length(c) >= c.cycletime
  }

  /** A judged word came within the window; no step that stays in stages 3 and 4 takes the room away. */
  lemma RoomyStep(o: Opts, c: Chan, m: Msg)
    requires Well(c) && Timed(c) && Roomy(c) && c.stage >= 3 && c.time <= m.now < CLOCKEND
    ensures InWindow(c, m.now) <==> c.stage == 3 && m.now - c.time < Length(c)
    ensures Step(o, c, m).0.stage >= 3 ==> Roomy(Step(o, c, m).0)
  {
    hide Fixed, CacheWords.Agreements, Place, NextHalf;
  }

  /** A run that does not fall back to learning the cycle time. */
  predicate KeepsCycle(o: Opts, c: Chan, run: seq<Msg>)
    requires Shape(c)
    decreases |run|
  {
    c.stage >= 3 && (run == [] || KeepsCycle(o, Step(o, c, run[0]).0, run[1..]))
  }

  /** Over a whole run in stages 3 and 4, so in particular over an uninterrupted stretch of stage 3, the window keeps
      its room. */
  lemma {:induction false} RoomyRun(o: Opts, c: Chan, run: seq<Msg>, now: int)
    requires Well(c) && Timed(c) && Roomy(c) && KeepsCycle(o, c, run) && c.time <= now && Ticking(now, run)
    ensures Roomy(After(o, c, run))
    decreases |run|
  {
    hide Step, Timed, Roomy;
    if run != [] {
      StepWell(o, c, run[0]);
      TimedStep(o, c, run[0]);
      RoomyStep(o, c, run[0]);
      RoomyRun(o, Step(o, c, run[0]).0, run[1..], run[0].now);
    }
  }

  lemma {:induction false} StaysKeepsCycle(o: Opts, c: Chan, run: seq<Msg>)
    requires Well(c) && Stays(o, c, run)
    ensures KeepsCycle(o, c, run)
    decreases |run|
  {
    hide Step;
    if run != [] {
      StepWell(o, c, run[0]);
      StaysKeepsCycle(o, Step(o, c, run[0]).0, run[1..]);
    }
  }

  /** From the first arrival in stage 3 on, as long as the cycle time is not learned anew, the window has room for a
      cycle and closes. */
  lemma RoomyFromFirstArrival(o: Opts, first: Msg, run: seq<Msg>, later: seq<Msg>)
    requires run != [] && first.now < CLOCKEND && Ticking(first.now, run + later)
    requires After(o, Born(first), run).stage == 3 && NeverBefore(o, Born(first), run)
    requires KeepsCycle(o, After(o, Born(first), run), later)
    ensures Roomy(After(o, Born(first), run + later))
  {
    hide Step, Born, Timed, NeverBefore, Steady;
    BornWell(first);
    var c := After(o, Born(first), run);
    ReachableChannels(o, first, run);
    BornTimed(first);
    BornTime(first);
    TickingParts(first.now, run, later);
    TimedRun(o, Born(first), run, first.now);
    var now := if run == [] then first.now else run[|run| - 1].now;
    TimeOfRun(o, Born(first), run, first.now);
    RoomyRun(o, c, later, now);
    AfterBoth(o, Born(first), run, later);
  }

  lemma {:induction false} TickingParts(now: int, run: seq<Msg>, later: seq<Msg>)
    requires Ticking(now, run + later)
    ensures Ticking(now, run) && Ticking(if run == [] then now else run[|run| - 1].now, later)
    decreases |run|
  {
    if run == [] {
      assert run + later == later;
    } else {
      assert (run + later)[1..] == run[1..] + later;
      TickingParts(run[0].now, run[1..], later);
    }
  }

  lemma {:induction false} TimeOfRun(o: Opts, c: Chan, run: seq<Msg>, now: int)
    requires Well(c) && Timed(c) && c.time <= now && Ticking(now, run)
    ensures After(o, c, run).time <= if run == [] then now else run[|run| - 1].now
    decreases |run|
  {
    hide Step, Timed;
    if run != [] {
      StepWell(o, c, run[0]);
      TimedStep(o, c, run[0]);
      TimeOfRun(o, Step(o, c, run[0]).0, run[1..], run[0].now);
    }
  }

  // ---- A cycle learned anew

  /** When stage 3 lapses the times are kept and the lock of the learning is off. */
  lemma LapseKeepsTimes(o: Opts, c: Chan, m: Msg)
    requires Well(c) && Timed(c) && c.stage == 3 && !InWindow(c, m.now)
    ensures var d := Step(o, c, m).0;
      d.cycletime == c.cycletime && d.dyncycletime == c.dyncycletime && d.locktime == 0 && d.time == m.now && 2 <= d.stage <= 4
  {
    hide U32;
  }

  /** The cycle time is learned anew, from a single gap, exactly when the gap is near the old cycle and one half changed.
      The window that follows never closes exactly when twice the gap does not make up for the late arrival that is still
      remembered and a second (or reaches behind the end of the clock), and it has room for the cycle exactly when the gap
      does. */
  lemma RelearnedWindow(o: Opts, c: Chan, m: Msg)
    requires Well(c) && Timed(c) && c.stage == 2 && c.time <= m.now < CLOCKEND
    ensures var d := Step(o, c, m).0; var gap := m.now - c.time;
      && (d.stage == 3 <==> m.now > c.locktime && Near(gap, c.cycletime) && c.cycletime > 0 && NextHalf(c.cw, m.cw) < 2)
      && (d.stage == 3 ==>
           && d.cycletime == gap && d.dyncycletime == c.dyncycletime
           && (StaysOpen(d) <==> gap * 2 < c.dyncycletime + 1000 || gap * 2 - c.dyncycletime - 1000 >= CLOCKEND - m.now)
           && (Length(d) >= d.cycletime <==> gap >= c.dyncycletime + 1000))
  {
    hide U32, NextHalf, StaysOpen, Timed;
    StepWell(o, c, m);
    TimedStep(o, c, m);
    if Step(o, c, m).0.stage == 3 {
      StaysOpenIff(Step(o, c, m).0);
    }
  }

  // ---- Both failures are reached

  const X: Cw := [1, 1, 1, 1, 1, 1, 1, 1, 2, 2, 2, 2, 2, 2, 2, 2]
  const Y: Cw := [1, 1, 1, 1, 1, 1, 1, 1, 3, 3, 3, 3, 3, 3, 3, 3]

  lemma HalvesOfXY()
    ensures NextHalf(X, Y) == NextHalf(Y, X) == 1
    ensures X != Y && Fixed(X, Y, 0) && Fixed(Y, X, 0)
  {
    assert X[8] != Y[8];
    assert X[8..][0] != Y[8..][0];
    assert X[..8] == Y[..8];
  }

  /** The fields of a channel that decide its way; the history and the counters are left open. */
  predicate At(c: Chan, stage: int, cycletime: int, dyncycletime: int, time: int, locktime: int, cw: Cw) {
    && Well(c) && c.stage == stage && c.cycletime == cycletime && c.dyncycletime == dyncycletime
    && c.time == time && c.locktime == locktime && c.cw == cw
  }

  lemma LearnAt(o: Opts, c: Chan, m: Msg)
    requires Well(c) && c.stage < 3 && m.now > c.locktime && NextHalf(c.cw, m.cw) == 1 && c.cycletime > 0
    ensures var gap := m.now - c.time;
      var stage := if Near(gap, c.cycletime) then c.stage + 1 else if c.stage == 2 then 1 else 0;
      At(Step(o, c, m).0, stage, gap, c.dyncycletime, m.now, if stage == 3 then 0 else m.now + LOCKTIME, m.cw)
  {
    hide U32, NextHalf;
    StepWell(o, c, m);
  }

  lemma LapseAt(o: Opts, c: Chan, m: Msg)
    requires Well(c) && c.stage == 3 && o.keep <= 0 && !InWindow(c, m.now)
    ensures At(Step(o, c, m).0, 2, c.cycletime, c.dyncycletime, m.now, c.locktime, m.cw)
  {
    hide U32;
    StepWell(o, c, m);
  }

  /** Four words with the same gap, the second half changing each time. */
  function SteadyWords(gap: nat): seq<Msg> {
    [Msg(1000 + gap, Y, 0), Msg(1000 + 2 * gap, X, 0), Msg(1000 + 3 * gap, Y, 0), Msg(1000 + 4 * gap, X, 0)]
  }

  lemma SteadyRun(o: Opts, gap: nat)
    requires LOCKTIME < gap <= 20000
    ensures Shape(Born(Msg(1000, X, 0)))
    ensures var c := After(o, Born(Msg(1000, X, 0)), SteadyWords(gap));
      At(c, 3, gap, 0, 1000 + 4 * gap, 0, X) && c.nextcyclecw == 1
  {
    hide Step, NextHalf, After, Born, Fixed;
    HalvesOfXY();
    var r := SteadyWords(gap);
    var c0 := Born(Msg(1000, X, 0));
    BornAt(Msg(1000, X, 0));
    var c1 := Step(o, c0, r[0]).0;
    LearnAt(o, c0, r[0]);
    var c2 := Step(o, c1, r[1]).0;
    LearnAt(o, c1, r[1]);
    var c3 := Step(o, c2, r[2]).0;
    LearnAt(o, c2, r[2]);
    var c4 := Step(o, c3, r[3]).0;
    LearnAt(o, c3, r[3]);
    NextAt(o, c3, r[3]);
    Along(o, [c0, c1, c2, c3, c4], r);
  }

  function StuckEnd(): seq<Msg> {
    [Msg(24000, Y, 0), Msg(26001, X, 0), Msg(29003, Y, 0), Msg(29005, X, 0)]
  }

  /** Eight words, the second half changing each time, after which the window never closes. */
  function StuckWords(): seq<Msg> {
    SteadyWords(4000) + StuckEnd()
  }

  lemma StuckRun(o: Opts)
    requires o.keep <= 0
    ensures Ticking(1000, StuckWords()) && Shape(Born(Msg(1000, X, 0)))
    ensures var c := After(o, Born(Msg(1000, X, 0)), StuckWords());
      c.stage == 3 && c.cycletime == 2 && c.time == 29005 && StaysOpen(c)
  {
    hide Step, InWindow, NextHalf, After, Born, StaysOpen;
    HalvesOfXY();
    var r := StuckEnd();
    SteadyRun(o, 4000);
    var c4 := After(o, Born(Msg(1000, X, 0)), SteadyWords(4000));
    Closed(c4, 24000);
    var c5 := Step(o, c4, r[0]).0;
    LapseAt(o, c4, r[0]);
    var c6 := Step(o, c5, r[1]).0;
    LearnAt(o, c5, r[1]);
    Closed(c6, 29003);
    var c7 := Step(o, c6, r[2]).0;
    LapseAt(o, c6, r[2]);
    var c8 := Step(o, c7, r[3]).0;
    LearnAt(o, c7, r[3]);
    StaysOpenIff(c8);
    Along(o, [c4, c5, c6, c7, c8], r);
    AfterBoth(o, Born(Msg(1000, X, 0)), SteadyWords(4000), r);
  }

  lemma BornAt(m: Msg)
    ensures At(Born(m), 0, 99000, 0, m.now, m.now + LOCKTIME, m.cw)
  {
  }

  lemma Closed(c: Chan, now: int)
    requires c.stage == 3 && c.time <= now < CLOCKEND && 0 <= c.time && 0 <= Length(c) <= now - c.time
    ensures !InWindow(c, now)
  {
  }

  /** A run, one channel after the other. */
  lemma {:induction false} Along(o: Opts, cs: seq<Chan>, r: seq<Msg>)
    requires |cs| == |r| + 1 && forall i :: 0 <= i < |cs| ==> Shape(cs[i])
    requires forall i :: 0 <= i < |r| ==> cs[i + 1] == Step(o, cs[i], r[i]).0
    ensures After(o, cs[0], r) == cs[|r|]
    decreases |r|
  {
    hide Step;
    if r != [] {
      assert forall i :: 0 <= i < |r| - 1 ==> cs[1..][i + 1] == Step(o, cs[1..][i], r[1..][i]).0;
      Along(o, cs[1..], r[1..]);
    }
  }

  const Z: Cw := [4, 4, 4, 4, 4, 4, 4, 4, 2, 2, 2, 2, 2, 2, 2, 2]

  lemma HalvesOfXZ()
    ensures X != Z && Fixed(X, Z, 1)
  {
    assert X[0] != Z[0];
    assert X[8..] == Z[8..];
  }

  lemma AcceptAt(o: Opts, c: Chan, m: Msg)
    requires Well(c) && Timed(c) && o.sensitive == 0 && c.stage == 3 && c.nextcyclecw == 1
    requires c.cw != m.cw && Fixed(c.cw, m.cw, 1)
    requires c.time + c.cycletime < m.now < CLOCKEND && m.now - c.time < Length(c)
    ensures At(Step(o, c, m).0, 3, c.cycletime, m.now - c.time - c.cycletime, m.now, 0, m.cw)
  {
    hide Fixed, CacheWords.Agreements, Place;
    StepWell(o, c, m);
  }

  lemma NextAt(o: Opts, c: Chan, m: Msg)
    requires Well(c) && c.stage < 3 && m.now > c.locktime && NextHalf(c.cw, m.cw) == 1
    ensures Step(o, c, m).0.stage == 3 ==> Step(o, c, m).0.nextcyclecw == 1
  {
    hide U32, NextHalf;
  }

  function ShortEnd(): seq<Msg> {
    [Msg(59000, Z, 0), Msg(70000, X, 0), Msg(78500, Y, 0)]
  }

  /** Seven words of a channel with a cycle of ten seconds; the fifth is eight seconds late, and after a lapse the cycle
      is learned anew. The late arrival is still remembered, and the window is shorter than the cycle. */
  function ShortWords(): seq<Msg> {
    SteadyWords(10000) + ShortEnd()
  }

  lemma ShortRun(o: Opts)
    requires o.keep <= 0 && o.sensitive == 0
    ensures Ticking(1000, ShortWords()) && Shape(Born(Msg(1000, X, 0)))
    ensures var c := After(o, Born(Msg(1000, X, 0)), ShortWords());
      c.stage == 3 && c.cycletime == 8500 && Length(c) == 8000
  {
    hide Step, InWindow, NextHalf, After, Born, Fixed;
    HalvesOfXY();
    HalvesOfXZ();
    var r := ShortEnd();
    SteadyRun(o, 10000);
    var c4 := After(o, Born(Msg(1000, X, 0)), SteadyWords(10000));
    var c5 := Step(o, c4, r[0]).0;
    AcceptAt(o, c4, r[0]);
    Closed(c5, 70000);
    var c6 := Step(o, c5, r[1]).0;
    LapseAt(o, c5, r[1]);
    var c7 := Step(o, c6, r[2]).0;
    LearnAt(o, c6, r[2]);
    Along(o, [c4, c5, c6, c7], r);
    AfterBoth(o, Born(Msg(1000, X, 0)), SteadyWords(10000), r);
  }
}
