/** The automaton that learns how a channel changes its control words and then judges each new word. */
module CycleCheck {
  import opened Bits
  import CacheWords

  type Cw = CacheWords.Cw

  const TOLERANCE: int := 2000
  const LOCKTIME: int := 3000
  const MAXHIST: nat := 15

  /** The options of the profile. */
  datatype Opts = Opts(sensitive: int, dropold: bool, dropbad: bool, keep: int)

  datatype Msg = Msg(now: nat, cw: Cw, hash: bv32)

  datatype Heard = Heard(hash: bv32, cw: Cw)

  datatype Chan = Chan(stage: int, cycletime: int, dyncycletime: int, nextcyclecw: int, time: int, locktime: int, cw: Cw,
    hist: seq<Heard>, histidx: int, repeat4: int, checked: int, ok: int, bad: int, ign: int)

  /** The cast to `uint32_t`. */
  function U32(x: int): int {
    x % 0x1_0000_0000
  }

  /** Half `h` of two words is the same. */
  predicate Fixed(a: Cw, b: Cw, h: int) {
    if h == 0 then a[..8] == b[..8] else a[8..] == b[8..]
  }

  function Other(cw: Cw, h: int): (s: seq<byte>)
    ensures |s| == 8
  {
    if h == 0 then cw[8..] else cw[..8]
  }

  predicate Shape(c: Chan) {
    |c.hist| == MAXHIST && 0 <= c.histidx < MAXHIST
  }

  // ---- Stage 3

  predicate InWindow(c: Chan, now: nat) {
    c.stage == 3 && c.nextcyclecw < 2 && U32(now - c.time) < U32(c.cycletime * 2 - c.dyncycletime - 1000)
  }

  predicate Accepts(o: Opts, c: Chan, cw: Cw) {
    && c.cw != cw && 0 <= c.nextcyclecw < 2 && Fixed(c.cw, cw, c.nextcyclecw)
    && (o.sensitive == 0 || CacheWords.Agreements(Other(c.cw, c.nextcyclecw), Other(cw, c.nextcyclecw)) < o.sensitive)
  }

  function Pushed(c: Chan, m: Msg): (r: Chan)
    requires |c.hist| == MAXHIST && -1 <= c.histidx < MAXHIST
    ensures |r.hist| == MAXHIST && 0 <= r.histidx < MAXHIST
  {
    var i := if c.histidx + 1 > MAXHIST - 1 then 0 else c.histidx + 1;
    c.(time := m.now, cw := m.cw, histidx := i, hist := c.hist[i := Heard(m.hash, m.cw)])
  }

  /** The first place of a hash among the words heard before. */
  function Place(hist: seq<Heard>, hash: bv32): (k: nat)
    ensures k <= |hist|
    ensures k < |hist| ==> hist[k].hash == hash && hash != 0
    ensures forall j :: 0 <= j < k ==> hist[j].hash == 0 || hist[j].hash != hash
  {
    if hist == [] || (hist[0].hash != 0 && hist[0].hash == hash) then 0 else 1 + Place(hist[1..], hash)
  }

  function Accepted(c: Chan, m: Msg): Chan
    requires Shape(c)
  {
    var d := c.(ok := c.ok + 1, nextcyclecw := if c.nextcyclecw == 1 then 0 else 1,
      dyncycletime := if U32(m.now - c.time) > U32(c.cycletime) then m.now - c.time - c.cycletime else 0);
    Pushed(d, m)
  }

  /** What happens to a word that is not accepted: only counters move. */
  function Refused(o: Opts, c: Chan, m: Msg): (Chan, bool)
  {
    if c.cw == m.cw then
      if U32(m.now - c.time) >= U32(c.cycletime - c.dyncycletime) && o.dropold then (c.(bad := c.bad + 1), true) else (c, false)
    else
      var k := Place(c.hist, m.hash);
      if k < |c.hist| then
        if !o.dropold && c.hist[k].cw == m.cw then (c, false) else (c.(bad := c.bad + 1), true)
      else if o.dropbad then (c.(bad := c.bad + 1), true)
      else (c.(ign := c.ign + 1), false)
  }

  // ---- The other stages

  function Expired(o: Opts, c: Chan, m: Msg): Chan
    requires Shape(c)
  {
    var stage := if o.keep > 0 && U32(m.now - c.time) < U32(o.keep * 60000) then 4 else 2;
    Pushed(c.(stage := stage, nextcyclecw := 2, ign := c.ign + 1), m)
  }

  /** The half that must stay next time, when just one half changed: the one that changed now. */
  function NextHalf(a: Cw, b: Cw): int {
    if a[..8] == b[..8] && a[8..] != b[8..] then 1
    else if a[..8] != b[..8] && a[8..] == b[8..] then 0
    else 2
  }

  function Relearned(c: Chan, m: Msg): Chan
    requires Shape(c)
  {
    var next := NextHalf(c.cw, m.cw);
    var d := if next < 2 then c.(nextcyclecw := next, stage := 3, repeat4 := 0)
      else if c.repeat4 + 1 > 12 then c.(nextcyclecw := 2, repeat4 := c.repeat4 + 1, stage := 1)
      else c.(nextcyclecw := 2, repeat4 := c.repeat4 + 1);
    Pushed(d, m)
  }

  predicate Near(gap: int, cycletime: int) {
    -TOLERANCE < gap - cycletime < TOLERANCE
  }

  function Learned(c: Chan, m: Msg): Chan
    requires Shape(c)
  {
    if m.now - c.locktime <= 0 then c
    else
      var gap := m.now - c.time;
      var near := Near(gap, c.cycletime);
      var next := NextHalf(c.cw, m.cw);
      var d :=
        if c.stage <= 0 then c.(stage := if near then 1 else c.stage)
        else if c.stage == 1 then c.(stage := if near then 2 else 0)
        else if near && c.cycletime > 0 then
          if next < 2 then c.(nextcyclecw := next, stage := 3, repeat4 := 0)
          else c.(nextcyclecw := 2, stage := 1)
        else c.(stage := 1);
      Pushed(d.(cycletime := gap, locktime := if d.stage == 3 then 0 else m.now + LOCKTIME), m)
  }

  /** One word of a known channel: the channel after it, and whether the word is dropped. */
  function Step(o: Opts, b: Chan, m: Msg): (r: (Chan, bool))
    requires Shape(b)
    ensures Shape(r.0)
  {
    var c := b.(checked := b.checked + 1);
    if InWindow(c, m.now) then
      if Accepts(o, c, m.cw) then (Accepted(c, m), false) else Refused(o, c, m)
    else if c.stage == 3 then (Expired(o, c, m), false)
    else if c.stage == 4 then (Relearned(c, m), false)
    else (Learned(c, m), false)
  }

  function NullHeard(): Heard {
    Heard(0, [0, 0, 0, 0, 0, 0, 0, 0, 0, 0, 0, 0, 0, 0, 0, 0])
  }

  function Silence(n: nat): (s: seq<Heard>)
    ensures |s| == n && forall i :: 0 <= i < n ==> s[i] == NullHeard()
  {
    if n == 0 then [] else Silence(n - 1) + [NullHeard()]
  }

  /** The channel of the first word. */
  function Born(m: Msg): Chan {
    Pushed(Chan(0, 99000, 0, 2, m.now, m.now + LOCKTIME, m.cw, Silence(MAXHIST), -1, 0, 0, 0, 0, 0), m)
  }

  // ---- Runs

  function After(o: Opts, c: Chan, run: seq<Msg>): (r: Chan)
    requires Shape(c)
    ensures Shape(r)
    decreases |run|
  {
    if run == [] then c else After(o, Step(o, c, run[0]).0, run[1..])
  }

  function Verdicts(o: Opts, c: Chan, run: seq<Msg>): (v: seq<bool>)
    requires Shape(c)
    ensures |v| == |run|
    decreases |run|
  {
    if run == [] then [] else [Step(o, c, run[0]).1] + Verdicts(o, Step(o, c, run[0]).0, run[1..])
  }

  lemma {:induction false} AfterBoth(o: Opts, c: Chan, first: seq<Msg>, second: seq<Msg>)
    requires Shape(c)
    ensures After(o, c, first + second) == After(o, After(o, c, first), second)
    ensures Verdicts(o, c, first + second) == Verdicts(o, c, first) + Verdicts(o, After(o, c, first), second)
    decreases |first|
  {
    hide Step;
    if first == [] {
      assert first + second == second;
    } else {
      assert (first + second)[1..] == first[1..] + second;
      AfterBoth(o, Step(o, c, first[0]).0, first[1..], second);
    }
  }

  // ---- Stage 3 and the half that must stay

  predicate Well(c: Chan) {
    Shape(c) && 0 <= c.stage <= 4 && 0 <= c.nextcyclecw <= 2 && (c.stage == 3 <==> c.nextcyclecw < 2)
  }

  lemma StepWell(o: Opts, c: Chan, m: Msg)
    requires Well(c)
    ensures Well(Step(o, c, m).0)
  {
    hide CacheWords.Agreements, Place, U32, Fixed;
  }

  /** In every reachable channel stage 3 is exactly where the automaton knows which half must stay. */
  lemma {:induction false} Stage3Knows(o: Opts, c: Chan, run: seq<Msg>)
    requires Well(c)
    ensures Well(After(o, c, run))
    decreases |run|
  {
    hide Step;
    if run != [] {
      StepWell(o, c, run[0]);
      Stage3Knows(o, Step(o, c, run[0]).0, run[1..]);
    }
  }

  lemma BornWell(m: Msg)
    ensures Well(Born(m))
  {
  }

  // ---- Before the first arrival

  predicate Learns(c: Chan, m: Msg) {
    c.stage < 3 && m.now > c.locktime
  }

  /** The gaps between the words that the automaton learned from. */
  function Gaps(o: Opts, c: Chan, run: seq<Msg>): seq<int>
    requires Shape(c)
    decreases |run|
  {
    if run == [] then []
    else (if Learns(c, run[0]) then [run[0].now - c.time] else []) + Gaps(o, Step(o, c, run[0]).0, run[1..])
  }

  /** What a channel that never was in stage 3 owes to the gaps `g` it has learned so far. */
  predicate Apprentice(c: Chan, g: seq<int>) {
    && Well(c) && c.stage <= 2 && c.locktime == c.time + LOCKTIME && c.dyncycletime == 0
    && (forall i :: 0 <= i < |g| ==> g[i] > LOCKTIME)
    && (g != [] ==> c.cycletime == g[|g| - 1])
    && (c.stage >= 1 ==> |g| >= 1)
    && (c.stage == 2 ==> |g| >= 2 && Near(g[|g| - 1], g[|g| - 2]))
  }

  /** The last three gaps are longer than the lock and close to one another. */
  predicate Steady(g: seq<int>) {
    && |g| >= 3
    && g[|g| - 1] > LOCKTIME && g[|g| - 2] > LOCKTIME && g[|g| - 3] > LOCKTIME
    && Near(g[|g| - 1], g[|g| - 2]) && Near(g[|g| - 2], g[|g| - 3])
  }

  lemma ApprenticeStep(o: Opts, c: Chan, g: seq<int>, m: Msg)
    requires Apprentice(c, g)
    ensures var d := Step(o, c, m).0; var h := g + if Learns(c, m) then [m.now - c.time] else [];
      if d.stage == 3 then Steady(h) && d.cycletime == h[|h| - 1] && d.dyncycletime == 0 else Apprentice(d, h)
  {
    hide CacheWords.Agreements, Place, U32, Fixed, NextHalf;
    if !Learns(c, m) {
      assert g + [] == g;
    }
  }

  /** The first time a channel is in stage 3 it has learned from three gaps in a row, each longer than the lock, the
      neighbours closer than the tolerance, and the last of them is the cycle time. */
  lemma {:induction false} FirstArrival(o: Opts, c: Chan, g: seq<int>, run: seq<Msg>)
    requires Apprentice(c, g) && run != [] && After(o, c, run).stage == 3
    requires NeverBefore(o, c, run)
    ensures var h, d := g + Gaps(o, c, run), After(o, c, run); Steady(h) && d.cycletime == h[|h| - 1] && d.dyncycletime == 0
    decreases |run|
  {
    hide Step, Steady, Near, Gaps, After, NeverBefore, Learns;
    var d, rest := Step(o, c, run[0]).0, run[1..];
    var h := g + if Learns(c, run[0]) then [run[0].now - c.time] else [];
    ApprenticeStep(o, c, g, run[0]);
    GapsNext(o, c, g, run);
    if rest == [] {
      AfterNone(o, d);
    } else {
      NeverBeforeTail(o, c, run);
      FirstArrival(o, d, h, rest);
    }
  }

  lemma GapsNext(o: Opts, c: Chan, g: seq<int>, run: seq<Msg>)
    requires Shape(c) && run != []
    ensures var h := g + if Learns(c, run[0]) then [run[0].now - c.time] else [];
      g + Gaps(o, c, run) == h + Gaps(o, Step(o, c, run[0]).0, run[1..])
    ensures After(o, c, run) == After(o, Step(o, c, run[0]).0, run[1..])
  {
    hide Step, Learns;
    var a := if Learns(c, run[0]) then [run[0].now - c.time] else [];
    var b := Gaps(o, Step(o, c, run[0]).0, run[1..]);
    assert Gaps(o, c, run) == a + b;
    assert g + (a + b) == (g + a) + b;
  }

  lemma AfterNone(o: Opts, c: Chan)
    requires Shape(c)
    ensures After(o, c, []) == c && Gaps(o, c, []) == [] && forall h: seq<int> :: h + [] == h
  {
  }

  lemma NeverBeforeTail(o: Opts, c: Chan, run: seq<Msg>)
    requires Shape(c) && |run| > 1 && NeverBefore(o, c, run)
    ensures Step(o, c, run[0]).0.stage != 3 && NeverBefore(o, Step(o, c, run[0]).0, run[1..])
  {
    hide Step;
    var d := Step(o, c, run[0]).0;
    forall k | 0 <= k < |run| - 1
      ensures After(o, d, run[1..][..k]).stage != 3
    {
      assert run[..k + 1][1..] == run[1..][..k];
      assert After(o, c, run[..k + 1]) == After(o, d, run[1..][..k]);
    }
    assert run[1..][..0] == [];
    assert After(o, d, run[1..][..0]) == d;
  }

  lemma BornApprentice(m: Msg)
    ensures Apprentice(Born(m), [])
  {
  }

  /** Both for the channel of a first word. */
  lemma ReachableChannels(o: Opts, first: Msg, run: seq<Msg>)
    ensures Well(After(o, Born(first), run))
    ensures run != [] && After(o, Born(first), run).stage == 3 && NeverBefore(o, Born(first), run) ==>
      Steady(Gaps(o, Born(first), run)) && After(o, Born(first), run).cycletime > LOCKTIME && After(o, Born(first), run).dyncycletime == 0
  {
    hide Step, Born;
    BornWell(first);
    BornApprentice(first);
    Stage3Knows(o, Born(first), run);
    if run != [] && After(o, Born(first), run).stage == 3 && NeverBefore(o, Born(first), run) {
      FirstArrival(o, Born(first), [], run);
      assert [] + Gaps(o, Born(first), run) == Gaps(o, Born(first), run);
    }
  }

  predicate NeverBefore(o: Opts, c: Chan, run: seq<Msg>)
    requires Shape(c)
  {
    forall k :: 0 <= k < |run| ==> After(o, c, run[..k]).stage != 3
  }

  // ---- A stretch in stage 3

  /** The words accepted along a run. */
  function Passed(o: Opts, c: Chan, run: seq<Msg>): seq<Cw>
    requires Shape(c)
    decreases |run|
  {
    if run == [] then []
    else (if InWindow(c, run[0].now) && Accepts(o, c, run[0].cw) then [run[0].cw] else []) + Passed(o, Step(o, c, run[0]).0, run[1..])
  }

  /** Each word keeps half `h` of the one before it and changes the other, and `h` changes from word to word. */
  predicate Alternates(cw: Cw, h: int, words: seq<Cw>)
    decreases |words|
  {
    words == [] || (words[0] != cw && Fixed(cw, words[0], h) && Alternates(words[0], if h == 0 then 1 else 0, words[1..]))
  }

  /** A run that never leaves stage 3. */
  predicate Stays(o: Opts, c: Chan, run: seq<Msg>)
    requires Shape(c)
    decreases |run|
  {
    c.stage == 3 && (run == [] || (InWindow(c, run[0].now) && Stays(o, Step(o, c, run[0]).0, run[1..])))
  }

  /** In an uninterrupted stretch the accepted words alternate in the half that stays; the stored word and the half to
      stay are at every moment those of the last accepted word. */
  lemma {:induction false} StretchAlternates(o: Opts, c: Chan, run: seq<Msg>)
    requires Well(c) && Stays(o, c, run)
    ensures Alternates(c.cw, c.nextcyclecw, Passed(o, c, run))
    ensures var p := Passed(o, c, run);
      After(o, c, run).cw == (if p == [] then c.cw else p[|p| - 1])
    decreases |run|
  {
    hide Step, Fixed;
    if run != [] {
      StepWell(o, c, run[0]);
      JudgeWord(o, c, run[0]);
      StretchAlternates(o, Step(o, c, run[0]).0, run[1..]);
      var w := run[0].cw;
      var rest := Passed(o, Step(o, c, run[0]).0, run[1..]);
      if Accepts(o, c, w) {
        assert ([w] + rest)[1..] == rest;
      } else {
        assert [] + rest == rest;
      }
    }
  }

  lemma JudgeWord(o: Opts, c: Chan, m: Msg)
    requires Well(c) && InWindow(c, m.now)
    ensures var d := Step(o, c, m).0;
      if Accepts(o, c, m.cw) then d.cw == m.cw != c.cw && Fixed(c.cw, m.cw, c.nextcyclecw) && d.nextcyclecw == 1 - c.nextcyclecw
      else Essence(d) == Essence(c)
  {
    hide Fixed, CacheWords.Agreements, Place, U32;
  }

  // ---- A word that is not accepted leaves no trace

  /** A channel without its counters. */
  function Essence(c: Chan): Chan {
    c.(checked := 0, ok := 0, bad := 0, ign := 0)
  }

  lemma RefusedBlind(o: Opts, c: Chan, d: Chan, m: Msg)
    requires Essence(c) == Essence(d)
    ensures Refused(o, c, m).1 == Refused(o, d, m).1 && Essence(Refused(o, c, m).0) == Essence(Refused(o, d, m).0)
  {
    hide Place, U32;
  }

  lemma LearnedBlind(c: Chan, d: Chan, m: Msg)
    requires Shape(c) && Shape(d) && Essence(c) == Essence(d)
    ensures Essence(Learned(c, m)) == Essence(Learned(d, m)) && Essence(Relearned(c, m)) == Essence(Relearned(d, m))
  {
    hide NextHalf;
  }

  lemma StepBlind(o: Opts, c: Chan, d: Chan, m: Msg)
    requires Shape(c) && Shape(d) && Essence(c) == Essence(d)
    ensures Step(o, c, m).1 == Step(o, d, m).1
    ensures Essence(Step(o, c, m).0) == Essence(Step(o, d, m).0)
  {
    hide Fixed, CacheWords.Agreements, Place, U32, NextHalf, Refused, Learned, Relearned;
    var b, e := c.(checked := c.checked + 1), d.(checked := d.checked + 1);
    RefusedBlind(o, b, e, m);
    LearnedBlind(b, e, m);
  }

  lemma {:induction false} RunBlind(o: Opts, c: Chan, d: Chan, run: seq<Msg>)
    requires Shape(c) && Shape(d) && Essence(c) == Essence(d)
    ensures Verdicts(o, c, run) == Verdicts(o, d, run) && Essence(After(o, c, run)) == Essence(After(o, d, run))
    decreases |run|
  {
    hide Step, Essence;
    if run != [] {
      StepBlind(o, c, d, run[0]);
      RunBlind(o, Step(o, c, run[0]).0, Step(o, d, run[0]).0, run[1..]);
    }
  }

  /** Taking a word that was judged and not accepted out of a run changes no verdict on the other words. */
  lemma RefusedLeavesNoTrace(o: Opts, c: Chan, before: seq<Msg>, m: Msg, later: seq<Msg>)
    requires Well(c)
    requires var d := After(o, c, before); InWindow(d, m.now) && !Accepts(o, d, m.cw)
    ensures var d := After(o, c, before);
      && Verdicts(o, c, before + later) == Verdicts(o, c, before) + Verdicts(o, d, later)
      && Verdicts(o, c, before + [m] + later) == Verdicts(o, c, before) + [Step(o, d, m).1] + Verdicts(o, d, later)
      && Essence(After(o, c, before + [m] + later)) == Essence(After(o, c, before + later))
  {
    hide Step, Essence, InWindow, Accepts;
    var d := After(o, c, before);
    Stage3Knows(o, c, before);
    AfterBoth(o, c, before, later);
    AfterBoth(o, c, before + [m], later);
    AfterBoth(o, c, before, [m]);
    assert [m][1..] == [];
    JudgeWord(o, d, m);
    RunBlind(o, Step(o, d, m).0, d, later);
  }
}
