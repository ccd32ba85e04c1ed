/** A channel of the cycle check, updated in place. */
module CycleChannel {
  import opened Bits
  import CacheWords
  import opened CycleCheck

  /** `memcmp`: which non-zero value it returns for words that differ is open. */
  method MemCmp(a: seq<byte>, b: seq<byte>) returns (r: int)
    requires |a| == |b|
    ensures r == 0 <==> a == b
  {
    var i := 0;
    while i < |a|
      invariant i <= |a| && a[..i] == b[..i]
    {
      if a[i] != b[i] {
        return (a[i] as int) - (b[i] as int);
      }
      i := i + 1;
    }
    assert a[..i] == a && b[..i] == b;
    return 0;
  }

  method CountCWpart(old_: Cw, cw: Cw, nextcyclecw: int) returns (n: int)
    requires 0 <= nextcyclecw < 2
    ensures n == CacheWords.Agreements(Other(old_, nextcyclecw), Other(cw, nextcyclecw))
  {
    var eo := if nextcyclecw != 0 then 0 else 8;
    ghost var a, b := Other(old_, nextcyclecw), Other(cw, nextcyclecw);
    assert a == old_[eo..eo + 8] && b == cw[eo..eo + 8];
    n := 0;
    for i := 0 to 8
      invariant n == CacheWords.Agreements(a[..i], b[..i])
    {
      assert a[..i + 1][..i] == a[..i] && b[..i + 1][..i] == b[..i];
      assert old_[i + eo] == a[i] && cw[i + eo] == b[i];
      if old_[i + eo] == cw[i + eo] {
        n := n + 1;
      }
    }
    assert a[..8] == a && b[..8] == b;
  }

  class Channel {
    var stage: int
    var cycletime: int
    var dyncycletime: int
    var nextcyclecw: int
    var time: int
    var locktime: int
    var cw: Cw
    const hist: array<Heard>
    var histidx: int
    var repeat4: int
    var checked: int
    var ok: int
    var bad: int
    var ign: int

    ghost function View(): Chan
      reads this, hist
    {
      Chan(stage, cycletime, dyncycletime, nextcyclecw, time, locktime, cw, hist[..], histidx, repeat4, checked, ok, bad, ign)
    }

    ghost predicate Valid()
      reads this, hist
    {
      Well(View())
    }

    /** `cwc_new`. */
    constructor (m: Msg)
      ensures Valid() && View() == Born(m) && fresh(hist)
    {
      stage, cycletime, dyncycletime, nextcyclecw := 0, 99000, 0, 2;
      time, locktime := m.now, m.now + LOCKTIME;
      cw := m.cw;
      hist := new Heard[MAXHIST](_ => NullHeard());
      histidx, repeat4, checked, ok, bad, ign := 0, 0, 0, 0, 0, 0;
      new;
      hist[0] := Heard(m.hash, m.cw);
      assert hist[..] == Silence(MAXHIST)[0 := Heard(m.hash, m.cw)];
    }

    /** Stores a word and its time. */
    method HistPush(m: Msg)
      requires Shape(View())
      modifies this`time, this`cw, this`histidx, hist
      ensures View() == Pushed(old(View()), m)
    {
      time := m.now;
      cw := m.cw;
      histidx := histidx + 1;
      if histidx > MAXHIST - 1 {
        histidx := 0;
      }
      hist[histidx] := Heard(m.hash, m.cw);
    }

    /** `nextcyclecw` after a word that may have changed one half. */
    method FindHalf(w: Cw) returns (next: int)
      requires nextcyclecw == 2
      ensures next == NextHalf(cw, w) && 0 <= next <= 2
    {
      next := nextcyclecw;
      var n := MemCmp(cw[..8], w[..8]);
      var m := MemCmp(cw[8..], w[8..]);
      if n == 0 {
        next := 1;
      }
      if m == 0 {
        next := 0;
      }
      if n == m {
        next := 2;
      }
    }

    method Search(hash: bv32) returns (k: nat)
      requires Shape(View())
      ensures k == Place(hist[..], hash)
    {
      k := 0;
      while k < MAXHIST && !(hist[k].hash != 0 && hist[k].hash == hash)
        invariant k <= MAXHIST && forall j :: 0 <= j < k ==> hist[j].hash == 0 || hist[j].hash != hash
      {
        k := k + 1;
      }
    }

    /** Which half of a new word is the one that had to stay: negative when neither, or when too much of the other half
        stayed as well. */
    method FollowsCycle(o: Opts, w: Cw) returns (cycleok: int)
      requires 0 <= nextcyclecw < 2 && cw != w
      ensures cycleok >= 0 <==> Accepts(o, View(), w)
      ensures cycleok >= 0 ==> cycleok == nextcyclecw
    {
      hide CacheWords.Agreements, Other;
      cycleok := -1;
      if nextcyclecw == 0 {
        if cw[..8] == w[..8] {
          cycleok := 0;
        }
      } else if nextcyclecw == 1 {
        if cw[8..] == w[8..] {
          cycleok := 1;
        }
      }
      if cycleok >= 0 && o.sensitive != 0 {
        var n := CountCWpart(cw, w, nextcyclecw);
        if n >= o.sensitive {
          cycleok := -2;
        }
      }
    }

    /** A word that does not follow: known words are judged by their history. */
    method Unexpected(o: Opts, m: Msg) returns (drop: bool)
      requires Shape(View()) && cw != m.cw
      modifies this`bad, this`ign
      ensures (View(), drop) == Refused(o, old(View()), m)
    {
      hide Place, U32;
      drop := false;
      var k := Search(m.hash);
      if k < MAXHIST {
        if o.dropold || hist[k].cw != m.cw {
          bad := bad + 1;
          drop := true;
        }
      } else if o.dropbad {
        bad := bad + 1;
        drop := true;
      } else {
        ign := ign + 1;
      }
    }

    /** Stage 3, inside the window. */
    method Judge(o: Opts, m: Msg) returns (drop: bool)
      requires Valid() && InWindow(View(), m.now) && 0 <= time <= m.now < 0x8000_0000
      modifies this, hist
      ensures (View(), drop) == if Accepts(o, old(View()), m.cw) then (Accepted(old(View()), m), false) else Refused(o, old(View()), m)
    {
      hide Place, CacheWords.Agreements, Other, U32;
      drop := false;
      if cw == m.cw {
        if U32(m.now - time) >= U32(cycletime - dyncycletime) {
          if o.dropold {
            bad := bad + 1;
            drop := true;
          }
        }
        return;
      }
      var cycleok := FollowsCycle(o, m.cw);
      if cycleok >= 0 {
        ok := ok + 1;
        nextcyclecw := if cycleok != 0 then 0 else 1;
        dyncycletime := if U32(m.now - time) > U32(cycletime) then m.now - time - cycletime else 0;
        HistPush(m);
      } else {
        drop := Unexpected(o, m);
      }
    }

    /** Stages 0 to 2. */
    method Learn(m: Msg)
      requires Valid() && stage < 3 && 0 <= time <= m.now < 0x8000_0000
      modifies this, hist
      ensures View() == Learned(old(View()), m)
    {
      hide NextHalf;
      if m.now - locktime > 0 {
        var diff := m.now - time - cycletime;
        if stage <= 0 {
          if diff > -TOLERANCE && diff < TOLERANCE {
            cycletime := m.now - time;
            stage := 1;
          }
        } else if stage == 1 {
          if diff > -TOLERANCE && diff < TOLERANCE {
            cycletime := m.now - time;
            stage := 2;
          } else {
            stage := 0;
          }
        } else {
          if diff > -TOLERANCE && diff < TOLERANCE && cycletime > 0 {
            nextcyclecw := FindHalf(m.cw);
            if nextcyclecw < 2 {
              cycletime := m.now - time;
              stage := 3;
              repeat4 := 0;
              locktime := 0;
            } else {
              stage := 1;
            }
          } else {
            stage := 1;
          }
        }
        if stage < 3 {
          cycletime := m.now - time;
        }
        if stage != 3 {
          locktime := m.now + LOCKTIME;
        }
        HistPush(m);
      }
    }

    /** Stage 4. */
    method Relearn(m: Msg)
      requires Valid() && stage == 4
      modifies this, hist
      ensures View() == Relearned(old(View()), m)
    {
      hide NextHalf;
      nextcyclecw := FindHalf(m.cw);
      if nextcyclecw < 2 {
        stage := 3;
        repeat4 := 0;
      } else {
        repeat4 := repeat4 + 1;
        if repeat4 > 12 {
          stage := 1;
        }
      }
      HistPush(m);
    }

    /** `cwc_check` for a known channel; `applies` says that some profile checks this system and that the word is neither
        null nor half null. */
    method Check(o: Opts, applies: bool, m: Msg) returns (drop: bool)
      requires Valid() && 0 <= time <= m.now < 0x8000_0000
      modifies this, hist
      ensures Valid()
      ensures (View(), drop) == if applies then Step(o, old(View()), m) else (old(View()), false)
    {
      hide Learned, Relearned, Accepted, Refused, Accepts, U32;
      if !applies {
        return false;
      }
      drop := false;
      StepWell(o, View(), m);
      checked := checked + 1;
      if stage == 3 && nextcyclecw < 2 && U32(m.now - time) < U32(cycletime * 2 - dyncycletime - 1000) {
        drop := Judge(o, m);
      } else if stage == 3 {
        if o.keep > 0 && U32(m.now - time) < U32(o.keep * 60000) {
          stage := 4;
        } else {
          stage := 2;
        }
        nextcyclecw := 2;
        ign := ign + 1;
        HistPush(m);
      } else if stage == 4 {
        Relearn(m);
      } else {
        Learn(m);
      }
    }
  }
}
