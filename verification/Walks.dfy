/** Walks over a list that stands newest first and that end at the first node that is no longer alive. */
module Walks {
  /** What a lookup sees of a ring: it stops at the first node that is no longer alive. */
  function Scan(live: seq<bool>, hit: seq<bool>): (k: nat)
    requires |live| == |hit|
    ensures k <= |live|
    ensures k < |live| ==> live[k] && hit[k] && forall j :: 0 <= j < k ==> live[j] && !hit[j]
  {
    if live == [] then 0
    else if !live[0] then |live|
    else if hit[0] then 0
    else 1 + Scan(live[1..], hit[1..])
  }

  /** `k` nodes were looked at in vain, and the next one ends the walk. */
  lemma {:induction false} ScanIs(live: seq<bool>, hit: seq<bool>, k: nat)
    requires |live| == |hit| && k <= |live|
    requires forall j :: 0 <= j < k ==> live[j] && !hit[j]
    requires k < |live| ==> !live[k] || hit[k]
    ensures Scan(live, hit) == if k < |live| && !live[k] then |live| else k
  {
    if k > 0 {
      ScanIs(live[1..], hit[1..], k - 1);
    }
  }

  /** A ring that hides no living node behind a dead one. */
  predicate Unbroken(live: seq<bool>) {
    forall i, j :: 0 <= i < j < |live| && live[j] ==> live[i]
  }

  /** The walk misses no living match, whatever matches. */
  ghost predicate NeverMisses(live: seq<bool>) {
    forall hit: seq<bool>, i :: |hit| == |live| && 0 <= i < |live| && live[i] && hit[i] ==> Scan(live, hit) < |live|
  }

  lemma {:induction false} ScanFinds(live: seq<bool>, hit: seq<bool>, i: nat)
    requires |live| == |hit| && i < |live| && Unbroken(live) && live[i] && hit[i]
    ensures Scan(live, hit) <= i
  {
    if i > 0 {
      assert live[0];
      if !hit[0] {
        ScanFinds(live[1..], hit[1..], i - 1);
      }
    }
  }

  /** Stopping early is right exactly when no living node stands behind a dead one. */
  lemma EarlyStop(live: seq<bool>)
    ensures NeverMisses(live) <==> Unbroken(live)
  {
    if Unbroken(live) {
      forall hit: seq<bool>, i | |hit| == |live| && 0 <= i < |live| && live[i] && hit[i]
        ensures Scan(live, hit) < |live|
      {
        ScanFinds(live, hit, i);
      }
    } else {
      var i, j :| 0 <= i < j < |live| && live[j] && !live[i];
      var hit := seq(|live|, k => k == j);
      assert hit[j];
      var k := Scan(live, hit);
      assert k == |live| || k == j;
    }
  }

  // ---- When stopping early is right at every time

  /** What is alive at a time, given the last moment of each. */
  function AliveAt(ends: seq<nat>, now: nat): (live: seq<bool>)
    ensures |live| == |ends| && forall i :: 0 <= i < |ends| ==> live[i] == (ends[i] >= now)
  {
    if ends == [] then [] else [ends[0] >= now] + AliveAt(ends[1..], now)
  }

  predicate Descending(s: seq<nat>) {
    forall i, j :: 0 <= i < j < |s| ==> s[i] >= s[j]
  }

  ghost predicate AlwaysComplete(ends: seq<nat>) {
    forall now: nat :: NeverMisses(AliveAt(ends, now))
  }

  /** A walk that stops at the first dead node is complete at every time exactly when the nodes die from the last one
      to the first. */
  lemma CompleteIff(ends: seq<nat>)
    ensures AlwaysComplete(ends) <==> Descending(ends)
  {
    hide NeverMisses;
    if Descending(ends) {
      forall now: nat
        ensures NeverMisses(AliveAt(ends, now))
      {
        EarlyStop(AliveAt(ends, now));
      }
    } else {
      var i, j :| 0 <= i < j < |ends| && ends[i] < ends[j];
      var live := AliveAt(ends, ends[j]);
      assert !live[i] && live[j];
      EarlyStop(live);
    }
  }

  /** A retry lets node `k` of a ring live until `last`. From then on the lookups are complete at every time exactly
      when each node in front of it lives until that very moment. */
  lemma RetryHides(ends: seq<nat>, k: nat, last: nat)
    requires Descending(ends) && k < |ends| && ends[0] <= last
    ensures AlwaysComplete(ends[k := last]) <==> forall j :: 0 <= j < k ==> ends[j] == last
  {
    CompleteIff(ends[k := last]);
    assert ends[k := last][k] == last;
    assert forall j :: 0 <= j < k ==> ends[k := last][j] == ends[j];
  }
}
