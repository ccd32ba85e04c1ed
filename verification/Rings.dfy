/** The order of a circular list that is written down as a sequence, from its head on. */
module Rings {
  ghost predicate Distinct<T>(s: seq<T>) {
    forall i, j :: 0 <= i < j < |s| ==> s[i] != s[j]
  }

  function After<T>(s: seq<T>, i: nat): T
    requires i < |s|
  {
    if i + 1 < |s| then s[i + 1] else s[0]
  }

  function Before<T>(s: seq<T>, i: nat): T
    requires i < |s|
  {
    if i > 0 then s[i - 1] else s[|s| - 1]
  }

  function Without<T>(s: seq<T>, k: nat): seq<T>
    requires k < |s|
  {
    s[..k] + s[k + 1..]
  }

  /** The neighbours in the ring without one of at least three. */
  lemma Neighbours<T>(s: seq<T>, k: nat, i: nat)
    requires Distinct(s) && k < |s| && |s| > 2 && i < |s| - 1
    ensures var w, n := Without(s, k), if i < k then s[i] else s[i + 1]; var j := if i < k then i else i + 1;
      && w[i] == n == s[j] != s[k]
      && After(w, i) == (if n == Before(s, k) then After(s, k) else After(s, j))
      && Before(w, i) == (if n == After(s, k) then Before(s, k) else Before(s, j))
  {
  }
}
