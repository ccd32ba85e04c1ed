/** Boyer-Moore-Horspool search in a buffer. */
module Horspool {
  import opened Bits

  predicate MatchAt(h: seq<byte>, n: seq<byte>, p: nat) {
    p + |n| <= |h| && h[p..p + |n|] == n
  }

  /** The distance from the last place of `c` among the first `k` bytes of the needle to the needle's last byte, or the
      length of the needle. */
  function Skip(n: seq<byte>, k: nat, c: byte): (d: nat)
    requires k < |n|
    ensures 1 <= d <= |n|
  {
    if k == 0 then |n|
    else if n[k - 1] == c then |n| - k
    else Skip(n, k - 1, c)
  }

  lemma {:induction false} SkipReaches(n: seq<byte>, k: nat, j: nat)
    requires j < k < |n|
    ensures Skip(n, k, n[j]) <= |n| - 1 - j
  {
    if n[k - 1] != n[j] {
      SkipReaches(n, k - 1, j);
    }
  }

  /** The skip passes over no match. */
  lemma SkipIsSafe(h: seq<byte>, n: seq<byte>, p: nat, q: nat)
    requires n != [] && p + |n| <= |h|
    requires p < q < p + Skip(n, |n| - 1, h[p + |n| - 1])
    ensures !MatchAt(h, n, q)
  {
    if MatchAt(h, n, q) {
      var j := p + |n| - 1 - q;
      assert h[q..q + |n|][j] == n[j] == h[p + |n| - 1];
      SkipReaches(n, |n| - 1, j);
    }
  }

  lemma SkipZero(n: seq<byte>, c: byte)
    requires n != []
    ensures Skip(n, 0, c) == |n|
  {
  }

  lemma SkipNext(n: seq<byte>, k: nat, m: nat)
    requires m == k + 1 < |n|
    ensures forall c: byte :: Skip(n, m, c) == if n[k] == c then |n| - 1 - k else Skip(n, k, c)
  {
  }

  method BadCharSkip(needle: array<byte>, nlen: nat, ghost n: seq<byte>, ghost k: nat) returns (skip: array<nat>)
    requires 0 < nlen <= needle.Length && n == needle[..nlen] && k == nlen - 1
    ensures fresh(skip) && skip.Length == 256
    ensures forall c: byte :: skip[c as int] == Skip(n, k, c)
  {
    hide Skip;
    skip := new nat[256];
    var scan := 0;
    while scan < 256
      invariant 0 <= scan <= 256
      invariant forall i :: 0 <= i < scan ==> skip[i] == nlen
    {
      skip[scan] := nlen;
      scan := scan + 1;
    }
    forall c: byte ensures Skip(n, 0, c) == nlen {
      SkipZero(n, c);
    }
    var last := nlen - 1;
    scan := 0;
    while scan < last
      invariant 0 <= scan <= last
      invariant forall c: byte :: skip[c as int] == Skip(n, scan, c)
    {
      assert needle[scan] == n[scan];
      SkipNext(n, scan, scan + 1);
      skip[needle[scan] as int] := last - scan;
      scan := scan + 1;
    }
  }

  /** The place of the first occurrence of the needle, and -1 for a null pointer. */
  method Memmem(haystack: array?<byte>, hlen: int, needle: array?<byte>, nlen: int) returns (p: int)
    requires haystack != null ==> hlen <= haystack.Length
    requires needle != null ==> nlen <= needle.Length
    ensures p == -1 || (haystack != null && needle != null && 0 < nlen && 0 <= p <= hlen - nlen)
    ensures p != -1 ==> MatchAt(haystack[..hlen], needle[..nlen], p)
    ensures haystack != null && needle != null && nlen > 0 ==>
      forall q :: 0 <= q <= hlen - nlen && (p == -1 || q < p) ==> !MatchAt(haystack[..hlen], needle[..nlen], q)
  {
    if nlen <= 0 || haystack == null || needle == null {
      return -1;
    }
    var skip := BadCharSkip(needle, nlen, needle[..nlen], nlen - 1);
    var last := nlen - 1;
    var at, left := 0, hlen;
    ghost var h, n := if hlen >= 0 then haystack[..hlen] else [], needle[..nlen];
    while left >= nlen
      invariant 0 <= at && (hlen >= 0 ==> left >= 0 && at + left == hlen) && (hlen < 0 ==> left == hlen)
      invariant forall q :: 0 <= q < at && q <= hlen - nlen ==> !MatchAt(h, n, q)
      decreases left
    {
      var scan := last;
      while haystack[at + scan] == needle[scan]
        invariant 0 <= scan <= last
        invariant forall i :: scan < i <= last ==> h[at + i] == n[i]
        decreases scan
      {
        if scan == 0 {
          assert h[at..at + |n|] == n;
          return at;
        }
        scan := scan - 1;
      }
      assert h[at..at + |n|][scan] != n[scan];
      var c := haystack[at + last];
      var step := skip[c as int];
      assert last == |n| - 1 && |h| == hlen;
      assert c == h[at + last];
      assert step == Skip(n, |n| - 1, h[at + |n| - 1]);
      forall q | at < q < at + step && q <= hlen - nlen
        ensures !MatchAt(h, n, q)
      {
        SkipIsSafe(h, n, at, q);
      }
      left := left - step;
      at := at + step;
    }
    return -1;
  }
}
