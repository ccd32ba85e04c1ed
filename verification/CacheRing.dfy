/** The ring of the entries of one bucket: circular and doubly linked, with null links when it holds a single entry. */
module CacheRing {
  import opened Rings
  import opened CacheEntry

  /** `s` is the ring that starts at `head`. */
  ghost predicate Linked(head: Entry?, s: seq<Entry>)
    reads s`next, s`prev
  {
    && Distinct(s)
    && head == (if s == [] then null else s[0])
    && (|s| == 1 ==> s[0].next == null && s[0].prev == null)
    && (|s| > 1 ==> forall i :: 0 <= i < |s| ==> s[i].next == After(s, i) && s[i].prev == Before(s, i))
  }

  lemma Head(head: Entry?, s: seq<Entry>)
    requires Linked(head, s)
    ensures head == null <==> s == []
    ensures head != null ==> head == s[0] && (head.next == null <==> |s| == 1)
    ensures |s| > 1 ==> head.prev == s[|s| - 1]
  {
  }

  /** A walk through the links comes to the next entry, and to the head or to nothing behind the last one. */
  lemma Onward(head: Entry?, s: seq<Entry>, i: nat)
    requires Linked(head, s) && i < |s|
    ensures if i + 1 < |s| then s[i].next == s[i + 1] && s[i].next != head else s[i].next == null || s[i].next == head
  {
  }

  lemma Apart(head: Entry?, s: seq<Entry>)
    requires Linked(head, s)
    ensures Distinct(s)
  {
  }

  lemma Single(e: Entry)
    requires e.next == null && e.prev == null
    ensures Linked(e, [e] + [])
  {
    assert [e] + [] == [e];
  }

  /** A second entry beside the only one. */
  method Pair(head: Entry, e: Entry, ghost s: seq<Entry>)
    requires Linked(head, s) && |s| == 1 && e !in s
    modifies e`next, e`prev, s`next, s`prev
    ensures Linked(e, [e] + s)
  {
    e.prev := head;
    e.next := head;
    head.next := e;
    head.prev := e;
  }

  /** A new entry between the oldest and the newest one. */
  method Insert(head: Entry, e: Entry, ghost s: seq<Entry>)
    requires Linked(head, s) && |s| > 1 && e !in s
    modifies e`next, e`prev, s`next, s`prev
    ensures Linked(e, [e] + s)
  {
    e.prev := head.prev;
    e.next := head;
    head.prev.next := e;
    head.prev := e;
    ghost var w := [e] + s;
    forall i | 0 <= i < |w|
      ensures w[i].next == After(w, i) && w[i].prev == Before(w, i)
    {
      if i > 0 {
        assert w[i] == s[i - 1];
      }
    }
  }

  /** The oldest entry of at least two becomes the newest, where it stands. */
  lemma Rotated(head: Entry, e: Entry, s: seq<Entry>)
    requires Linked(head, s) && |s| > 1 && e == s[|s| - 1]
    ensures Linked(e, [e] + s[..|s| - 1]) && e.next == head && e !in s[..|s| - 1]
  {
    var w := [e] + s[..|s| - 1];
    forall i | 0 <= i < |w|
      ensures w[i].next == After(w, i) && w[i].prev == Before(w, i)
    {
      assert w[i] == if i == 0 then s[|s| - 1] else s[i - 1];
    }
  }
}
