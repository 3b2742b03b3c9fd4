/** The intrusive lists of uthash.h: every item carries two pairs of links, one for the
    insertion-order list of the whole table and one for the chain of its bucket. */
module HashItems {
  import opened Basics

  type word = x: nat | x < 0x1_0000_0000
  type Key = seq<byte>

  /** An element with its UT_hash_handle. */
  class Item {
    const key: Key
    var hashv: word
    var prev: Item?
    var next: Item?
    var hhPrev: Item?
    var hhNext: Item?

    constructor (key: Key)
      ensures this.key == key
    {
      this.key := key;
    }
  }

  /** The element at a position, null off either end. */
  function At(s: seq<Item>, i: int): Item? { if 0 <= i < |s| then s[i] else null }

  ghost function Objects(s: seq<Item>): set<Item> { set x | x in s }

  ghost predicate Distinct(s: seq<Item>) { forall i, j :: 0 <= i < j < |s| ==> s[i] != s[j] }

  /** s is linked through next and prev, in order, with null at both ends. */
  ghost predicate Linked(s: seq<Item>)
    reads s`next, s`prev
  {
    forall i :: 0 <= i < |s| ==> s[i].next == At(s, i + 1) && s[i].prev == At(s, i - 1)
  }

  /** s is linked through hhNext, front to back. */
  ghost predicate Forward(s: seq<Item>)
    reads s`hhNext
  {
    forall i :: 0 <= i < |s| ==> s[i].hhNext == At(s, i + 1)
  }

  ghost predicate Chained(s: seq<Item>)
    reads s`hhNext, s`hhPrev
  {
    forall i :: 0 <= i < |s| ==> s[i].hhNext == At(s, i + 1) && s[i].hhPrev == At(s, i - 1)
  }

  function Without<X>(s: seq<X>, p: nat): seq<X>
    requires p < |s|
  {
    s[..p] + s[p + 1..]
  }

  lemma WithoutAt(s: seq<Item>, p: nat, i: int)
    requires p < |s|
    ensures At(Without(s, p), i) == At(s, if i < p then i else i + 1)
  {}

  lemma DistinctWithout(s: seq<Item>, p: nat)
    requires p < |s| && Distinct(s)
    ensures Distinct(Without(s, p)) && s[p] !in Without(s, p)
    ensures Objects(Without(s, p)) == Objects(s) - {s[p]}
  {
    var t := Without(s, p);
    forall i | 0 <= i < |t| ensures t[i] == (if i < p then s[i] else s[i + 1]) {}
    forall x | x in Objects(s) - {s[p]} ensures x in t {
      var i :| 0 <= i < |s| && s[i] == x;
      assert x == t[if i < p then i else i - 1];
    }
  }

  // ---------- insertion-order list ----------

  /** The append in HASH_ADD_KEYPTR; the new element's next is already null. */
  method AppendOrder(last: Item, it: Item, ghost s: seq<Item>)
    requires Linked(s) && Distinct(s) && |s| > 0 && last == s[|s| - 1] && it !in s && it.next == null
    modifies {last, it}`next, {it}`prev
    ensures Linked(s + [it]) && Distinct(s + [it])
  {
    last.next := it;
    it.prev := last;
    ghost var t := s + [it];
    forall i | 0 <= i < |t|
      ensures t[i].next == At(t, i + 1) && t[i].prev == At(t, i - 1)
    {
      if i < |s| { assert t[i] == s[i]; }
    }
  }

  /** The patch-up of next and prev in HASH_DELETE; the caller moves head and tail. */
  method UnlinkOrder(del: Item, ghost s: seq<Item>, ghost p: nat)
    requires Linked(s) && Distinct(s) && p < |s| && s[p] == del
    modifies (Objects(s) - {del})`next, (Objects(s) - {del})`prev
    ensures Linked(Without(s, p)) && Distinct(Without(s, p))
  {
    if del.prev != null {
      assert del.prev == s[p - 1];
      del.prev.next := del.next;
    }
    if del.next != null {
      assert del.next == s[p + 1];
      del.next.prev := del.prev;
    }
    DistinctWithout(s, p);
    ghost var t := Without(s, p);
    forall i | 0 <= i < |t|
      ensures t[i].next == At(t, i + 1) && t[i].prev == At(t, i - 1)
    {
      if i < p { assert t[i] == s[i]; } else { assert t[i] == s[i + 1]; }
      WithoutAt(s, p, i - 1);
      WithoutAt(s, p, i + 1);
    }
  }

  // ---------- bucket chains ----------

  /** Pushing on a chain: HASH_ADD_TO_BKT and the inner step of HASH_EXPAND_BUCKETS. */
  method PushChain(head: Item?, it: Item, ghost c: seq<Item>)
    requires Chained(c) && Distinct(c) && head == At(c, 0) && it !in c
    modifies {it}`hhNext, ({it} + Objects(c))`hhPrev
    ensures Chained([it] + c) && Distinct([it] + c)
  {
    it.hhNext := head;
    it.hhPrev := null;
    if head != null { head.hhPrev := it; }
    ghost var t := [it] + c;
    forall i | 0 <= i < |t|
      ensures t[i].hhNext == At(t, i + 1) && t[i].hhPrev == At(t, i - 1)
    {
      if i > 0 { assert t[i] == c[i - 1]; }
    }
  }

  /** HASH_DEL_IN_BKT, returning the chain's new head. */
  method UnlinkChain(head: Item?, del: Item, ghost c: seq<Item>, ghost p: nat) returns (newHead: Item?)
    requires Chained(c) && Distinct(c) && head == At(c, 0) && p < |c| && c[p] == del
    modifies (Objects(c) - {del})`hhNext, (Objects(c) - {del})`hhPrev
    ensures Chained(Without(c, p)) && Distinct(Without(c, p)) && newHead == At(Without(c, p), 0)
  {
    newHead := head;
    if head == del { newHead := del.hhNext; }
    if del.hhPrev != null {
      assert del.hhPrev == c[p - 1];
      del.hhPrev.hhNext := del.hhNext;
    }
    if del.hhNext != null {
      assert del.hhNext == c[p + 1];
      del.hhNext.hhPrev := del.hhPrev;
    }
    DistinctWithout(c, p);
    ghost var t := Without(c, p);
    forall i | 0 <= i < |t|
      ensures t[i].hhNext == At(t, i + 1) && t[i].hhPrev == At(t, i - 1)
    {
      if i < p { assert t[i] == c[i]; } else { assert t[i] == c[i + 1]; }
      WithoutAt(c, p, i - 1);
      WithoutAt(c, p, i + 1);
    }
    WithoutAt(c, p, 0);
  }
}
