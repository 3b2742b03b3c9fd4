/** HASH_FSCK: the integrity walk, what it accepts, and that a valid table passes it. */
module HashFsck {
  import opened HashItems
  import opened HashChains
  import opened HashTable

  /** s is linked through next, front to back. */
  ghost predicate Onward(s: seq<Item>)
    reads s`next
  {
    forall i :: 0 <= i < |s| ==> s[i].next == At(s, i + 1)
  }

  /** One bucket: hh_prev of each item must be the item the walk came from. */
  method CheckChain(first: Item?, ghost c: seq<Item>) returns (ok: bool, count: nat)
    requires Forward(c) && first == At(c, 0)
    ensures ok <==> Chained(c)
    ensures ok ==> count == |c|
  {
    ok, count := true, 0;
    var thh, prev: Item? := first, null;
    while thh != null
      invariant count <= |c| && thh == At(c, count) && prev == At(c, count - 1)
      invariant forall i :: 0 <= i < count ==> c[i].hhPrev == At(c, i - 1)
      decreases |c| - count
    {
      if prev != thh.hhPrev {
        ok := false;
        return;
      }
      count := count + 1;
      prev := thh;
      thh := thh.hhNext;
    }
  }

  /** The same for prev along the insertion-order list. */
  method CheckOrder(first: Item?, ghost s: seq<Item>) returns (ok: bool, count: nat)
    requires Onward(s) && first == At(s, 0)
    ensures ok <==> Linked(s)
    ensures ok ==> count == |s|
  {
    ok, count := true, 0;
    var thh, prev: Item? := first, null;
    while thh != null
      invariant count <= |s| && thh == At(s, count) && prev == At(s, count - 1)
      invariant forall i :: 0 <= i < count ==> s[i].prev == At(s, i - 1)
      decreases |s| - count
    {
      if prev != thh.prev {
        ok := false;
        return;
      }
      count := count + 1;
      prev := thh;
      thh := thh.next;
    }
  }

  /** What the walk takes for granted: following the forward links from the heads it finds these
      chains and this list, and comes to an end. */
  ghost predicate Walkable(t: Table, cs: Chains, s: seq<Item>)
    reads t, s`next
    reads (set b, i | 0 <= b < |cs| && 0 <= i < |cs[b]| :: cs[b][i])`hhNext
  {
    && t.head == At(s, 0) && Onward(s)
    && (t.head != null ==>
          && t.numBuckets == |t.buckets| == |cs|
          && forall b :: 0 <= b < |cs| ==> t.buckets[b].head == At(cs[b], 0) && Forward(cs[b]))
  }

  /** What it checks. */
  ghost predicate Sound(t: Table, cs: Chains, s: seq<Item>)
    requires |t.buckets| == |cs|
    reads t, s`next, s`prev
    reads (set b, i | 0 <= b < |cs| && 0 <= i < |cs[b]| :: cs[b][i])`hhNext
    reads (set b, i | 0 <= b < |cs| && 0 <= i < |cs[b]| :: cs[b][i])`hhPrev
  {
    && (forall b :: 0 <= b < |cs| ==> Chained(cs[b]) && t.buckets[b].count == |cs[b]|)
    && Total(cs) == t.numItems && Linked(s) && |s| == t.numItems
  }

  /** HASH_FSCK. A mismatch ends the program there; here it ends the walk with false. */
  method Fsck(t: Table, ghost cs: Chains, ghost s: seq<Item>) returns (ok: bool)
    requires Walkable(t, cs, s)
    ensures ok <==> t.head == null || Sound(t, cs, s)
  {
    if t.head == null { return true; }
    var count: nat, i := 0, 0;
    while i < t.numBuckets
      invariant i <= |cs| && count == Total(cs[..i])
      invariant forall b :: 0 <= b < i ==> Chained(cs[b]) && t.buckets[b].count == |cs[b]|
    {
      var good, n := CheckChain(t.buckets[i].head, cs[i]);
      if !good { return false; }
      TotalNext(cs, i);
      count := count + n;
      if t.buckets[i].count != n { return false; }
      i := i + 1;
    }
    assert cs[..i] == cs;
    if count != t.numItems { return false; }
    var good, n := CheckOrder(t.head, s);
    return good && n == t.numItems;
  }

  lemma TotalNext(cs: Chains, i: nat)
    requires i < |cs|
    ensures Total(cs[..i + 1]) == Total(cs[..i]) + |cs[i]|
  {
    TotalInit(cs[..i + 1]);
    assert cs[..i + 1][..i] == cs[..i];
  }

  /** Every table the operations leave behind passes. */
  lemma ValidPasses(t: Table)
    requires t.Valid()
    ensures Walkable(t, t.chains, t.order)
    ensures t.head == null || (|t.buckets| == |t.chains| && Sound(t, t.chains, t.order))
  {
    hide Total, Sorted, SameItems, KeysDistinct, Hashed;
    if t.head != null {
      forall b | 0 <= b < |t.chains|
        ensures Chained(t.chains[b]) && Forward(t.chains[b]) && t.buckets[b].head == At(t.chains[b], 0)
        ensures t.buckets[b].count == |t.chains[b]|
      {}
    }
  }
}
