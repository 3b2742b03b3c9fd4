/** Buckets as sequences: where uthash puts items, and what doubling the buckets does to that. */
module HashChains {
  import opened Bits
  import opened HashItems

  type Hash = Key -> word
  type Chains = seq<seq<Item>>

  /** The bucket of an item among n. */
  function Index(h: Hash, it: Item, n: nat): nat
    requires n > 0
  {
    h(it.key) % n
  }

  /** HASH_TO_BKT's mask is the remainder, the number of buckets being a power of two. */
  lemma MaskIsIndex(h: Hash, it: Item, n: nat, log2: nat)
    requires n == Pow2(log2)
    ensures And(h(it.key), n - 1) == Index(h, it, n) < n
  {
    AndLowMask(h(it.key), log2);
  }

  /** Every chain holds only items of its own bucket, each once. */
  ghost predicate Sorted(h: Hash, cs: Chains) {
    forall b :: 0 <= b < |cs| ==> Distinct(cs[b]) && forall x :: x in cs[b] ==> Index(h, x, |cs|) == b
  }

  ghost predicate Contains(h: Hash, cs: Chains, x: Item) {
    |cs| > 0 && x in cs[Index(h, x, |cs|)]
  }

  ghost predicate SameItems(h: Hash, cs: Chains, items: seq<Item>) {
    && (forall i :: 0 <= i < |items| ==> Contains(h, cs, items[i]))
    && (forall b, i :: 0 <= b < |cs| && 0 <= i < |cs[b]| ==> cs[b][i] in items)
  }

  function Total(cs: Chains): nat {
    if cs == [] then 0 else |cs[0]| + Total(cs[1..])
  }

  function Push(cs: Chains, b: nat, it: Item): Chains
    requires b < |cs|
  {
    cs[b := [it] + cs[b]]
  }

  function Drop(cs: Chains, b: nat, p: nat): Chains
    requires b < |cs| && p < |cs[b]|
  {
    cs[b := Without(cs[b], p)]
  }

  lemma {:induction false} TotalUpdate(cs: Chains, b: nat, c: seq<Item>)
    requires b < |cs|
    ensures Total(cs[b := c]) + |cs[b]| == Total(cs) + |c|
  {
    if b == 0 {
      assert cs[b := c][1..] == cs[1..];
    } else {
      assert cs[b := c][1..] == cs[1..][b - 1 := c];
      TotalUpdate(cs[1..], b - 1, c);
    }
  }

  lemma PushPlaced(h: Hash, cs: Chains, it: Item)
    requires |cs| > 0 && Sorted(h, cs) && !Contains(h, cs, it)
    ensures Sorted(h, Push(cs, Index(h, it, |cs|), it))
  {
    var b := Index(h, it, |cs|);
    var ps := Push(cs, b, it);
    forall d | 0 <= d < |ps|
      ensures Distinct(ps[d]) && forall x :: x in ps[d] ==> Index(h, x, |ps|) == d
    {
      if d != b { assert ps[d] == cs[d]; }
    }
  }

  lemma PushSorted(h: Hash, cs: Chains, it: Item)
    requires |cs| > 0 && Sorted(h, cs) && !Contains(h, cs, it)
    ensures var b := Index(h, it, |cs|);
            && Sorted(h, Push(cs, b, it))
            && Total(Push(cs, b, it)) == Total(cs) + 1
            && forall x: Item :: Contains(h, Push(cs, b, it), x) <==> Contains(h, cs, x) || x == it
  {
    PushPlaced(h, cs, it);
    hide Sorted, Total;
    var b := Index(h, it, |cs|);
    TotalUpdate(cs, b, [it] + cs[b]);
  }

  lemma DropSorted(h: Hash, cs: Chains, it: Item, p: nat)
    requires |cs| > 0 && Sorted(h, cs)
    requires var b := Index(h, it, |cs|); p < |cs[b]| && cs[b][p] == it
    ensures var b := Index(h, it, |cs|);
            && Sorted(h, Drop(cs, b, p))
            && Total(Drop(cs, b, p)) + 1 == Total(cs)
            && forall x: Item :: Contains(h, Drop(cs, b, p), x) <==> Contains(h, cs, x) && x != it
  {
    var b := Index(h, it, |cs|);
    DistinctWithout(cs[b], p);
    TotalUpdate(cs, b, Without(cs[b], p));
    assert forall x :: x in Without(cs[b], p) <==> x in Objects(cs[b]) - {it};
  }

  lemma {:induction false} PushAllAppend(h: Hash, cs: Chains, xs: seq<Item>, ys: seq<Item>)
    requires |cs| > 0
    ensures PushAll(h, cs, xs + ys) == PushAll(h, PushAll(h, cs, xs), ys)
  {
    if ys == [] {
      assert xs + ys == xs;
    } else {
      assert (xs + ys)[..|xs + ys| - 1] == xs + ys[..|ys| - 1];
      PushAllAppend(h, cs, xs, ys[..|ys| - 1]);
    }
  }

  lemma PushAllNext(h: Hash, cs: Chains, xs: seq<Item>, j: nat)
    requires |cs| > 0 && j < |xs|
    ensures PushAll(h, cs, xs[..j + 1])
         == Push(PushAll(h, cs, xs[..j]), Index(h, xs[j], |cs|), xs[j])
  {
    assert xs[..j + 1][..j] == xs[..j];
  }

  // ---------- doubling ----------

  function Empty(n: nat): Chains { seq(n, _ => []) }

  /** Pushing items one after the other. */
  function PushAll(h: Hash, cs: Chains, items: seq<Item>): (r: Chains)
    requires |cs| > 0
    ensures |r| == |cs|
  {
    if items == [] then cs else
    var before := PushAll(h, cs, items[..|items| - 1]);
    Push(before, Index(h, items[|items| - 1], |cs|), items[|items| - 1])
  }

  /** All items, bucket by bucket, each chain from its head: the order of the two nested loops. */
  function Flat(cs: Chains): seq<Item> {
    if cs == [] then [] else Flat(cs[..|cs| - 1]) + cs[|cs| - 1]
  }

  /** HASH_EXPAND_BUCKETS. */
  function Doubled(h: Hash, cs: Chains): Chains
    requires |cs| > 0
  {
    PushAll(h, Empty(2 * |cs|), Flat(cs))
  }

  lemma {:induction false} EmptySorted(h: Hash, n: nat)
    requires n > 0
    ensures Sorted(h, Empty(n)) && Total(Empty(n)) == 0 && forall x: Item :: !Contains(h, Empty(n), x)
  {
    EmptyTotal(n);
  }

  lemma {:induction false} EmptyTotal(n: nat)
    ensures Total(Empty(n)) == 0
  {
    if n > 0 {
      assert Empty(n)[1..] == Empty(n - 1);
      EmptyTotal(n - 1);
    }
  }

  lemma {:induction false} PushAllSorted(h: Hash, cs: Chains, items: seq<Item>)
    requires |cs| > 0 && Sorted(h, cs) && Distinct(items) && forall x :: x in items ==> !Contains(h, cs, x)
    ensures Sorted(h, PushAll(h, cs, items))
    ensures Total(PushAll(h, cs, items)) == Total(cs) + |items|
    ensures forall x: Item :: Contains(h, PushAll(h, cs, items), x) <==> Contains(h, cs, x) || x in items
  {
    if items != [] {
      var rest, last := items[..|items| - 1], items[|items| - 1];
      assert items == rest + [last];
      PushAllSorted(h, cs, rest);
      PushSorted(h, PushAll(h, cs, rest), last);
    }
  }

  lemma {:induction false} FlatMembers(cs: Chains, x: Item)
    ensures x in Flat(cs) <==> exists b :: 0 <= b < |cs| && x in cs[b]
  {
    if cs != [] {
      var init := cs[..|cs| - 1];
      FlatMembers(init, x);
      if x in Flat(init) {
        var b :| 0 <= b < |init| && x in init[b];
        assert x in cs[b];
      }
      if b :| 0 <= b < |cs| && x in cs[b] {
        if b < |cs| - 1 { assert x in init[b]; }
      }
    }
  }

  /** Chains of distinct items, no item in two of them. */
  ghost predicate Separate(cs: Chains) {
    && (forall b :: 0 <= b < |cs| ==> Distinct(cs[b]))
    && (forall b, d, x :: 0 <= b < |cs| && 0 <= d < |cs| && x in cs[b] && x in cs[d] ==> b == d)
  }

  lemma SortedSeparate(h: Hash, cs: Chains)
    requires Sorted(h, cs)
    ensures Separate(cs)
  {}

  lemma DistinctJoin(s: seq<Item>, t: seq<Item>)
    requires Distinct(s) && Distinct(t) && forall x :: x in t ==> x !in s
    ensures Distinct(s + t)
  {
    var u := s + t;
    forall i, j | 0 <= i < j < |u| ensures u[i] != u[j] {
      if i < |s| <= j { assert u[i] in s && u[j] in t; }
    }
  }

  lemma {:induction false} FlatDistinct(cs: Chains)
    requires Separate(cs)
    ensures Distinct(Flat(cs)) && |Flat(cs)| == Total(cs)
  {
    if cs != [] {
      var init, last := cs[..|cs| - 1], cs[|cs| - 1];
      FlatDistinct(init);
      TotalInit(cs);
      forall x | x in last ensures x !in Flat(init) {
        FlatMembers(init, x);
      }
      DistinctJoin(Flat(init), last);
    }
  }

  lemma {:induction false} TotalInit(cs: Chains)
    requires cs != []
    ensures Total(cs) == Total(cs[..|cs| - 1]) + |cs[|cs| - 1]|
  {
    if |cs| > 1 {
      TotalInit(cs[1..]);
      assert cs[..|cs| - 1][1..] == cs[1..][..|cs| - 2];
    }
  }

  /** Doubling keeps the same items, puts each in the bucket its hash selects among twice as
      many, and loses or repeats none. */
  lemma DoublingKeepsItems(h: Hash, cs: Chains)
    requires |cs| > 0 && Sorted(h, cs)
    ensures |Doubled(h, cs)| == 2 * |cs| && Sorted(h, Doubled(h, cs))
    ensures Total(Doubled(h, cs)) == Total(cs)
    ensures forall x: Item :: Contains(h, Doubled(h, cs), x) <==> Contains(h, cs, x)
  {
    SortedSeparate(h, cs);
    FlatDistinct(cs);
    EmptySorted(h, 2 * |cs|);
    PushAllSorted(h, Empty(2 * |cs|), Flat(cs));
    forall x: Item ensures x in Flat(cs) <==> Contains(h, cs, x) {
      FlatMembers(cs, x);
    }
  }

  /** The items of old bucket i go to new buckets i and i + n, and nowhere else. */
  lemma DoublingSplits(h: Hash, cs: Chains, x: Item)
    requires |cs| > 0 && Sorted(h, cs) && Contains(h, cs, x)
    ensures var i, j := Index(h, x, |cs|), Index(h, x, 2 * |cs|);
            (j == i || j == i + |cs|) && x in Doubled(h, cs)[j]
  {
    DoublingKeepsItems(h, cs);
    HalfModulus(h(x.key), |cs|, 2 * |cs|);
  }

  lemma HalfModulus(v: nat, n: nat, dbl: nat)
    requires n > 0 && dbl == 2 * n
    ensures v % dbl == v % n || v % dbl == v % n + n
  {
    var q, r := v / dbl, v % dbl;
    assert v == (2 * q) * n + r;
    if r < n {
      DivModUnique(v, n, 2 * q, r);
    } else {
      DivModUnique(v, n, 2 * q + 1, r - n);
    }
  }

  // ---------- ideal chain length ----------

  function Excess(len: nat, ideal: nat): nat { if len > ideal then len - ideal else 0 }

  /** Items beyond the ideal length of their chain. */
  function Overlong(cs: Chains, ideal: nat): nat {
    if cs == [] then 0 else Excess(|cs[0]|, ideal) + Overlong(cs[1..], ideal)
  }

  /** It is what each chain has beyond the ideal length, added up. */
  lemma {:induction false} OverlongSum(cs: Chains, ds: Chains, c: seq<Item>, ideal: nat)
    ensures Overlong([c], ideal) == if |c| > ideal then |c| - ideal else 0
    ensures Overlong(cs + ds, ideal) == Overlong(cs, ideal) + Overlong(ds, ideal)
  {
    if cs == [] {
      assert cs + ds == ds;
    } else {
      assert (cs + ds)[1..] == cs[1..] + ds;
      OverlongSum(cs[1..], ds, c, ideal);
    }
  }

  lemma {:induction false} OverlongUpdate(cs: Chains, b: nat, c: seq<Item>, ideal: nat)
    requires b < |cs|
    ensures Overlong(cs[b := c], ideal) + Excess(|cs[b]|, ideal) == Overlong(cs, ideal) + Excess(|c|, ideal)
  {
    if b == 0 {
      assert cs[b := c][1..] == cs[1..];
    } else {
      assert cs[b := c][1..] == cs[1..][b - 1 := c];
      OverlongUpdate(cs[1..], b - 1, c, ideal);
    }
  }

  lemma {:induction false} OverlongEmpty(n: nat, ideal: nat)
    ensures Overlong(Empty(n), ideal) == 0
  {
    if n > 0 {
      assert Empty(n)[1..] == Empty(n - 1);
      OverlongEmpty(n - 1, ideal);
    }
  }

  /** The shift and the mask in HASH_EXPAND_BUCKETS, for the doubled number of buckets. */
  function IdealMaxlen(items: nat, log2: nat, buckets: nat): nat
    requires buckets > 0
  {
    items / Pow2(log2 + 1) + if And(items, buckets * 2 - 1) != 0 then 1 else 0
  }

  /** It is the least chain length with which that many buckets can hold the items; never zero
      for a table with items, so the division by it is defined. */
  lemma IdealIsCeiling(items: nat, log2: nat)
    ensures var n, k := Pow2(log2 + 1), IdealMaxlen(items, log2, Pow2(log2));
            items <= k * n && (k > 0 ==> (k - 1) * n < items) && (items > 0 ==> k > 0)
  {
    var n, k := Pow2(log2 + 1), IdealMaxlen(items, log2, Pow2(log2));
    IdealValue(items, log2, n);
    hide *;
    assert n > 0;
    CeilingOf(items, n, items / n, items % n, k);
  }

  lemma IdealValue(items: nat, log2: nat, n: nat)
    requires n == Pow2(log2 + 1)
    ensures IdealMaxlen(items, log2, Pow2(log2)) == items / n + if items % n != 0 then 1 else 0
  {
    assert Pow2(log2) * 2 - 1 == n - 1;
    hide And, Pow2;
    AndLowMask(items, log2 + 1);
  }

  lemma CeilingOf(x: nat, n: nat, q: nat, r: nat, k: nat)
    requires n > 0 && x == q * n + r && r < n && k == q + if r != 0 then 1 else 0
    ensures x <= k * n && (k > 0 ==> (k - 1) * n < x) && (x > 0 ==> k > 0)
  {
    if r == 0 {
      assert (q - 1) * n == q * n - n;
    } else {
      assert (q + 1) * n == q * n + n;
    }
  }
}
