/** The table of uthash.h: the macros as methods of one object, HASH_FSCK's conditions as its
    invariant. */
module HashTable {
  import opened Bits
  import opened HashItems
  import opened HashChains

  const INITIAL_BUCKETS: nat := 32
  const INITIAL_LOG2: nat := 5
  const CAPACITY_THRESHOLD: nat := 10

  /** UT_hash_bucket. */
  datatype Bucket = Bucket(head: Item?, count: nat, expandMult: nat)

  ghost function ChainObjects(cs: Chains): set<Item> {
    set b, i | 0 <= b < |cs| && 0 <= i < |cs[b]| :: cs[b][i]
  }

  /** The bucket array describes the chains. */
  ghost predicate Heads(bs: seq<Bucket>, cs: Chains) {
    |bs| == |cs| && forall b :: 0 <= b < |bs| ==> bs[b].head == At(cs[b], 0) && bs[b].count == |cs[b]|
  }

  ghost predicate AllChained(cs: Chains)
    reads (set b, i | 0 <= b < |cs| && 0 <= i < |cs[b]| :: cs[b][i])`hhNext
    reads (set b, i | 0 <= b < |cs| && 0 <= i < |cs[b]| :: cs[b][i])`hhPrev
  {
    forall b :: 0 <= b < |cs| ==> Chained(cs[b])
  }

  /** Every item of these chains carries its own hash value. */
  ghost predicate Hashed(h: Hash, s: seq<Item>)
    reads s`hashv
  {
    forall i :: 0 <= i < |s| ==> s[i].hashv == h(s[i].key)
  }

  lemma ChainInObjects(cs: Chains, b: nat)
    requires b < |cs|
    ensures Objects(cs[b]) <= ChainObjects(cs)
  {
    forall x | x in cs[b] ensures x in ChainObjects(cs) {
      var i :| 0 <= i < |cs[b]| && cs[b][i] == x;
      assert cs[b][i] in ChainObjects(cs);
    }
  }

  lemma PushObjects(cs: Chains, b: nat, it: Item)
    requires b < |cs|
    ensures ChainObjects(Push(cs, b, it)) == ChainObjects(cs) + {it}
  {
    var ps := Push(cs, b, it);
    assert ps[b][0] == it;
    forall x | x in ChainObjects(cs) ensures x in ChainObjects(ps) {
      var d, i :| 0 <= d < |cs| && 0 <= i < |cs[d]| && cs[d][i] == x;
      assert x == if d == b then ps[d][i + 1] else ps[d][i];
    }
  }

  /** No item is in two chains, and none of them is `it`. */
  lemma OtherChain(cs: Chains, b: nat, d: nat, it: Item)
    requires Separate(cs) && b < |cs| && d < |cs| && b != d && it !in ChainObjects(cs)
    ensures it !in cs[d] && Objects(cs[b]) !! Objects(cs[d])
  {
    ChainInObjects(cs, d);
  }

  /** Push one item on the bucket with the given index: the body HASH_ADD_TO_BKT and
      HASH_EXPAND_BUCKETS share. */
  method PushOn(bs: seq<Bucket>, b: nat, it: Item, ghost cs: Chains) returns (r: seq<Bucket>)
    requires Heads(bs, cs) && AllChained(cs) && Separate(cs) && b < |cs| && it !in ChainObjects(cs)
    modifies {it}`hhNext, ({it} + Objects(cs[b]))`hhPrev
    ensures r == bs[b := Bucket(it, bs[b].count + 1, bs[b].expandMult)]
    ensures Heads(r, Push(cs, b, it)) && AllChained(Push(cs, b, it))
  {
    ChainInObjects(cs, b);
    PushChain(bs[b].head, it, cs[b]);
    r := bs[b := Bucket(it, bs[b].count + 1, bs[b].expandMult)];
    ghost var ps := Push(cs, b, it);
    forall d | 0 <= d < |ps| ensures Chained(ps[d]) {
      if d != b {
        OtherChain(cs, b, d, it);
        assert old(Chained(cs[d]));
      }
    }
  }

  // ---------- doubling ----------

  /** expand_mult of a bucket after doubling. */
  function Mult(count: nat, ideal: nat): nat
    requires ideal > 0
  {
    if count > ideal then count / ideal else 0
  }

  /** The statistics kept while doubling. */
  ghost predicate Counted(bs: seq<Bucket>, cs: Chains, ideal: nat, nonideal: nat)
    requires ideal > 0
  {
    && nonideal == Overlong(cs, ideal)
    && |bs| == |cs| && forall b :: 0 <= b < |bs| ==> bs[b].expandMult == Mult(|cs[b]|, ideal)
  }

  lemma CountedPush(bs: seq<Bucket>, rs: seq<Bucket>, cs: Chains, b: nat, it: Item, ideal: nat, nonideal: nat)
    requires ideal > 0 && b < |cs| && Counted(bs, cs, ideal, nonideal) && |rs| == |bs|
    requires forall d :: 0 <= d < |bs| && d != b ==> rs[d] == bs[d]
    requires rs[b].expandMult == if |cs[b]| + 1 > ideal then (|cs[b]| + 1) / ideal else bs[b].expandMult
    ensures Counted(rs, Push(cs, b, it), ideal, nonideal + if |cs[b]| + 1 > ideal then 1 else 0)
  {
    OverlongUpdate(cs, b, [it] + cs[b], ideal);
  }

  lemma PushSeparate(cs: Chains, b: nat, it: Item)
    requires Separate(cs) && b < |cs| && it !in ChainObjects(cs)
    ensures Separate(Push(cs, b, it))
  {
    forall d | 0 <= d < |cs| ensures it !in cs[d] { ChainInObjects(cs, d); }
  }

  /** One round of the doubling: the item goes on its new bucket, and the statistics follow. */
  method Rehang(bs: seq<Bucket>, it: Item, b: nat, ideal: nat, nonideal: nat, ghost cs: Chains)
    returns (rs: seq<Bucket>, nonideal': nat)
    requires Heads(bs, cs) && AllChained(cs) && Separate(cs) && b < |cs| && it !in ChainObjects(cs)
    requires ideal > 0 && Counted(bs, cs, ideal, nonideal)
    modifies {it}`hhNext, ({it} + Objects(cs[b]))`hhPrev
    ensures Heads(rs, Push(cs, b, it)) && AllChained(Push(cs, b, it))
    ensures Counted(rs, Push(cs, b, it), ideal, nonideal')
  {
    hide Overlong, Separate, Chained;
    rs := PushOn(bs, b, it, cs);
    nonideal' := nonideal;
    if rs[b].count > ideal {
      nonideal' := nonideal' + 1;
      rs := rs[b := rs[b].(expandMult := rs[b].count / ideal)];
    }
    CountedPush(bs, rs, cs, b, it, ideal, nonideal);
  }

  lemma {:induction false} PushAllObjects(h: Hash, cs: Chains, xs: seq<Item>)
    requires |cs| > 0
    ensures ChainObjects(PushAll(h, cs, xs)) == ChainObjects(cs) + Objects(xs)
  {
    if xs != [] {
      var rest, last := xs[..|xs| - 1], xs[|xs| - 1];
      PushAllObjects(h, cs, rest);
      PushObjects(PushAll(h, cs, rest), Index(h, last, |cs|), last);
      assert xs == rest + [last];
    }
  }

  lemma PrefixDistinct(c: seq<Item>, j: nat)
    requires Distinct(c) && j < |c|
    ensures c[j] !in c[..j] && Distinct(c[..j])
    ensures c[..j + 1] == c[..j] + [c[j]]
  {}

  /** How far the doubling has come along chain c: the first j items hang on their new buckets,
      the others still wait in line. */
  ghost predicate Draining(h: Hash, bs: seq<Bucket>, ideal: nat, nonideal: nat, c: seq<Item>, j: nat,
                           cs: Chains, ns: Chains)
    requires j <= |c| && |cs| > 0 && ideal > 0
    reads c`hhNext
    reads (set b, i | 0 <= b < |ns| && 0 <= i < |ns[b]| :: ns[b][i])`hhNext
    reads (set b, i | 0 <= b < |ns| && 0 <= i < |ns[b]| :: ns[b][i])`hhPrev
  {
    && ns == PushAll(h, cs, c[..j])
    && ChainObjects(ns) == ChainObjects(cs) + Objects(c[..j])
    && Heads(bs, ns) && AllChained(ns) && Separate(ns) && Counted(bs, ns, ideal, nonideal)
    && forall m :: j <= m < |c| ==> c[m].hhNext == At(c, m + 1)
  }

  lemma DrainNext(h: Hash, cs: Chains, ns: Chains, c: seq<Item>, j: nat)
    requires |cs| > 0 && j < |c| && Distinct(c) && Objects(c) !! ChainObjects(cs)
    requires ns == PushAll(h, cs, c[..j]) && ChainObjects(ns) == ChainObjects(cs) + Objects(c[..j])
    ensures var b := Index(h, c[j], |cs|);
            && c[j] !in ChainObjects(ns)
            && (forall m :: j < m < |c| ==> c[m] != c[j] && c[m] !in ChainObjects(ns))
            && |ns| == |cs| && Objects(ns[b]) <= ChainObjects(ns)
            && Push(ns, b, c[j]) == PushAll(h, cs, c[..j + 1])
            && ChainObjects(Push(ns, b, c[j])) == ChainObjects(cs) + Objects(c[..j + 1])
  {
    var b := Index(h, c[j], |cs|);
    forall m | j <= m < |c| ensures c[m] !in ChainObjects(ns) { assert c[m] in Objects(c) && c[m] !in c[..j]; }
    PrefixDistinct(c, j);
    ChainInObjects(ns, b);
    PushObjects(ns, b, c[j]);
    PushAllNext(h, cs, c, j);
  }

  method DrainOne(h: Hash, thh: Item, bs: seq<Bucket>, log2: nat, ideal: nat, nonideal: nat,
                  ghost c: seq<Item>, ghost j: nat, ghost cs: Chains, ghost ns: Chains)
    returns (nxt: Item?, rs: seq<Bucket>, nonideal': nat, ghost ms: Chains)
    requires j < |c| && thh == c[j] && Distinct(c) && thh.hashv == h(thh.key)
    requires |cs| == Pow2(log2) && ideal > 0 && Objects(c) !! ChainObjects(cs)
    requires Draining(h, bs, ideal, nonideal, c, j, cs, ns)
    modifies (Objects(c) + ChainObjects(cs))`hhNext, (Objects(c) + ChainObjects(cs))`hhPrev
    ensures nxt == At(c, j + 1) && Draining(h, rs, ideal, nonideal', c, j + 1, cs, ms)
  {
    hide PushAll, Overlong, Separate, Chained, AllChained, Heads, Counted, Pow2, ChainObjects;
    nxt := thh.hhNext;
    DrainNext(h, cs, ns, c, j);
    MaskIsIndex(h, thh, |ns|, log2);
    HeadsLength(bs, ns);
    var b := And(thh.hashv, |bs| - 1);
    PushSeparate(ns, b, thh);
    rs, nonideal' := Rehang(bs, thh, b, ideal, nonideal, ns);
    ms := Push(ns, b, thh);
  }

  /** The inner loop of the doubling: the chain starting at `first` is taken apart front to back.
      Each item's successor is read before its links are overwritten. */
  method Drain(h: Hash, first: Item?, bs: seq<Bucket>, log2: nat, ideal: nat, nonideal: nat,
               ghost c: seq<Item>, ghost cs: Chains)
    returns (rs: seq<Bucket>, nonideal': nat)
    requires Forward(c) && first == At(c, 0) && Distinct(c) && Hashed(h, c)
    requires |cs| == Pow2(log2) && Heads(bs, cs) && AllChained(cs) && Separate(cs)
    requires Objects(c) !! ChainObjects(cs)
    requires ideal > 0 && Counted(bs, cs, ideal, nonideal)
    modifies (Objects(c) + ChainObjects(cs))`hhNext, (Objects(c) + ChainObjects(cs))`hhPrev
    ensures Heads(rs, PushAll(h, cs, c)) && AllChained(PushAll(h, cs, c)) && Separate(PushAll(h, cs, c))
    ensures Counted(rs, PushAll(h, cs, c), ideal, nonideal')
  {
    hide PushAll, Overlong, Separate, Chained, AllChained, Heads, Counted, Pow2, ChainObjects;
    var thh := first;
    ghost var j, ns := 0, cs;
    rs, nonideal' := bs, nonideal;
    DrainStart(h, cs, c);
    while thh != null
      invariant 0 <= j <= |c| && thh == At(c, j)
      invariant Draining(h, rs, ideal, nonideal', c, j, cs, ns)
      decreases |c| - j
    {
      thh, rs, nonideal', ns := DrainOne(h, thh, rs, log2, ideal, nonideal', c, j, cs, ns);
      j := j + 1;
    }
    assert c[..j] == c;
  }

  lemma HeadsLength(bs: seq<Bucket>, cs: Chains)
    requires Heads(bs, cs)
    ensures |bs| == |cs|
  {}

  lemma DrainStart(h: Hash, cs: Chains, c: seq<Item>)
    requires |cs| > 0
    ensures PushAll(h, cs, c[..0]) == cs && Objects(c[..0]) == {}
  {}

  // ---------- the outer loop ----------

  /** How far the doubling has come through the old buckets. */
  ghost predicate Doubling(h: Hash, bs: seq<Bucket>, ideal: nat, nonideal: nat, cs: Chains, i: nat, ns: Chains)
    requires i <= |cs| && |cs| > 0 && ideal > 0
    reads (set b, i | 0 <= b < |ns| && 0 <= i < |ns[b]| :: ns[b][i])`hhNext
    reads (set b, i | 0 <= b < |ns| && 0 <= i < |ns[b]| :: ns[b][i])`hhPrev
    reads (set b, i | 0 <= b < |cs| && 0 <= i < |cs[b]| :: cs[b][i])`hhNext
  {
    && ns == PushAll(h, Empty(2 * |cs|), Flat(cs[..i]))
    && ChainObjects(ns) == Objects(Flat(cs[..i]))
    && Heads(bs, ns) && AllChained(ns) && Separate(ns) && Counted(bs, ns, ideal, nonideal)
    && Waiting(cs, i)
  }

  ghost predicate Waiting(cs: Chains, i: nat)
    reads (set b, i | 0 <= b < |cs| && 0 <= i < |cs[b]| :: cs[b][i])`hhNext
  {
    forall d, m :: i <= d < |cs| && 0 <= m < |cs[d]| ==> cs[d][m].hhNext == At(cs[d], m + 1)
  }

  lemma WaitingForward(cs: Chains, i: nat)
    requires i < |cs| && Waiting(cs, i)
    ensures Forward(cs[i])
  {}

  lemma FlatNext(h: Hash, cs: Chains, i: nat, ns: Chains)
    requires i < |cs| && Separate(cs)
    requires ns == PushAll(h, Empty(2 * |cs|), Flat(cs[..i])) && ChainObjects(ns) == Objects(Flat(cs[..i]))
    ensures PushAll(h, ns, cs[i]) == PushAll(h, Empty(2 * |cs|), Flat(cs[..i + 1]))
    ensures ChainObjects(PushAll(h, ns, cs[i])) == Objects(Flat(cs[..i + 1]))
    ensures Objects(cs[i]) !! ChainObjects(ns)
    ensures forall d, m :: i < d < |cs| && 0 <= m < |cs[d]| ==>
              cs[d][m] !in Objects(cs[i]) && cs[d][m] !in ChainObjects(ns)
  {
    assert cs[..i + 1][..i] == cs[..i];
    PushAllAppend(h, Empty(2 * |cs|), Flat(cs[..i]), cs[i]);
    PushAllObjects(h, ns, cs[i]);
    forall d, x | i <= d < |cs| && x in cs[d] ensures x !in Flat(cs[..i]) {
      FlatMembers(cs[..i], x);
    }
  }

  method DoubleOne(h: Hash, old_: seq<Bucket>, i: nat, bs: seq<Bucket>, log2: nat, ideal: nat, nonideal: nat,
                   ghost cs: Chains, ghost ns: Chains)
    returns (rs: seq<Bucket>, nonideal': nat, ghost ms: Chains)
    requires i < |cs| && |cs| == Pow2(log2) && ideal > 0 && Separate(cs) && Hashed(h, cs[i])
    requires |old_| == |cs| && old_[i].head == At(cs[i], 0)
    requires Doubling(h, bs, ideal, nonideal, cs, i, ns)
    modifies ChainObjects(cs)`hhNext, ChainObjects(cs)`hhPrev
    ensures Doubling(h, rs, ideal, nonideal', cs, i + 1, ms)
  {
    hide PushAll, Overlong, Chained, AllChained, Heads, Counted, Flat, ChainObjects;
    FlatNext(h, cs, i, ns);
    WaitingForward(cs, i);
    FlatInside(cs, i);
    ChainInObjects(cs, i);
    assert |ns| == Pow2(log2 + 1);
    hide Pow2, Separate;
    DistinctChain(cs, i);
    rs, nonideal' := Drain(h, old_[i].head, bs, log2 + 1, ideal, nonideal, cs[i], ns);
    ms := PushAll(h, ns, cs[i]);
  }

  lemma DistinctChain(cs: Chains, i: nat)
    requires Separate(cs) && i < |cs|
    ensures Distinct(cs[i])
  {}

  lemma FlatInside(cs: Chains, i: nat)
    requires i <= |cs|
    ensures Objects(Flat(cs[..i])) <= ChainObjects(cs)
  {
    forall x | x in Flat(cs[..i]) ensures x in ChainObjects(cs) {
      FlatMembers(cs[..i], x);
      var b :| 0 <= b < i && x in cs[..i][b];
      ChainInObjects(cs, b);
    }
  }

  lemma DoublingStarts(h: Hash, cs: Chains, bs: seq<Bucket>, ideal: nat)
    requires |cs| > 0 && ideal > 0 && Sorted(h, cs) && AllChained(cs)
    requires bs == seq(2 * |cs|, _ => Bucket(null, 0, 0))
    ensures Doubling(h, bs, ideal, 0, cs, 0, Empty(2 * |cs|))
  {
    EmptySorted(h, 2 * |cs|);
    OverlongEmpty(2 * |cs|, ideal);
    assert ChainObjects(Empty(2 * |cs|)) == {} && cs[..0] == [];
    assert forall d :: 0 <= d < |cs| ==> Chained(cs[d]);
  }

  /** HASH_EXPAND_BUCKETS up to the swap of the bucket arrays. */
  method DoubleBuckets(h: Hash, old_: seq<Bucket>, items: nat, log2: nat, ghost cs: Chains)
    returns (rs: seq<Bucket>, ideal: nat, nonideal: nat)
    requires |cs| == Pow2(log2) && items > 0 && Heads(old_, cs) && AllChained(cs) && Sorted(h, cs)
    requires forall b :: 0 <= b < |cs| ==> Hashed(h, cs[b])
    modifies ChainObjects(cs)`hhNext, ChainObjects(cs)`hhPrev
    ensures Heads(rs, Doubled(h, cs)) && AllChained(Doubled(h, cs))
    ensures ideal == IdealMaxlen(items, log2, Pow2(log2)) > 0 && Counted(rs, Doubled(h, cs), ideal, nonideal)
  {
    hide PushAll, Overlong, Chained, AllChained, Heads, Counted, Flat, ChainObjects, Sorted, Separate, Doubling, IdealMaxlen;
    HeadsLength(old_, cs);
    ideal := IdealMaxlen(items, log2, |old_|);
    IdealIsCeiling(items, log2);
    hide Pow2;
    rs, nonideal := seq(2 * |old_|, _ => Bucket(null, 0, 0)), 0;
    SortedSeparate(h, cs);
    DoublingStarts(h, cs, rs, ideal);
    ghost var ns := Empty(2 * |cs|);
    var i := 0;
    while i < |old_|
      invariant i <= |old_|
      invariant Doubling(h, rs, ideal, nonideal, cs, i, ns)
      invariant forall b :: 0 <= b < |cs| ==> Hashed(h, cs[b])
    {
      HeadAt(old_, cs, i);
      rs, nonideal, ns := DoubleOne(h, old_, i, rs, log2, ideal, nonideal, cs, ns);
      i := i + 1;
    }
    DoublingEnds(h, rs, ideal, nonideal, cs, ns);
  }

  lemma HeadAt(bs: seq<Bucket>, cs: Chains, i: nat)
    requires Heads(bs, cs) && i < |cs|
    ensures |bs| == |cs| && bs[i].head == At(cs[i], 0)
  {}

  lemma DoublingEnds(h: Hash, bs: seq<Bucket>, ideal: nat, nonideal: nat, cs: Chains, ns: Chains)
    requires |cs| > 0 && ideal > 0 && Doubling(h, bs, ideal, nonideal, cs, |cs|, ns)
    ensures ns == Doubled(h, cs) && Heads(bs, ns) && AllChained(ns) && Counted(bs, ns, ideal, nonideal)
  {
    assert cs[..|cs|] == cs;
  }

  // ---------- the table as a map ----------

  ghost predicate KeysDistinct(s: seq<Item>) {
    forall i, j :: 0 <= i < j < |s| ==> s[i].key != s[j].key
  }

  ghost predicate HasKey(s: seq<Item>, k: Key) {
    exists i :: 0 <= i < |s| && s[i].key == k
  }

  /** The map a list of items stands for. */
  ghost function Lookup(s: seq<Item>, k: Key): (it: Item?)
    ensures it != null ==> it in s && it.key == k
    ensures it == null <==> !HasKey(s, k)
  {
    if s == [] then null
    else if s[|s| - 1].key == k then s[|s| - 1]
    else Lookup(s[..|s| - 1], k)
  }

  lemma LookupMember(s: seq<Item>, it: Item)
    requires it in s && KeysDistinct(s)
    ensures Lookup(s, it.key) == it
  {}

  lemma LookupUnique(s: seq<Item>, k: Key, i: nat)
    requires KeysDistinct(s) && i < |s| && s[i].key == k
    ensures Lookup(s, k) == s[i]
  {}

  /** Adding an item sets its key in the map and changes no other. */
  lemma LookupAdded(s: seq<Item>, it: Item, k: Key)
    ensures Lookup(s + [it], k) == if k == it.key then it else Lookup(s, k)
  {
    assert (s + [it])[..|s|] == s;
  }

  /** Deleting an item clears its key in the map and changes no other. */
  lemma LookupDeleted(s: seq<Item>, p: nat, k: Key)
    requires KeysDistinct(s) && p < |s|
    ensures Lookup(Without(s, p), k) == if k == s[p].key then null else Lookup(s, k)
  {
    hide Lookup, Without;
    var t := Without(s, p);
    WithoutIndex(s, p);
    KeysWithout(s, p);
    if k == s[p].key {
      LookupUnique(s, k, p);
      LookupNone(t, k);
    } else if i :| 0 <= i < |s| && s[i].key == k {
      LookupUnique(s, k, i);
      var j := if i < p then i else i - 1;
      assert t[j] == s[i];
      LookupUnique(t, k, j);
    } else {
      LookupNone(s, k);
      LookupNone(t, k);
    }
  }

  lemma WithoutIndex(s: seq<Item>, p: nat)
    requires p < |s|
    ensures |Without(s, p)| == |s| - 1
    ensures forall i {:trigger Without(s, p)[i]} ::
              0 <= i < |s| - 1 ==> Without(s, p)[i] == s[if i < p then i else i + 1]
  {}

  lemma LookupNone(s: seq<Item>, k: Key)
    ensures Lookup(s, k) == null <==> forall i :: 0 <= i < |s| ==> s[i].key != k
  {}

  // ---------- the table ----------

  class Table {
    const hash: Hash
    var head: Item?
    var tail: Item?
    var buckets: seq<Bucket>
    var numBuckets: nat
    var log2NumBuckets: nat
    var numItems: nat
    var idealChainMaxlen: nat
    var nonidealItems: nat
    var ineffExpands: nat
    var noexpand: nat
    ghost var order: seq<Item>
    ghost var chains: Chains

    /** The insertion-order list. */
    ghost predicate ListOk()
      reads this`head, this`tail, this`order, order`next, order`prev, order`hashv
    {
      && head == At(order, 0) && (order != [] ==> tail == order[|order| - 1])
      && Distinct(order) && Linked(order) && KeysDistinct(order) && Hashed(hash, order)
    }

    /** The bucket array; it exists only while there are items. */
    ghost predicate TableOk()
      reads this, order, (set b, i | 0 <= b < |chains| && 0 <= i < |chains[b]| :: chains[b][i])
    {
      && numItems == |order| && numBuckets == |buckets| == Pow2(log2NumBuckets)
      && ChainsOk(order)
    }

    ghost predicate ChainsOk(items: seq<Item>)
      reads this`buckets, this`chains
      reads (set b, i | 0 <= b < |chains| && 0 <= i < |chains[b]| :: chains[b][i])`hhNext
      reads (set b, i | 0 <= b < |chains| && 0 <= i < |chains[b]| :: chains[b][i])`hhPrev
    {
      && |chains| > 0 && Heads(buckets, chains) && AllChained(chains)
      && Sorted(hash, chains) && SameItems(hash, chains, items) && Total(chains) == |items|
    }

    ghost predicate Valid()
      reads this, order, (set b, i | 0 <= b < |chains| && 0 <= i < |chains[b]| :: chains[b][i])
    {
      && ListOk()
      && (if order == [] then chains == [] else TableOk())
    }

    constructor (hash: Hash)
      ensures Valid() && order == [] && this.hash == hash
    {
      this.hash := hash;
      head, tail := null, null;
      order, chains := [], [];
    }

    /** The bucket the mask selects, and its chain. */
    lemma BucketOf(k: Key) returns (c: seq<Item>)
      requires numBuckets == |buckets| == Pow2(log2NumBuckets) && Heads(buckets, chains) && AllChained(chains)
      ensures And(hash(k), numBuckets - 1) == hash(k) % |chains| < |chains|
      ensures c == chains[hash(k) % |chains|] && Chained(c)
      ensures buckets[And(hash(k), numBuckets - 1)].head == At(c, 0)
    {
      AndLowMask(hash(k), log2NumBuckets);
      c := chains[hash(k) % |chains|];
    }

    /** HASH_FIND: look in one bucket only. */
    method Find(k: Key) returns (out: Item?)
      requires Valid()
      ensures out == Lookup(order, k)
    {
      hide Sorted, SameItems, Lookup, Total, And, Pow2, KeysDistinct, Linked, Hashed, Chained;
      out := null;
      if head != null {
        ghost var c := BucketOf(k);
        out := FindInBucket(buckets[And(hash(k), numBuckets - 1)].head, k, c);
        BucketHasAll(hash, chains, order, k, out);
      } else {
        LookupNothing(k);
      }
    }

    /** The first half of HASH_ADD_KEYPTR: the insertion-order list, and a table of empty buckets if
        this is the first item. */
    method Append(it: Item)
      requires Valid() && it !in order && !HasKey(order, it.key)
      modifies this, Objects(order), it
      ensures order == old(order) + [it] && ListOk()
      ensures numItems == |order| && numBuckets == |buckets| == Pow2(log2NumBuckets)
      ensures chains == (if old(order) == [] then Empty(INITIAL_BUCKETS) else old(chains))
      ensures ChainsOk(old(order)) && AllHashed()
      ensures old(order) == [] ==> noexpand == 0 && buckets == seq(32, _ => Bucket(null, 0, 0))
      ensures old(order) != [] ==> noexpand == old(noexpand) && buckets == old(buckets) && numBuckets == old(numBuckets)
    {
      hide ChainsOk, AllHashed, Linked, Hashed, KeysDistinct, Pow2, Empty, HasKey;
      it.next := null;
      it.hashv := hash(it.key);
      if head == null { AppendFirst(it); } else { AppendNext(it); }
    }

    method AppendFirst(it: Item)
      requires order == [] && it.next == null && it.hashv == hash(it.key)
      modifies this, it`prev
      ensures order == [it] && ListOk()
      ensures numItems == 1 && numBuckets == |buckets| == Pow2(log2NumBuckets)
      ensures chains == Empty(INITIAL_BUCKETS) && ChainsOk([]) && AllHashed()
      ensures noexpand == 0 && buckets == seq(32, _ => Bucket(null, 0, 0))
    {
      hide ChainsOk, Pow2;
      head := it;
      it.prev := null;
      MakeTable(it);
      order := [it];
      numItems := numItems + 1;
    }

    method AppendNext(it: Item)
      requires ListOk() && order != [] && TableOk() && it !in order && !HasKey(order, it.key)
      requires it.next == null && it.hashv == hash(it.key)
      modifies this`tail, this`order, this`numItems, Objects(order)`next, it`next, it`prev
      ensures order == old(order) + [it] && ListOk()
      ensures numItems == |order| && numBuckets == |buckets| == Pow2(log2NumBuckets)
      ensures chains == old(chains) && ChainsOk(old(order)) && AllHashed()
    {
      hide ChainsOk, Pow2, Linked, Chained;
      ChainsHashed();
      AppendOrder(tail, it, order);
      tail := it;
      order := order + [it];
      numItems := numItems + 1;
    }

    /** The items in the chains are the table's, so they carry their hash values. */
    lemma ChainsHashed()
      requires Hashed(hash, order) && ChainsOk(order)
      ensures AllHashed() && ChainObjects(chains) <= Objects(order)
    {
      forall b, i | 0 <= b < |chains| && 0 <= i < |chains[b]|
        ensures chains[b][i].hashv == hash(chains[b][i].key)
      {
        assert chains[b][i] in order;
      }
    }

    ghost predicate AllHashed()
      reads this`chains
      reads (set b, i | 0 <= b < |chains| && 0 <= i < |chains[b]| :: chains[b][i])`hashv
    {
      forall b :: 0 <= b < |chains| ==> Hashed(hash, chains[b])
    }

    /** HASH_MAKE_TABLE. */
    method MakeTable(it: Item)
      modifies this`tail, this`numBuckets, this`log2NumBuckets, this`buckets, this`numItems, this`chains
      modifies this`idealChainMaxlen, this`nonidealItems, this`ineffExpands, this`noexpand
      ensures tail == it && numBuckets == |buckets| == Pow2(log2NumBuckets) && numItems == 0
      ensures idealChainMaxlen == nonidealItems == ineffExpands == noexpand == 0
      ensures buckets == seq(32, _ => Bucket(null, 0, 0))
      ensures chains == Empty(INITIAL_BUCKETS) && ChainsOk([])
    {
      tail := it;
      numBuckets, log2NumBuckets, numItems := INITIAL_BUCKETS, INITIAL_LOG2, 0;
      idealChainMaxlen, nonidealItems, ineffExpands, noexpand := 0, 0, 0, 0;
      buckets := seq(INITIAL_BUCKETS, _ => Bucket(null, 0, 0));
      chains := Empty(INITIAL_BUCKETS);
      EmptySorted(hash, INITIAL_BUCKETS);
    }

    lemma ChainItems(items: seq<Item>)
      requires ChainsOk(items)
      ensures ChainObjects(chains) <= Objects(items)
    {}

    lemma DoubledOk(items: seq<Item>)
      requires ChainsOk(items)
      ensures var cs := Doubled(hash, chains);
              && |cs| == 2 * |chains| && Sorted(hash, cs) && SameItems(hash, cs, items) && Total(cs) == |items|
    {
      hide Doubled, Sorted, Total, AllChained, Heads;
      DoublingKeepsItems(hash, chains);
      var cs := Doubled(hash, chains);
      forall b, i | 0 <= b < |cs| && 0 <= i < |cs[b]| ensures cs[b][i] in items {
        InOwnBucket(hash, cs, b, i);
        assert Contains(hash, chains, cs[b][i]);
        var d := Index(hash, cs[b][i], |chains|);
        var m :| 0 <= m < |chains[d]| && chains[d][m] == cs[b][i];
      }
    }

    /** HASH_EXPAND_BUCKETS. */
    method Expand()
      requires numItems == |order| > 0 && numBuckets == |buckets| == Pow2(log2NumBuckets)
      requires ChainsOk(order) && AllHashed()
      modifies this`buckets, this`chains, this`numBuckets, this`log2NumBuckets
      modifies this`idealChainMaxlen, this`nonidealItems, this`ineffExpands, this`noexpand
      modifies ChainObjects(chains)`hhNext, ChainObjects(chains)`hhPrev
      ensures TableOk() && chains == Doubled(hash, old(chains))
      ensures numBuckets == 2 * old(numBuckets) && log2NumBuckets == old(log2NumBuckets) + 1
      ensures idealChainMaxlen == IdealMaxlen(numItems, old(log2NumBuckets), old(numBuckets)) > 0
      ensures Counted(buckets, chains, idealChainMaxlen, nonidealItems)
      ensures |buckets| == |chains| && forall b :: 0 <= b < |chains| ==>
                buckets[b].expandMult == if |chains[b]| > idealChainMaxlen then |chains[b]| / idealChainMaxlen else 0
      ensures ineffExpands == if nonidealItems > numItems / 2 then old(ineffExpands) + 1 else 0
      ensures noexpand == if ineffExpands > 1 then 1 else old(noexpand)
    {
      hide Doubled, Counted, IdealMaxlen, Sorted, SameItems, Total, Heads, AllChained, AllHashed, And, Pow2, ChainsOk;
      ExpandReady();
      DoubledOk(order);
      Twice(log2NumBuckets);
      var bs;
      bs, idealChainMaxlen, nonidealItems := DoubleBuckets(hash, buckets, numItems, log2NumBuckets, chains);
      HeadsLength(bs, Doubled(hash, chains));
      numBuckets := numBuckets * 2;
      log2NumBuckets := log2NumBuckets + 1;
      buckets := bs;
      chains := Doubled(hash, chains);
      ChainsTogether(order);
      Multipliers(buckets, chains, idealChainMaxlen, nonidealItems);
      Judge();
    }

    /** Two expansions in a row that did not help are the last ones. */
    method Judge()
      modifies this`ineffExpands, this`noexpand
      ensures ineffExpands == if nonidealItems > numItems / 2 then old(ineffExpands) + 1 else 0
      ensures noexpand == if ineffExpands > 1 then 1 else old(noexpand)
    {
      ineffExpands := if nonidealItems > numItems / 2 then ineffExpands + 1 else 0;
      if ineffExpands > 1 { noexpand := 1; }
    }

    lemma Multipliers(bs: seq<Bucket>, cs: Chains, ideal: nat, nonideal: nat)
      requires ideal > 0 && Counted(bs, cs, ideal, nonideal)
      ensures |bs| == |cs| && forall b :: 0 <= b < |cs| ==>
                bs[b].expandMult == if |cs[b]| > ideal then |cs[b]| / ideal else 0
    {}

    lemma ExpandReady()
      requires ChainsOk(order) && AllHashed()
      ensures |buckets| == |chains| > 0 && Heads(buckets, chains) && AllChained(chains) && Sorted(hash, chains)
      ensures forall b :: 0 <= b < |chains| ==> Hashed(hash, chains[b])
    {
      hide Sorted, SameItems, Total, AllChained, Hashed;
    }

    lemma ChainsTogether(items: seq<Item>)
      requires |chains| > 0 && Heads(buckets, chains) && AllChained(chains)
      requires Sorted(hash, chains) && SameItems(hash, chains, items) && Total(chains) == |items|
      ensures ChainsOk(items)
    {
      hide Heads, AllChained, Sorted, SameItems, Total;
    }

    lemma Twice(log2: nat)
      ensures Pow2(log2 + 1) == 2 * Pow2(log2) && Pow2(log2) > 0
    {}

    lemma PushedOk(it: Item, items: seq<Item>)
      requires ChainsOk(items) && it !in items
      ensures it !in ChainObjects(chains) && Separate(chains)
      ensures var cs := Push(chains, Index(hash, it, |chains|), it);
              Sorted(hash, cs) && SameItems(hash, cs, items + [it]) && Total(cs) == |items| + 1
    {
      hide Sorted, Total, Heads, AllChained, Separate, SameItems;
      ChainItems(items);
      SortedSeparate(hash, chains);
      NotContained(it, items);
      PushSorted(hash, chains, it);
      PushSameItems(hash, chains, items, it);
    }

    lemma NotContained(it: Item, items: seq<Item>)
      requires ChainsOk(items) && it !in items
      ensures |chains| > 0 && !Contains(hash, chains, it) && it !in ChainObjects(chains)
    {
      hide Sorted, Total, Heads, AllChained;
    }

    /** Hanging the new item on its bucket. */
    method PushBucket(it: Item, ghost before: seq<Item>) returns (b: nat)
      requires it !in before && numBuckets == |buckets| == Pow2(log2NumBuckets)
      requires ChainsOk(before) && AllHashed() && it.hashv == hash(it.key)
      modifies this`buckets, this`chains, {it}`hhNext, ({it} + Objects(before))`hhPrev
      ensures ChainsOk(before + [it]) && AllHashed()
      ensures |old(chains)| > 0 && b == Index(hash, it, |old(chains)|) < |old(buckets)|
      ensures chains == Push(old(chains), b, it)
      ensures buckets == old(buckets)[b := Bucket(it, old(buckets)[b].count + 1, old(buckets)[b].expandMult)]
      ensures |old(buckets)| == |old(chains)|
    {
      hide Sorted, SameItems, Total, Heads, AllChained, And, Separate;
      PushedOk(it, before);
      ChainItems(before);
      ghost var c := BucketOf(it.key);
      hide Pow2;
      b := And(it.hashv, numBuckets - 1);
      HeadsLength(buckets, chains);
      ChainInObjects(chains, b);
      buckets := PushOn(buckets, b, it, chains);
      chains := Push(chains, b, it);
    }

    /** HASH_ADD_TO_BKT. */
    method AddToBucket(it: Item)
      requires order != [] && it == order[|order| - 1] && it !in order[..|order| - 1]
      requires numItems == |order| && numBuckets == |buckets| == Pow2(log2NumBuckets)
      requires ChainsOk(order[..|order| - 1]) && AllHashed() && it.hashv == hash(it.key)
      modifies this`buckets, this`chains, this`numBuckets, this`log2NumBuckets
      modifies this`idealChainMaxlen, this`nonidealItems, this`ineffExpands, this`noexpand
      modifies Objects(order)`hhNext, Objects(order)`hhPrev
      ensures TableOk()
      ensures |old(chains)| > 0 && |old(buckets)| == |old(chains)|
      ensures chains == Grown(hash, old(chains), old(buckets), it, old(noexpand))
      ensures |old(buckets)| == old(numBuckets)
      ensures var b := old(buckets)[hash(it.key) % |old(buckets)|];
              numBuckets == if b.count + 1 >= (b.expandMult + 1) * 10 && old(noexpand) != 1
                            then 2 * old(numBuckets) else old(numBuckets)
      ensures numBuckets == old(numBuckets) ==>
                |buckets| == numBuckets && noexpand == old(noexpand)
                && forall d :: 0 <= d < numBuckets ==> buckets[d].expandMult == old(buckets)[d].expandMult
    {
      hide ChainsOk, AllHashed, Pow2, Doubled, Push;
      ghost var before := order[..|order| - 1];
      assert order == before + [it];
      var b := PushBucket(it, before);
      ChainItems(order);
      if buckets[b].count >= (buckets[b].expandMult + 1) * CAPACITY_THRESHOLD && noexpand != 1 {
        Expand();
      }
    }

    /** HASH_ADD_KEYPTR. Keys are taken to be distinct. */
    method Add(it: Item)
      requires Valid() && it !in order && !HasKey(order, it.key)
      modifies this, Objects(order), it
      ensures Valid() && order == old(order) + [it]
      ensures old(order) == [] ==> numBuckets == 32
      ensures old(order) != [] ==>
                && |old(buckets)| == old(numBuckets) > 0
                && var b := old(buckets)[hash(it.key) % |old(buckets)|];
                   numBuckets == if b.count + 1 >= (b.expandMult + 1) * 10 && old(noexpand) != 1
                                 then 2 * old(numBuckets) else old(numBuckets)
      ensures old(order) != [] && numBuckets == old(numBuckets) ==>
                |buckets| == numBuckets && noexpand == old(noexpand)
                && forall d :: 0 <= d < numBuckets ==> buckets[d].expandMult == old(buckets)[d].expandMult
    {
      hide ChainsOk, AllHashed, Pow2, Grown, HasKey, Empty, ListOk;
      Append(it);
      assert order[..|order| - 1] == old(order);
      LastHashed(it);
      AddToBucket(it);
    }

    lemma LastHashed(it: Item)
      requires ListOk() && it in order
      ensures it.hashv == hash(it.key)
    {}

    lemma DroppedOk(del: Item, items: seq<Item>, p: nat, q: nat)
      requires ChainsOk(items) && Distinct(items) && p < |items| && items[p] == del
      requires var b := Index(hash, del, |chains|); q < |chains[b]| && chains[b][q] == del
      ensures var cs := Drop(chains, Index(hash, del, |chains|), q);
              Sorted(hash, cs) && SameItems(hash, cs, Without(items, p)) && Total(cs) == |items| - 1
    {
      hide Sorted, Total, Heads, AllChained;
      var b := Index(hash, del, |chains|);
      DropSorted(hash, chains, del, q);
      DistinctWithout(items, p);
      var cs, left := Drop(chains, b, q), Without(items, p);
      forall i | 0 <= i < |left| ensures Contains(hash, cs, left[i]) {
        assert left[i] in items && left[i] != del;
      }
      forall d, i | 0 <= d < |cs| && 0 <= i < |cs[d]| ensures cs[d][i] in left {
        InOwnBucket(hash, cs, d, i);
        assert Contains(hash, chains, cs[d][i]) && cs[d][i] != del;
        ContainsIn(hash, chains, items, cs[d][i]);
        assert cs[d][i] in Objects(items) - {del};
      }
    }

    lemma InChain(x: Item, items: seq<Item>) returns (q: nat)
      requires ChainsOk(items) && x in items
      ensures var b := Index(hash, x, |chains|); q < |chains[b]| && chains[b][q] == x
    {
      var i :| 0 <= i < |items| && items[i] == x;
      assert Contains(hash, chains, items[i]);
      q :| 0 <= q < |chains[Index(hash, x, |chains|)]| && chains[Index(hash, x, |chains|)][q] == x;
    }

    /** What taking an item off its bucket needs, and what it will leave. */
    lemma DropPlan(del: Item, items: seq<Item>, p: nat) returns (q: nat)
      requires Distinct(items) && p < |items| && items[p] == del && del.hashv == hash(del.key)
      requires numBuckets == |buckets| == Pow2(log2NumBuckets) && ChainsOk(items)
      ensures var b := And(del.hashv, numBuckets - 1);
              && b < |chains| == |buckets| && q < |chains[b]| && chains[b][q] == del
              && Heads(buckets, chains) && AllChained(chains) && Separate(chains)
              && Objects(chains[b]) <= Objects(items)
              && var cs := Drop(chains, b, q);
                 Sorted(hash, cs) && SameItems(hash, cs, Without(items, p)) && Total(cs) == |items| - 1
    {
      hide Sorted, SameItems, Total, And, Heads, AllChained, Separate;
      q := InChain(del, items);
      DroppedOk(del, items, p, q);
      ChainItems(items);
      SortedSeparate(hash, chains);
      ghost var c := BucketOf(del.key);
      HeadsLength(buckets, chains);
      ChainInObjects(chains, Index(hash, del, |chains|));
    }

    /** Taking an item off its bucket. */
    method DropBucket(del: Item, ghost items: seq<Item>, ghost p: nat)
      requires Distinct(items) && p < |items| && items[p] == del && del.hashv == hash(del.key)
      requires numBuckets == |buckets| == Pow2(log2NumBuckets) && ChainsOk(items)
      modifies this`buckets, this`chains, Objects(items)`hhNext, Objects(items)`hhPrev
      ensures ChainsOk(Without(items, p)) && |buckets| == old(|buckets|)
      ensures forall d :: 0 <= d < |buckets| ==> buckets[d].expandMult == old(buckets)[d].expandMult
    {
      hide Sorted, SameItems, Total, And, Heads, AllChained, Separate, Pow2, Index;
      ghost var q := DropPlan(del, items, p);
      var b := And(del.hashv, numBuckets - 1);
      buckets := UnlinkOn(buckets, b, del, chains, q);
      chains := Drop(chains, b, q);
    }

    /** Links at the ends of the insertion-order list. */
    lemma EndLinks(p: nat)
      requires ListOk() && p < |order|
      ensures order[p].prev == At(order, p - 1) && order[p].next == At(order, p + 1)
      ensures tail == order[p] <==> p == |order| - 1
    {}

    /** Moving tail and head off the item. */
    method MoveEnds(del: Item, ghost p: nat)
      requires ListOk() && |order| > 1 && p < |order| && order[p] == del
      modifies this`head, this`tail
      ensures head == At(Without(order, p), 0) && tail == Without(order, p)[|order| - 2]
    {
      hide Linked, Distinct, Hashed, KeysDistinct, Without;
      EndLinks(p);
      WithoutEnds(order, p);
      if del == tail { tail := del.prev; }
      if del.prev == null { head := del.next; }
    }

    /** The insertion-order part of HASH_DELETE: tail, then head, then the neighbours. */
    method DropOrder(del: Item, ghost p: nat)
      requires ListOk() && |order| > 1 && p < |order| && order[p] == del
      modifies this`head, this`tail, this`order
      modifies (Objects(order) - {del})`next, (Objects(order) - {del})`prev
      ensures order == Without(old(order), p) && ListOk()
    {
      hide Linked, Distinct, Hashed, KeysDistinct, Without;
      ghost var items := order;
      KeysWithout(items, p);
      DistinctWithout(items, p);
      WithoutEnds(items, p);
      MoveEnds(del, p);
      UnlinkOrder(del, items, p);
      order := Without(items, p);
      HashedWithout(hash, items, p);
    }

    /** HASH_DELETE. */
    method Delete(del: Item) returns (ghost p: nat)
      requires Valid() && del in order
      modifies this, Objects(order)
      ensures p < |old(order)| && old(order)[p] == del && order == Without(old(order), p)
      ensures Valid()
      ensures del.next == old(del.next) && del.prev == old(del.prev)
      ensures order != [] ==>
                && numBuckets == old(numBuckets) && noexpand == old(noexpand) && |buckets| == |old(buckets)|
                && forall d :: 0 <= d < |buckets| ==> buckets[d].expandMult == old(buckets)[d].expandMult
    {
      hide TableOk, ListOk, Without, Objects;
      p := IndexOf(order, del);
      IsOnly(del, p);
      if del.prev == null && del.next == null { DropLast(del); } else { DropBoth(del, p); }
    }

    lemma IsOnly(del: Item, p: nat)
      requires ListOk() && p < |order| && order[p] == del
      ensures del.prev == null && del.next == null <==> order == [del]
      ensures order == [del] <==> |order| <= 1
    {
      hide Linked, Distinct, Hashed, KeysDistinct;
      EndLinks(p);
    }

    /** Deleting the only item frees the table. */
    method DropLast(del: Item)
      requires order == [del]
      modifies this
      ensures order == [] && Valid()
      ensures Without([del], 0) == []
    {
      buckets, numBuckets, head, tail := [], 0, null, null;
      order, chains := [], [];
    }

    method DropBoth(del: Item, ghost p: nat)
      requires ListOk() && TableOk() && |order| > 1 && p < |order| && order[p] == del
      modifies this`head, this`tail, this`order, this`buckets, this`chains, this`numItems
      modifies (Objects(order) - {del})`next, (Objects(order) - {del})`prev
      modifies Objects(order)`hhNext, Objects(order)`hhPrev
      ensures order == Without(old(order), p) && order != [] && ListOk() && TableOk()
      ensures |buckets| == |old(buckets)|
      ensures forall d :: 0 <= d < |buckets| ==> buckets[d].expandMult == old(buckets)[d].expandMult
    {
      hide ChainsOk, Hashed, KeysDistinct, Linked, Pow2;
      ghost var items := order;
      LastHashed(del);
      DropOrder(del, p);
      DropBucket(del, items, p);
      numItems := numItems - 1;
    }
  }

  lemma KeysWithout(s: seq<Item>, p: nat)
    requires p < |s| && KeysDistinct(s)
    ensures KeysDistinct(Without(s, p))
  {
    var t := Without(s, p);
    forall i | 0 <= i < |t| ensures t[i] == s[if i < p then i else i + 1] {}
  }

  lemma HashedWithout(h: Hash, s: seq<Item>, p: nat)
    requires p < |s| && Hashed(h, s)
    ensures Hashed(h, Without(s, p))
  {
    var t := Without(s, p);
    forall i | 0 <= i < |t| ensures t[i] == s[if i < p then i else i + 1] {}
  }

  lemma IndexOf(s: seq<Item>, x: Item) returns (p: nat)
    requires x in s
    ensures p < |s| && s[p] == x
  {
    p :| 0 <= p < |s| && s[p] == x;
  }

  lemma WithoutEnds(s: seq<Item>, p: nat)
    requires |s| > 1 && p < |s|
    ensures |Without(s, p)| == |s| - 1
    ensures At(Without(s, p), 0) == if p == 0 then s[1] else s[0]
    ensures Without(s, p)[|s| - 2] == if p == |s| - 1 then s[p - 1] else s[|s| - 1]
  {}

  /** HASH_DEL_IN_BKT on one bucket of the array. */
  method UnlinkOn(bs: seq<Bucket>, b: nat, del: Item, ghost cs: Chains, ghost q: nat) returns (r: seq<Bucket>)
    requires Heads(bs, cs) && AllChained(cs) && Separate(cs) && b < |cs| && q < |cs[b]| && cs[b][q] == del
    modifies Objects(cs[b])`hhNext, Objects(cs[b])`hhPrev
    ensures |r| == |bs| && Heads(r, Drop(cs, b, q)) && AllChained(Drop(cs, b, q))
    ensures forall d :: 0 <= d < |bs| ==> r[d].expandMult == bs[d].expandMult
  {
    var newHead := UnlinkChain(bs[b].head, del, cs[b], q);
    r := bs[b := Bucket(newHead, bs[b].count - 1, bs[b].expandMult)];
    ghost var ps := Drop(cs, b, q);
    forall d | 0 <= d < |ps| ensures Chained(ps[d]) {
      if d != b {
        DisjointChains(cs, b, d);
        assert old(Chained(cs[d]));
      }
    }
  }

  lemma DisjointChains(cs: Chains, b: nat, d: nat)
    requires Separate(cs) && b < |cs| && d < |cs| && b != d
    ensures Objects(cs[b]) !! Objects(cs[d])
  {}

  lemma PushSameItems(h: Hash, cs: Chains, items: seq<Item>, it: Item)
    requires |cs| > 0 && SameItems(h, cs, items)
    requires forall x: Item :: Contains(h, Push(cs, Index(h, it, |cs|), it), x) <==> Contains(h, cs, x) || x == it
    ensures SameItems(h, Push(cs, Index(h, it, |cs|), it), items + [it])
  {
    hide Contains;
    var b := Index(h, it, |cs|);
    var ps, all := Push(cs, b, it), items + [it];
    forall i | 0 <= i < |all| ensures Contains(h, ps, all[i]) {
      if i < |items| { assert Contains(h, cs, items[i]); }
    }
    forall d, i | 0 <= d < |ps| && 0 <= i < |ps[d]| ensures ps[d][i] in all {
      if d == b && i > 0 { assert ps[d][i] == cs[d][i - 1]; }
    }
  }

  lemma ContainsIn(h: Hash, cs: Chains, items: seq<Item>, x: Item)
    requires SameItems(h, cs, items) && Contains(h, cs, x)
    ensures x in items
  {
    var b := Index(h, x, |cs|);
    var i :| 0 <= i < |cs[b]| && cs[b][i] == x;
  }

  /** The chains after adding an item: pushed on its bucket, and doubled if that filled it up. */
  ghost function Grown(h: Hash, cs: Chains, bs: seq<Bucket>, it: Item, noexpand: nat): Chains
    requires |cs| > 0 && |bs| == |cs|
  {
    var b := Index(h, it, |cs|);
    var pushed := Push(cs, b, it);
    if bs[b].count + 1 >= (bs[b].expandMult + 1) * CAPACITY_THRESHOLD && noexpand != 1
    then Doubled(h, pushed) else pushed
  }

  lemma InOwnBucket(h: Hash, cs: Chains, b: nat, i: nat)
    requires Sorted(h, cs) && b < |cs| && i < |cs[b]|
    ensures Contains(h, cs, cs[b][i])
  {
    assert cs[b][i] in cs[b];
  }

  lemma LookupNothing(k: Key)
    ensures Lookup([], k) == null
  {}

  /** The bucket of a key decides for the whole table. */
  lemma BucketHasAll(h: Hash, cs: Chains, items: seq<Item>, k: Key, out: Item?)
    requires |cs| > 0 && SameItems(h, cs, items) && KeysDistinct(items)
    requires out != null ==> out in cs[h(k) % |cs|] && out.key == k
    requires out == null ==> forall x :: x in cs[h(k) % |cs|] ==> x.key != k
    ensures out == Lookup(items, k)
  {
    if out != null {
      LookupMember(items, out);
    } else {
      forall i | 0 <= i < |items| ensures items[i].key != k { assert Contains(h, cs, items[i]); }
    }
  }

  /** HASH_FIND_IN_BKT. */
  method FindInBucket(first: Item?, k: Key, ghost c: seq<Item>) returns (out: Item?)
    requires Chained(c) && first == At(c, 0)
    ensures out != null ==> out in c && out.key == k
    ensures out == null ==> forall x :: x in c ==> x.key != k
  {
    out := first;
    ghost var i := 0;
    while out != null
      invariant 0 <= i <= |c| && out == At(c, i)
      invariant forall m :: 0 <= m < i ==> c[m].key != k
      decreases |c| - i
    {
      if out.key == k { return; }
      out := out.hhNext;
      i := i + 1;
    }
  }
}
