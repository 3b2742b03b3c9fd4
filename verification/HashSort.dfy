/** The merge sort of uthash.h on sequences: what one merge, one pass and the whole sort compute,
    and that the whole is a stable sort. */
module HashSort {
  import opened HashItems

  type Cmp = (Item, Item) -> int

  // ---------- the three levels of the algorithm ----------

  /** One merge: on a tie the left run goes first. */
  function Merge(cmp: Cmp, a: seq<Item>, b: seq<Item>): seq<Item> {
    if a == [] then b
    else if b == [] then a
    else if cmp(a[0], b[0]) <= 0 then [a[0]] + Merge(cmp, a[1..], b)
    else [b[0]] + Merge(cmp, a, b[1..])
  }

  function Lead(s: seq<Item>, n: nat): seq<Item> { if n < |s| then s[..n] else s }

  function Rest(s: seq<Item>, n: nat): seq<Item> { if n < |s| then s[n..] else [] }

  /** One pass: runs of n are merged pairwise from the front. */
  function Pass(cmp: Cmp, s: seq<Item>, n: nat): seq<Item>
    requires n > 0
    decreases |s|
  {
    if s == [] then [] else
    Merge(cmp, Lead(s, n), Lead(Rest(s, n), n)) + Pass(cmp, Rest(Rest(s, n), n), n)
  }

  lemma {:induction false} MergeItems(cmp: Cmp, a: seq<Item>, b: seq<Item>)
    ensures multiset(Merge(cmp, a, b)) == multiset(a) + multiset(b)
    ensures |Merge(cmp, a, b)| == |a| + |b|
  {
    if a != [] && b != [] {
      if cmp(a[0], b[0]) <= 0 {
        assert a == [a[0]] + a[1..];
        MergeItems(cmp, a[1..], b);
      } else {
        assert b == [b[0]] + b[1..];
        MergeItems(cmp, a, b[1..]);
      }
    }
  }

  lemma LeadRest(s: seq<Item>, n: nat)
    ensures Lead(s, n) + Rest(s, n) == s
  {}

  lemma {:induction false} PassItems(cmp: Cmp, s: seq<Item>, n: nat)
    requires n > 0
    ensures multiset(Pass(cmp, s, n)) == multiset(s) && |Pass(cmp, s, n)| == |s|
    decreases |s|
  {
    if s != [] {
      var t := Rest(s, n);
      var p, q, r := Lead(s, n), Lead(t, n), Rest(t, n);
      LeadRest(s, n);
      LeadRest(t, n);
      assert multiset(s) == multiset(p) + multiset(t) && multiset(t) == multiset(q) + multiset(r);
      MergeItems(cmp, p, q);
      PassItems(cmp, r, n);
    }
  }

  /** Passes with runs of n, 2n, 4n, ... until one merge covers the list. */
  function SortFrom(cmp: Cmp, s: seq<Item>, n: nat): seq<Item>
    requires n > 0
    decreases if |s| > n then |s| - n else 0
  {
    var t := Pass(cmp, s, n);
    PassItems(cmp, s, n);
    if |s| <= 2 * n then t else SortFrom(cmp, t, 2 * n)
  }

  lemma {:induction false} SortItems(cmp: Cmp, s: seq<Item>, n: nat)
    requires n > 0
    ensures multiset(SortFrom(cmp, s, n)) == multiset(s)
    decreases if |s| > n then |s| - n else 0
  {
    PassItems(cmp, s, n);
    if |s| > 2 * n { SortItems(cmp, Pass(cmp, s, n), 2 * n); }
  }

  // ---------- stability ----------

  /** cmp is total and transitive on these items. */
  ghost predicate TotalPreorder(cmp: Cmp, all: set<Item>) {
    && (forall x, y :: x in all && y in all ==> cmp(x, y) <= 0 || cmp(y, x) <= 0)
    && (forall x, y, z :: x in all && y in all && z in all && cmp(x, y) <= 0 && cmp(y, z) <= 0 ==> cmp(x, z) <= 0)
  }

  /** Where each item stood before the sort. */
  type Rank = Item -> int

  /** x must come before y: it is smaller, or they tie and it stood first. */
  predicate Before(cmp: Cmp, rank: Rank, x: Item, y: Item) {
    cmp(x, y) <= 0 && (cmp(y, x) <= 0 ==> rank(x) < rank(y))
  }

  ghost predicate Ordered(cmp: Cmp, rank: Rank, s: seq<Item>) {
    forall i, j :: 0 <= i < j < |s| ==> Before(cmp, rank, s[i], s[j])
  }

  ghost predicate Earlier(rank: Rank, s: seq<Item>, t: seq<Item>) {
    forall x, y :: x in s && y in t ==> rank(x) < rank(y)
  }

  /** Runs of n, each ordered, and each from an earlier part of the list than the next. */
  ghost predicate Runs(cmp: Cmp, rank: Rank, s: seq<Item>, n: nat)
    requires n > 0
    decreases |s|
  {
    s != [] ==>
      Ordered(cmp, rank, Lead(s, n)) && Earlier(rank, Lead(s, n), Rest(s, n)) && Runs(cmp, rank, Rest(s, n), n)
  }

  lemma MergeMembers(cmp: Cmp, a: seq<Item>, b: seq<Item>, x: Item)
    ensures x in Merge(cmp, a, b) <==> x in a || x in b
  {
    MergeItems(cmp, a, b);
    assert x in Merge(cmp, a, b) <==> x in multiset(Merge(cmp, a, b));
    assert x in a || x in b <==> x in multiset(a) + multiset(b);
  }

  lemma PassMembers(cmp: Cmp, s: seq<Item>, n: nat, x: Item)
    requires n > 0
    ensures x in Pass(cmp, s, n) <==> x in s
  {
    PassItems(cmp, s, n);
    assert x in Pass(cmp, s, n) <==> x in multiset(Pass(cmp, s, n));
  }

  lemma OrderedCons(cmp: Cmp, rank: Rank, x: Item, s: seq<Item>)
    requires Ordered(cmp, rank, s) && forall y :: y in s ==> Before(cmp, rank, x, y)
    ensures Ordered(cmp, rank, [x] + s)
  {}

  lemma OrderedTail(cmp: Cmp, rank: Rank, s: seq<Item>)
    requires s != [] && Ordered(cmp, rank, s)
    ensures Ordered(cmp, rank, s[1..]) && forall y :: y in s[1..] ==> Before(cmp, rank, s[0], y)
  {}

  lemma BeforeTransitive(cmp: Cmp, rank: Rank, x: Item, y: Item, z: Item, all: set<Item>)
    requires TotalPreorder(cmp, all) && {x, y, z} <= all && Before(cmp, rank, x, y) && Before(cmp, rank, y, z)
    ensures Before(cmp, rank, x, z)
  {}

  lemma {:induction false} MergeOrders(cmp: Cmp, rank: Rank, a: seq<Item>, b: seq<Item>, all: set<Item>)
    requires TotalPreorder(cmp, all) && Objects(a) <= all && Objects(b) <= all
    requires Ordered(cmp, rank, a) && Ordered(cmp, rank, b) && Earlier(rank, a, b)
    ensures Ordered(cmp, rank, Merge(cmp, a, b))
    decreases |a| + |b|, 1
  {
    if a != [] && b != [] {
      if cmp(a[0], b[0]) <= 0 { MergeLeft(cmp, rank, a, b, all); } else { MergeRight(cmp, rank, a, b, all); }
    }
  }

  lemma {:induction false} MergeLeft(cmp: Cmp, rank: Rank, a: seq<Item>, b: seq<Item>, all: set<Item>)
    requires TotalPreorder(cmp, all) && Objects(a) <= all && Objects(b) <= all
    requires Ordered(cmp, rank, a) && Ordered(cmp, rank, b) && Earlier(rank, a, b)
    requires a != [] && b != [] && cmp(a[0], b[0]) <= 0
    ensures Ordered(cmp, rank, Merge(cmp, a, b))
    decreases |a| + |b|, 0
  {
    var m := Merge(cmp, a[1..], b);
    OrderedTail(cmp, rank, a);
    OrderedTail(cmp, rank, b);
    MergeOrders(cmp, rank, a[1..], b, all);
    forall y | y in m ensures Before(cmp, rank, a[0], y) {
      MergeMembers(cmp, a[1..], b, y);
      if y in b && y != b[0] {
        assert y in b[1..];
        BeforeTransitive(cmp, rank, a[0], b[0], y, all);
      }
    }
    OrderedCons(cmp, rank, a[0], m);
  }

  lemma {:induction false} MergeRight(cmp: Cmp, rank: Rank, a: seq<Item>, b: seq<Item>, all: set<Item>)
    requires TotalPreorder(cmp, all) && Objects(a) <= all && Objects(b) <= all
    requires Ordered(cmp, rank, a) && Ordered(cmp, rank, b) && Earlier(rank, a, b)
    requires a != [] && b != [] && cmp(a[0], b[0]) > 0
    ensures Ordered(cmp, rank, Merge(cmp, a, b))
    decreases |a| + |b|, 0
  {
    var m := Merge(cmp, a, b[1..]);
    OrderedTail(cmp, rank, a);
    OrderedTail(cmp, rank, b);
    MergeOrders(cmp, rank, a, b[1..], all);
    forall y | y in m ensures Before(cmp, rank, b[0], y) {
      MergeMembers(cmp, a, b[1..], y);
      if y in a && y != a[0] {
        assert y in a[1..];
        BeforeTransitive(cmp, rank, b[0], a[0], y, all);
      }
    }
    OrderedCons(cmp, rank, b[0], m);
  }

  lemma RunsNext(cmp: Cmp, rank: Rank, s: seq<Item>, n: nat)
    requires n > 0 && s != [] && Runs(cmp, rank, s, n)
    ensures var t := Rest(s, n);
            && Ordered(cmp, rank, Lead(s, n)) && Ordered(cmp, rank, Lead(t, n))
            && Earlier(rank, Lead(s, n), Lead(t, n))
            && Earlier(rank, Lead(s, n), Rest(t, n)) && Earlier(rank, Lead(t, n), Rest(t, n))
            && Runs(cmp, rank, Rest(t, n), n)
  {
    var t := Rest(s, n);
    LeadRest(t, n);
    if t != [] { assert Runs(cmp, rank, t, n); }
  }

  /** One pass makes ordered runs of twice the length out of ordered runs. */
  lemma {:induction false} PassOrders(cmp: Cmp, rank: Rank, s: seq<Item>, n: nat, dbl: nat, all: set<Item>)
    requires n > 0 && dbl == 2 * n && TotalPreorder(cmp, all) && Objects(s) <= all
    requires Runs(cmp, rank, s, n)
    ensures Runs(cmp, rank, Pass(cmp, s, n), dbl)
    decreases |s|
  {
    if s != [] {
      var t := Rest(s, n);
      var p, q, r := Lead(s, n), Lead(t, n), Rest(t, n);
      var m, rest := Merge(cmp, p, q), Pass(cmp, r, n);
      RunsNext(cmp, rank, s, n);
      MergeOrders(cmp, rank, p, q, all);
      PassOrders(cmp, rank, r, n, dbl, all);
      MergeItems(cmp, p, q);
      PassItems(cmp, r, n);
      assert Pass(cmp, s, n) == m + rest;
      assert |m| <= dbl && (rest != [] ==> |m| == dbl);
      assert Lead(m + rest, dbl) == m && Rest(m + rest, dbl) == rest;
      forall x, y | x in m && y in rest ensures rank(x) < rank(y) {
        MergeMembers(cmp, p, q, x);
        PassMembers(cmp, r, n, y);
      }
    }
  }

  lemma {:induction false} SortOrders(cmp: Cmp, rank: Rank, s: seq<Item>, n: nat, all: set<Item>)
    requires n > 0 && TotalPreorder(cmp, all) && Objects(s) <= all && Runs(cmp, rank, s, n)
    ensures Ordered(cmp, rank, SortFrom(cmp, s, n))
    decreases if |s| > n then |s| - n else 0
  {
    var t := Pass(cmp, s, n);
    PassItems(cmp, s, n);
    PassOrders(cmp, rank, s, n, 2 * n, all);
    forall x | x in t ensures x in all { PassMembers(cmp, s, n, x); }
    if |s| <= 2 * n {
      if t != [] { assert Lead(t, 2 * n) == t; }
    } else {
      SortOrders(cmp, rank, t, 2 * n, all);
    }
  }

  ghost function Position(s: seq<Item>, x: Item): int {
    if x in s then var i :| 0 <= i < |s| && s[i] == x; i else -1
  }

  lemma PositionAt(s: seq<Item>, i: nat)
    requires Distinct(s) && i < |s|
    ensures Position(s, s[i]) == i
  {}

  lemma {:induction false} SingleRuns(cmp: Cmp, rank: Rank, s: seq<Item>)
    requires forall i, j :: 0 <= i < j < |s| ==> rank(s[i]) < rank(s[j])
    ensures Runs(cmp, rank, s, 1)
    decreases |s|
  {
    if s != [] {
      SingleRuns(cmp, rank, Rest(s, 1));
    }
  }

  /** The whole sort. Any two items come out in cmp's order, and two that tie come out in the
      order they went in; no item is lost or repeated. */
  ghost predicate StableSort(cmp: Cmp, s: seq<Item>, t: seq<Item>) {
    && multiset(t) == multiset(s)
    && forall i, j, a, b :: 0 <= i < j < |t| && 0 <= a < |s| && 0 <= b < |s| && t[i] == s[a] && t[j] == s[b] ==>
         cmp(s[a], s[b]) <= 0 && (cmp(s[b], s[a]) <= 0 ==> a < b)
  }

  lemma SortIsStable(cmp: Cmp, s: seq<Item>)
    requires TotalPreorder(cmp, Objects(s)) && Distinct(s)
    ensures StableSort(cmp, s, SortFrom(cmp, s, 1))
  {
    ghost var rank: Rank := (x: Item) => Position(s, x);
    forall i | 0 <= i < |s| ensures rank(s[i]) == i { PositionAt(s, i); }
    SingleRuns(cmp, rank, s);
    SortOrders(cmp, rank, s, 1, Objects(s));
    SortItems(cmp, s, 1);
    var t := SortFrom(cmp, s, 1);
    forall i, j, a, b | 0 <= i < j < |t| && 0 <= a < |s| && 0 <= b < |s| && t[i] == s[a] && t[j] == s[b]
      ensures cmp(s[a], s[b]) <= 0 && (cmp(s[b], s[a]) <= 0 ==> a < b)
    {
      assert Before(cmp, rank, t[i], t[j]);
    }
  }

  lemma OrderedSameFirst(cmp: Cmp, rank: Rank, t: seq<Item>, u: seq<Item>)
    requires Ordered(cmp, rank, t) && Ordered(cmp, rank, u) && multiset(t) == multiset(u)
    ensures |t| == |u| && (t != [] ==> t[0] == u[0])
  {
    assert |t| == |multiset(t)| == |multiset(u)| == |u|;
    if t != [] {
      assert t[0] in multiset(u) && u[0] in multiset(t);
      var j :| 0 <= j < |u| && u[j] == t[0];
      var i :| 0 <= i < |t| && t[i] == u[0];
      assert i == 0 || Before(cmp, rank, t[0], u[0]);
      assert j == 0 || Before(cmp, rank, u[0], t[0]);
    }
  }

  /** Two arrangements of the same items in the same strict order are one. */
  lemma {:induction false} OrderedUnique(cmp: Cmp, rank: Rank, t: seq<Item>, u: seq<Item>)
    requires Ordered(cmp, rank, t) && Ordered(cmp, rank, u) && multiset(t) == multiset(u)
    ensures t == u
    decreases |t|
  {
    OrderedSameFirst(cmp, rank, t, u);
    if t != [] {
      OrderedTail(cmp, rank, t);
      OrderedTail(cmp, rank, u);
      hide Ordered;
      assert t == [t[0]] + t[1..] && u == [u[0]] + u[1..];
      assert multiset(t[1..]) == multiset(t) - multiset{t[0]};
      assert multiset(u[1..]) == multiset(u) - multiset{u[0]};
      OrderedUnique(cmp, rank, t[1..], u[1..]);
    }
  }

  /** A stable sort is the only one: the result depends on nothing but cmp and the list. */
  lemma StableSortUnique(cmp: Cmp, s: seq<Item>, t: seq<Item>)
    requires TotalPreorder(cmp, Objects(s)) && Distinct(s) && StableSort(cmp, s, t)
    ensures t == SortFrom(cmp, s, 1)
  {
    ghost var rank: Rank := (x: Item) => Position(s, x);
    SortIsStable(cmp, s);
    StableOrdered(cmp, rank, s, t);
    StableOrdered(cmp, rank, s, SortFrom(cmp, s, 1));
    OrderedUnique(cmp, rank, t, SortFrom(cmp, s, 1));
  }

  lemma StableOrdered(cmp: Cmp, rank: Rank, s: seq<Item>, t: seq<Item>)
    requires Distinct(s) && StableSort(cmp, s, t) && rank == ((x: Item) => Position(s, x))
    ensures Ordered(cmp, rank, t)
  {
    forall i, j | 0 <= i < j < |t| ensures Before(cmp, rank, t[i], t[j]) {
      assert t[i] in multiset(s) && t[j] in multiset(s);
      var a :| 0 <= a < |s| && s[a] == t[i];
      var b :| 0 <= b < |s| && s[b] == t[j];
      PositionAt(s, a);
      PositionAt(s, b);
    }
  }
}
