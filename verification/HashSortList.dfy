/** HASH_SRT on the linked list itself: each method is one level of the macro's loops and is
    proved to compute the sequence function of the same level. */
module HashSortList {
  import opened Bits
  import opened HashItems
  import opened HashChains
  import opened HashTable
  import opened HashSort

  /** The part of the list not yet merged, linked through next to the end. */
  ghost predicate Ahead(z: seq<Item>)
    reads z`next
  {
    forall i :: 0 <= i < |z| ==> z[i].next == At(z, i + 1)
  }

  /** The rest of the left run; what follows its last item no longer matters. */
  ghost predicate Run(a: seq<Item>)
    reads a`next
  {
    forall i :: 0 <= i < |a| - 1 ==> a[i].next == a[i + 1]
  }

  /** The list built so far; its last item's next is still to be set. */
  ghost predicate Built(list: Item?, tail: Item?, out: seq<Item>)
    reads out`next, out`prev
  {
    && list == At(out, 0) && tail == At(out, |out| - 1)
    && (forall i :: 0 <= i < |out| - 1 ==> out[i].next == out[i + 1])
    && (forall i :: 0 <= i < |out| ==> out[i].prev == At(out, i - 1))
  }

  ghost predicate Apart(out: seq<Item>, a: seq<Item>, z: seq<Item>) {
    && Distinct(out) && Distinct(a) && Distinct(z)
    && Objects(out) !! Objects(a) && Objects(out) !! Objects(z) && Objects(a) !! Objects(z)
  }

  /** Counting off one run: psize is its length and q the item after it. */
  method TakeRun(p: Item, insize: nat, ghost z: seq<Item>) returns (q: Item?, psize: nat)
    requires insize > 0 && z != [] && p == z[0] && Ahead(z)
    ensures psize == |Lead(z, insize)| && q == At(z, psize)
  {
    q, psize := p, 0;
    var i := 0;
    while i < insize
      invariant 0 <= i <= insize && psize == i < |z| && q == At(z, i)
    {
      psize := psize + 1;
      q := q.next;
      if q == null { break; }
      i := i + 1;
    }
  }

  // ---------- one merge ----------

  /** p and q point at what remains of the two runs. */
  ghost predicate Fronts(p: Item?, psize: nat, q: Item?, a: seq<Item>, z: seq<Item>)
    reads a`next, z`next
  {
    psize == |a| && (a != [] ==> p == a[0]) && Run(a) && q == At(z, 0) && Ahead(z)
  }

  lemma LeadNext(z: seq<Item>, n: nat)
    ensures z != [] && n > 0 ==> Lead(z, n) != [] && Lead(z, n)[0] == z[0] && Lead(z, n)[1..] == Lead(z[1..], n - 1)
    ensures z == [] || n == 0 <==> Lead(z, n) == []
  {}

  /** e was the front of the left run, or the front of the right one. */
  ghost predicate TakenFrom(e: Item, a: seq<Item>, a': seq<Item>, z: seq<Item>, z': seq<Item>, n: nat, n': nat) {
    || (a == [e] + a' && z == z' && n' == n)
    || (a == a' && z == [e] + z' && n == n' + 1)
  }

  /** Taking the next item off one of the runs: a tie takes it from the left one. */
  method Choose(cmp: Cmp, p: Item?, psize: nat, q: Item?, qsize: nat, ghost a: seq<Item>, ghost z: seq<Item>)
    returns (e: Item, p': Item?, psize': nat, q': Item?, qsize': nat, ghost a': seq<Item>, ghost z': seq<Item>)
    requires Fronts(p, psize, q, a, z) && (psize > 0 || (qsize > 0 && q != null))
    ensures Fronts(p', psize', q', a', z')
    ensures TakenFrom(e, a, a', z, z', qsize, qsize')
    ensures Merge(cmp, a, Lead(z, qsize)) == [e] + Merge(cmp, a', Lead(z', qsize'))
  {
    p', psize', q', qsize', a', z' := p, psize, q, qsize, a, z;
    LeadNext(z, qsize);
    if psize == 0 {
      e := q;
      q' := q.next;
      qsize' := qsize - 1;
      z' := z[1..];
    } else if qsize == 0 || q == null {
      e := p;
      p' := p.next;
      psize' := psize - 1;
      a' := a[1..];
    } else if cmp(p, q) <= 0 {
      e := p;
      p' := p.next;
      psize' := psize - 1;
      a' := a[1..];
    } else {
      e := q;
      q' := q.next;
      qsize' := qsize - 1;
      z' := z[1..];
    }
  }

  /** Linking an item behind the list built so far. */
  method Link(list: Item?, tail: Item?, e: Item, ghost out: seq<Item>) returns (list': Item?, tail': Item?)
    requires Built(list, tail, out) && Distinct(out) && e !in out
    modifies Objects(out)`next, {e}`prev
    ensures tail' == e && Built(list', tail', out + [e])
  {
    list' := list;
    if tail != null { tail.next := e; } else { list' := e; }
    e.prev := tail;
    tail' := e;
  }

  /** Taking an item off either run and putting it behind the list keeps the three apart. */
  lemma ApartNext(out: seq<Item>, e: Item, a: seq<Item>, z: seq<Item>, a': seq<Item>, z': seq<Item>)
    requires Apart(out, a, z)
    requires exists n, n' :: TakenFrom(e, a, a', z, z', n, n')
    ensures Apart(out + [e], a', z') && e !in out && e !in a' && e !in z'
    ensures Objects(out + [e]) + Objects(a') + Objects(z') == Objects(out) + Objects(a) + Objects(z)
  {
    DistinctSnoc(out, e, if |a'| < |a| then a else z);
    if |a'| < |a| { DistinctCons(e, a'); } else { DistinctCons(e, z'); }
  }

  /** The list built so far shares nothing with what is left of the runs. */
  lemma StillThere(out: seq<Item>, e: Item, a: seq<Item>, z: seq<Item>, a': seq<Item>, z': seq<Item>)
    requires Apart(out, a, z) && exists n, n' :: TakenFrom(e, a, a', z, z', n, n')
    ensures Distinct(out) && e in Objects(a) + Objects(z)
    ensures forall x :: x in a' || x in z' ==> x !in Objects(out)
  {
    assert forall x :: x in a' ==> x in Objects(a);
    assert forall x :: x in z' ==> x in Objects(z);
  }

  lemma DistinctCons(e: Item, s: seq<Item>)
    requires Distinct([e] + s)
    ensures Distinct(s) && e !in s && Objects([e] + s) == {e} + Objects(s)
  {
    var t := [e] + s;
    forall i | 0 <= i < |s| ensures s[i] == t[i + 1] && s[i] != e { assert t[0] != t[i + 1]; }
  }

  lemma DistinctSnoc(s: seq<Item>, e: Item, from: seq<Item>)
    requires Distinct(s) && e in from && Objects(s) !! Objects(from)
    ensures e !in s && Distinct(s + [e]) && Objects(s + [e]) == Objects(s) + {e}
  {
    assert e in Objects(from);
  }

  /** One round of the merge loop. */
  method MergeStep(cmp: Cmp, p: Item?, psize: nat, q: Item?, qsize: nat, list: Item?, tail: Item?,
                   ghost out: seq<Item>, ghost a: seq<Item>, ghost z: seq<Item>)
    returns (e: Item, p': Item?, psize': nat, q': Item?, qsize': nat, list': Item?,
             ghost a': seq<Item>, ghost z': seq<Item>)
    requires Fronts(p, psize, q, a, z) && (psize > 0 || (qsize > 0 && q != null))
    requires Built(list, tail, out) && Apart(out, a, z)
    modifies (Objects(out) + Objects(a) + Objects(z))`next, (Objects(out) + Objects(a) + Objects(z))`prev
    ensures Fronts(p', psize', q', a', z') && Built(list', e, out + [e]) && Apart(out + [e], a', z')
    ensures Objects(out + [e]) + Objects(a') + Objects(z') == Objects(out) + Objects(a) + Objects(z)
    ensures TakenFrom(e, a, a', z, z', qsize, qsize')
    ensures Merge(cmp, a, Lead(z, qsize)) == [e] + Merge(cmp, a', Lead(z', qsize'))
  {
    hide Apart, Merge, Lead, Fronts, Built, Objects, Distinct, TakenFrom;
    e, p', psize', q', qsize', a', z' := Choose(cmp, p, psize, q, qsize, a, z);
    ApartNext(out, e, a, z, a', z');
    StillThere(out, e, a, z, a', z');
    var last;
    list', last := Link(list, tail, e, out);
  }

  /** Merging the first two runs of what lies ahead onto the list. */
  method MergeRuns(cmp: Cmp, p: Item, n: nat, list: Item?, tail: Item?, ghost out: seq<Item>, ghost z: seq<Item>)
    returns (q: Item?, list': Item?, tail': Item?, ghost out': seq<Item>, ghost z': seq<Item>)
    requires n > 0 && z != [] && p == z[0] && Ahead(z) && Built(list, tail, out) && Apart(out, [], z)
    modifies (Objects(out) + Objects(z))`next, (Objects(out) + Objects(z))`prev
    ensures out' == out + Merge(cmp, Lead(z, n), Lead(Rest(z, n), n)) && z' == Rest(Rest(z, n), n)
    ensures q == At(z', 0) && Ahead(z') && Built(list', tail', out') && Apart(out', [], z')
    ensures Objects(out') + Objects(z') == Objects(out) + Objects(z)
  {
    hide Merge, Lead, Rest, Fronts, Built, Apart, Ahead, TakenFrom, Objects;
    var psize: nat, qsize: nat := 0, n;
    q, psize := TakeRun(p, n, z);
    ghost var a := Lead(z, n);
    ghost var all := Objects(out) + Objects(z);
    list', tail', out', z' := list, tail, out, Rest(z, n);
    SplitRun(out, z, n);
    ghost var goal, start := out + Merge(cmp, a, Lead(z', n)), z';
    var p' := p;
    while psize > 0 || (qsize > 0 && q != null)
      invariant Fronts(p', psize, q, a, z') && Built(list', tail', out') && Apart(out', a, z')
      invariant Objects(out') + Objects(a) + Objects(z') == all
      invariant out' + Merge(cmp, a, Lead(z', qsize)) == goal
      invariant qsize <= n && |start| >= n - qsize && z' == start[n - qsize..]
      decreases |a| + |z'|
    {
      ghost var a0, z0, n0 := a, z', qsize;
      var e;
      e, p', psize, q, qsize, list', a, z' := MergeStep(cmp, p', psize, q, qsize, list', tail', out', a, z');
      tail' := e;
      out' := out' + [e];
      TakenNext(e, a0, a, z0, z', n0, qsize, start, n);
    }
    MergeDone(cmp, p', psize, q, qsize, a, z', start, n);
  }

  lemma TakenNext(e: Item, a: seq<Item>, a': seq<Item>, z: seq<Item>, z': seq<Item>, qsize: nat, qsize': nat,
                  start: seq<Item>, n: nat)
    requires TakenFrom(e, a, a', z, z', qsize, qsize')
    requires qsize <= n && |start| >= n - qsize && z == start[n - qsize..]
    ensures qsize' <= n && |start| >= n - qsize' && z' == start[n - qsize'..]
    ensures |a'| + |z'| < |a| + |z|
  {}

  lemma MergeDone(cmp: Cmp, p: Item?, psize: nat, q: Item?, qsize: nat, a: seq<Item>, z: seq<Item>,
                  start: seq<Item>, n: nat)
    requires Fronts(p, psize, q, a, z) && !(psize > 0 || (qsize > 0 && q != null))
    requires qsize <= n && |start| >= n - qsize && z == start[n - qsize..]
    ensures a == [] && Objects(a) == {} && Merge(cmp, a, Lead(z, qsize)) == [] && z == Rest(start, n) && q == At(z, 0) && Ahead(z)
  {}

  lemma SplitRun(out: seq<Item>, z: seq<Item>, n: nat)
    requires n > 0 && z != [] && Ahead(z) && Apart(out, [], z)
    ensures Fronts(z[0], |Lead(z, n)|, At(z, |Lead(z, n)|), Lead(z, n), Rest(z, n))
    ensures Apart(out, Lead(z, n), Rest(z, n)) && Objects(Lead(z, n)) + Objects(Rest(z, n)) == Objects(z)
  {}

  // ---------- one pass ----------

  /** All pairs of runs merged from the front: counts the merges and ends the list. */
  method OnePass(cmp: Cmp, first: Item, n: nat, ghost s: seq<Item>)
    returns (list: Item?, tail: Item?, nmerges: nat)
    requires n > 0 && s != [] && first == s[0] && Ahead(s) && Distinct(s)
    modifies Objects(s)`next, Objects(s)`prev
    ensures var t := Pass(cmp, s, n);
            list == At(t, 0) && tail == At(t, |t| - 1) && Linked(t) && Distinct(t) && Objects(t) == Objects(s)
    ensures nmerges <= 1 <==> |s| <= 2 * n
  {
    hide Merge, Pass, Lead, Rest, Built, Apart, Ahead, Distinct, Linked;
    var p: Item? := first;
    list, tail, nmerges := null, null, 0;
    ghost var out, z := [], s;
    PassStarts(s);
    while p != null
      invariant p == At(z, 0) && Ahead(z) && Built(list, tail, out) && Apart(out, [], z)
      invariant Objects(out) + Objects(z) == Objects(s)
      invariant out + Pass(cmp, z, n) == Pass(cmp, s, n)
      invariant Merges(s, z, n, nmerges)
      decreases |z|
    {
      PassNext(cmp, s, out, z, n, nmerges);
      p, list, tail, out, z := MergeRuns(cmp, p, n, list, tail, out, z);
      nmerges := nmerges + 1;
    }
    PassEnds(cmp, s, out, z, n, nmerges, list, tail);
    EndList(list, tail, out);
  }

  /** How the number of merges tells the length of the list. */
  ghost predicate Merges(s: seq<Item>, z: seq<Item>, n: nat, nmerges: nat) {
    if nmerges == 0 then z == s
    else if nmerges == 1 then z == Rest(Rest(s, n), n)
    else |s| > 2 * n
  }

  lemma PassStarts(s: seq<Item>)
    requires Distinct(s)
    ensures Built(null, null, []) && Apart([], [], s)
  {}

  lemma PassNext(cmp: Cmp, s: seq<Item>, out: seq<Item>, z: seq<Item>, n: nat, nmerges: nat)
    requires n > 0 && z != [] && Merges(s, z, n, nmerges)
    requires out + Pass(cmp, z, n) == Pass(cmp, s, n)
    ensures var m, z' := Merge(cmp, Lead(z, n), Lead(Rest(z, n), n)), Rest(Rest(z, n), n);
            Merges(s, z', n, nmerges + 1) && (out + m) + Pass(cmp, z', n) == Pass(cmp, s, n) && |z'| < |z|
  {
    hide Merge, Lead, Rest, Pass;
    PassUnfold(cmp, out, z, n);
    RestShrinks(s, z, n);
  }

  lemma PassUnfold(cmp: Cmp, out: seq<Item>, z: seq<Item>, n: nat)
    requires n > 0 && z != []
    ensures var m, z' := Merge(cmp, Lead(z, n), Lead(Rest(z, n), n)), Rest(Rest(z, n), n);
            (out + m) + Pass(cmp, z', n) == out + Pass(cmp, z, n)
  {
    hide Merge, Lead, Rest;
  }

  lemma RestShrinks(s: seq<Item>, z: seq<Item>, n: nat)
    requires n > 0 && z != []
    ensures |Rest(Rest(z, n), n)| < |z|
    ensures Rest(Rest(s, n), n) != [] <==> |s| > 2 * n
  {}

  lemma PassEnds(cmp: Cmp, s: seq<Item>, out: seq<Item>, z: seq<Item>, n: nat, nmerges: nat, list: Item?, tail: Item?)
    requires n > 0 && s != [] && At(z, 0) == null && Merges(s, z, n, nmerges) && out + Pass(cmp, z, n) == Pass(cmp, s, n)
    requires Objects(out) + Objects(z) == Objects(s) && Apart(out, [], z) && Built(list, tail, out)
    ensures out == Pass(cmp, s, n) && Distinct(out) && Objects(out) == Objects(s) && tail != null && tail in out
    ensures nmerges <= 1 <==> |s| <= 2 * n
  {
    assert z == [];
    assert s[0] in Objects(s);
  }

  /** Closing the list with a null. */
  method EndList(list: Item?, tail: Item?, ghost out: seq<Item>)
    requires Built(list, tail, out) && Distinct(out)
    modifies Objects(out)`next
    ensures Linked(out) && list == At(out, 0) && tail == At(out, |out| - 1)
  {
    if tail != null { tail.next := null; }
  }

  // ---------- the whole sort ----------

  lemma SortUnfold(cmp: Cmp, s: seq<Item>, n: nat, dbl: nat)
    requires n > 0 && dbl == 2 * n
    ensures SortFrom(cmp, s, n) == if |s| <= dbl then Pass(cmp, s, n) else SortFrom(cmp, Pass(cmp, s, n), dbl)
    ensures |Pass(cmp, s, n)| == |s|
  {
    PassItems(cmp, s, n);
  }

  /** Passes with runs of 1, 2, 4, ... until one of them needs a single merge. */
  method SortList(cmp: Cmp, first: Item, ghost s: seq<Item>) returns (list: Item?, tail: Item?)
    requires s != [] && first == s[0] && Linked(s) && Distinct(s)
    modifies Objects(s)`next, Objects(s)`prev
    ensures var t := SortFrom(cmp, s, 1);
            list == At(t, 0) && tail == At(t, |t| - 1) && Linked(t) && Distinct(t) && Objects(t) == Objects(s)
  {
    hide Pass, SortFrom, Linked, Distinct, Objects;
    var insize: nat, looping := 1, true;
    list, tail := first, null;
    ghost var cur := s;
    while looping
      invariant insize > 0 && Linked(cur) && Distinct(cur) && Objects(cur) == Objects(s) && list == At(cur, 0) != null
      invariant if looping then SortFrom(cmp, cur, insize) == SortFrom(cmp, s, 1)
                else cur == SortFrom(cmp, s, 1) && tail == At(cur, |cur| - 1)
      decreases looping, if |cur| > insize then |cur| - insize else 0
    {
      LinkedAhead(cur);
      SortUnfold(cmp, cur, insize, 2 * insize);
      var nmerges;
      list, tail, nmerges := OnePass(cmp, list, insize, cur);
      cur := Pass(cmp, cur, insize);
      if nmerges <= 1 { looping := false; }
      insize := insize * 2;
    }
  }

  lemma LinkedAhead(s: seq<Item>)
    requires Linked(s)
    ensures Ahead(s)
  {}

  /** HASH_SRT: the insertion-order list becomes its stable sort, and stays a well-formed list; the
      bucket chains are not touched. */
  method Sort(t: Table, cmp: Cmp)
    requires t.Valid()
    modifies t`head, t`tail, t`order, Objects(t.order)`next, Objects(t.order)`prev
    ensures t.order == SortFrom(cmp, old(t.order), 1)
    ensures t.Valid()
  {
    hide Pass, SortFrom, Linked, Distinct, KeysDistinct, Hashed, Pow2, Objects, Table.ChainsOk;
    ghost var s := t.order;
    SortNothing(cmp);
    if t.head != null {
      var list, tail := SortList(cmp, t.head, s);
      assert t.ChainsOk(s);
      t.tail := tail;
      t.head := list;
      t.order := SortFrom(cmp, s, 1);
      SortItems(cmp, s, 1);
      ItemsKept(t.hash, s, t.order);
      ChainsReordered(t, s, t.order);
    }
  }

  lemma ChainsReordered(t: Table, s: seq<Item>, u: seq<Item>)
    requires t.ChainsOk(s) && multiset(u) == multiset(s)
    ensures t.ChainsOk(u)
  {
    hide Heads, AllChained, Sorted, Total, Contains;
    SameMembers(s, u);
    forall i | 0 <= i < |u| ensures Contains(t.hash, t.chains, u[i]) {
      assert u[i] in s;
      var a :| 0 <= a < |s| && s[a] == u[i];
    }
  }

  lemma SortNothing(cmp: Cmp)
    ensures SortFrom(cmp, [], 1) == []
  {}

  /** What the table says about its items does not depend on their order. */
  lemma ItemsKept(h: Hash, s: seq<Item>, t: seq<Item>)
    requires KeysDistinct(s) && Hashed(h, s) && Distinct(t) && multiset(t) == multiset(s)
    ensures |t| == |s| && KeysDistinct(t) && Hashed(h, t)
  {
    SameMembers(s, t);
    KeysPermuted(s, t);
    forall i | 0 <= i < |t| ensures t[i].hashv == h(t[i].key) {
      assert t[i] in s;
      var a :| 0 <= a < |s| && s[a] == t[i];
    }
  }

  lemma SameMembers(s: seq<Item>, t: seq<Item>)
    requires multiset(t) == multiset(s)
    ensures |t| == |s| && forall x :: x in t <==> x in s
  {
    assert |t| == |multiset(t)| && |s| == |multiset(s)|;
    forall x ensures x in t <==> x in s { assert x in multiset(t) <==> x in multiset(s); }
  }

  lemma KeysPermuted(s: seq<Item>, t: seq<Item>)
    requires KeysDistinct(s) && Distinct(t) && forall x :: x in t ==> x in s
    ensures KeysDistinct(t)
  {
    forall i, j | 0 <= i < j < |t| ensures t[i].key != t[j].key {
      assert t[i] in s && t[j] in s;
      var a :| 0 <= a < |s| && s[a] == t[i];
      var b :| 0 <= b < |s| && s[b] == t[j];
    }
  }
}
