/** The provider's registry of targets: attach, detach, detach-all, count, list and probe. */
module Registry {
  import opened HashItems
  import opened HashChains
  import opened HashTable

  // ---------- what the operations mean ----------

  /** The registered ids in the order they were attached, the counter kept beside them, and the
      ids finalized so far. */
  datatype State = State(ids: seq<Key>, num: nat, finalized: seq<Key>)

  datatype Event =
    | Attached(id: Key)
    | AttachFailed
    | Detached(id: Key)
    | DetachUnknown(id: Key)
    | DetachedAll

  function Remove(ids: seq<Key>, id: Key): seq<Key> {
    if ids == [] then [] else if ids[0] == id then ids[1..] else [ids[0]] + Remove(ids[1..], id)
  }

  /** Attaching is legal for ids not in use; the other events tell what the operation answered. */
  predicate Legal(s: State, e: Event) {
    match e
    case Attached(id) => id !in s.ids
    case Detached(id) => id in s.ids
    case DetachUnknown(id) => id !in s.ids
    case _ => true
  }

  /** Detaching one target leaves the counter alone; detaching all resets it. */
  function Apply(s: State, e: Event): State {
    match e
    case Attached(id) => s.(ids := s.ids + [id], num := s.num + 1)
    case Detached(id) => s.(ids := Remove(s.ids, id), finalized := s.finalized + [id])
    case DetachedAll => State([], 0, s.finalized + s.ids)
    case _ => s
  }

  function After(es: seq<Event>): State {
    if es == [] then State([], 0, []) else Apply(After(es[..|es| - 1]), es[|es| - 1])
  }

  predicate LegalRun(es: seq<Event>) {
    es == [] || (LegalRun(es[..|es| - 1]) && Legal(After(es[..|es| - 1]), es[|es| - 1]))
  }

  // ---------- runs, told without the state ----------

  /** Single detaches since all targets were last detached. */
  function Lag(es: seq<Event>): nat {
    if es == [] || es[|es| - 1].DetachedAll? then 0
    else Lag(es[..|es| - 1]) + if es[|es| - 1].Detached? then 1 else 0
  }

  /** The last event that concerns the id attached it. */
  predicate Registered(es: seq<Event>, id: Key) {
    es != [] &&
    var last := es[|es| - 1];
    last == Attached(id) || (last != Detached(id) && !last.DetachedAll? && Registered(es[..|es| - 1], id))
  }

  function Attachments(es: seq<Event>): multiset<Key> {
    if es == [] then multiset{} else
    Attachments(es[..|es| - 1]) + if es[|es| - 1].Attached? then multiset{es[|es| - 1].id} else multiset{}
  }

  lemma {:induction false} RemoveItems(ids: seq<Key>, id: Key)
    requires id in ids
    ensures |Remove(ids, id)| == |ids| - 1 && multiset(Remove(ids, id)) == multiset(ids) - multiset{id}
  {
    assert ids == [ids[0]] + ids[1..];
    if ids[0] != id { RemoveItems(ids[1..], id); }
  }

  /** The counter is the number of registered targets plus the single detaches it has missed. */
  lemma {:induction false} CounterLags(es: seq<Event>)
    requires LegalRun(es)
    ensures After(es).num == |After(es).ids| + Lag(es)
  {
    if es != [] {
      var before, e := es[..|es| - 1], es[|es| - 1];
      CounterLags(before);
      if e.Detached? { RemoveItems(After(before).ids, e.id); }
    }
  }

  /** After one attach and one detach the counter still says one. */
  lemma DetachLeavesCounter(id: Key)
    ensures var es := [Attached(id), Detached(id)];
            LegalRun(es) && After(es).ids == [] && After(es).num == 1
  {
    var es := [Attached(id), Detached(id)];
    assert es[..1] == [Attached(id)] && es[..1][..0] == [];
    assert After(es[..1]) == State([id], 1, []);
  }

  /** Whatever was attached is registered once or has been finalized once, for every attachment:
      nothing is finalized twice and nothing is forgotten. */
  lemma {:induction false} AttachmentsConserved(es: seq<Event>)
    requires LegalRun(es)
    ensures multiset(After(es).ids) + multiset(After(es).finalized) == Attachments(es)
  {
    if es != [] {
      var before, e := es[..|es| - 1], es[|es| - 1];
      AttachmentsConserved(before);
      if e.Detached? { RemoveItems(After(before).ids, e.id); }
    }
  }

  /** No id is registered twice, and the registered ids are those whose last event attached them. */
  lemma {:induction false} RegisteredIds(es: seq<Event>, id: Key)
    requires LegalRun(es)
    ensures multiset(After(es).ids)[id] == if Registered(es, id) then 1 else 0
  {
    if es != [] {
      var before, e := es[..|es| - 1], es[|es| - 1];
      RegisteredIds(before, id);
      CountAfter(After(before), e, id);
    }
  }

  lemma CountAfter(s: State, e: Event, id: Key)
    requires Legal(s, e)
    ensures multiset(Apply(s, e).ids)[id] ==
              if e == Attached(id) then 1 else if e == Detached(id) then multiset(s.ids)[id] - 1
              else if e.DetachedAll? then 0 else multiset(s.ids)[id]
  {
    hide Remove;
    if e.Attached? {
      assert e.id !in multiset(s.ids);
    } else if e.Detached? {
      RemoveItems(s.ids, e.id);
      assert e.id in multiset(s.ids);
    }
  }

  // ---------- counting, and then listing ----------

  /** How many targets are registered after these events, from how many. */
  function Size(n: int, es: seq<Event>): int {
    if es == [] then n
    else
      var before, e := Size(n, es[..|es| - 1]), es[|es| - 1];
      if e.Attached? then before + 1 else if e.Detached? then before - 1 else if e.DetachedAll? then 0 else before
  }

  lemma {:induction false} SizeAfter(es: seq<Event>, fs: seq<Event>)
    requires LegalRun(es + fs)
    ensures LegalRun(es) && |After(es + fs).ids| == Size(|After(es).ids|, fs)
  {
    if fs == [] {
      assert es + fs == es;
    } else {
      var init := fs[..|fs| - 1];
      assert (es + fs)[..|es + fs| - 1] == es + init;
      SizeAfter(es, init);
      var s, e := After(es + init), fs[|fs| - 1];
      if e.Detached? { RemoveItems(s.ids, e.id); }
    }
  }

  /** A probe counts and lists in two locked sections. The slots it has made by then hold what the
      listing writes if and only if, in between, the registry has not grown by more than the single
      detaches the counter had missed. */
  lemma ProbeFits(es: seq<Event>, fs: seq<Event>)
    requires LegalRun(es + fs)
    ensures LegalRun(es)
    ensures |After(es + fs).ids| <= After(es).num <==> Size(|After(es).ids|, fs) - |After(es).ids| <= Lag(es)
  {
    SizeAfter(es, fs);
    CounterLags(es);
  }

  /** So one attach in between is too many whenever the counter is exact. */
  lemma ProbeRace(es: seq<Event>, id: Key)
    requires LegalRun(es) && Lag(es) == 0 && id !in After(es).ids
    ensures LegalRun(es + [Attached(id)]) && |After(es + [Attached(id)]).ids| == After(es).num + 1
  {
    assert (es + [Attached(id)])[..|es|] == es;
    CounterLags(es);
  }

  // ---------- the provider ----------

  const BAKE_SUCCESS: int := 0
  const BAKE_ERR_ALLOCATION: int := -1
  const BAKE_ERR_UNKNOWN_TARGET: int := -6
  const BAKE_ERR_BACKEND_TYPE: int := -13

  /** What looking up the backend and initializing the target in it gives. */
  datatype Initialized = UnknownBackend | Failed(code: int) | Opened(id: Key)

  function Ids(s: seq<Item>): seq<Key> { seq(|s|, i requires 0 <= i < |s| => s[i].key) }

  lemma RemoveAt(s: seq<Item>, p: nat)
    requires p < |s| && KeysDistinct(s)
    ensures Remove(Ids(s), s[p].key) == Ids(Without(s, p))
  {
    if p == 0 {
      assert Ids(s)[1..] == Ids(s[1..]) && Without(s, 0) == s[1..];
    } else {
      assert Ids(s)[1..] == Ids(s[1..]) && Ids(s)[0] != s[p].key;
      RemoveAt(s[1..], p - 1);
      assert [s[0]] + Without(s[1..], p - 1) == Without(s, p);
    }
  }

  lemma KeyInIds(s: seq<Item>, id: Key)
    ensures id in Ids(s) <==> HasKey(s, id)
    ensures Lookup(s, id) != null <==> HasKey(s, id)
    ensures Lookup(s, id) != null ==> Lookup(s, id) in s && Lookup(s, id).key == id
  {
    if i :| 0 <= i < |s| && s[i].key == id { assert Ids(s)[i] == id; }
    if id in Ids(s) {
      var i :| 0 <= i < |Ids(s)| && Ids(s)[i] == id;
      assert s[i].key == id;
    }
  }

  lemma OrderFacts(t: Table)
    requires t.Valid()
    ensures Distinct(t.order) && KeysDistinct(t.order)
  {}

  lemma FirstLinks(t: Table)
    requires t.Valid()
    ensures t.head == At(t.order, 0) && (t.order != [] ==> t.order[0].next == At(t.order, 1))
  {}

  lemma LaterLink(t: Table, i: nat)
    requires t.Valid() && i < |t.order|
    ensures t.order[i].next == At(t.order, i + 1)
  {}

  lemma DropFirst(s: seq<Item>, p: nat)
    requires Distinct(s) && p < |s| && s[p] == s[0]
    ensures Without(s, p) == s[1..] && s[0] !in s[1..] && Objects(s[1..]) == Objects(s) - {s[0]}
  {
    DistinctWithout(s, 0);
    assert Without(s, 0) == s[1..];
  }

  lemma FoundAgain(t: Table, it: Item)
    requires t.Valid() && it in t.order
    ensures Lookup(t.order, it.key) == it
  {
    LookupMember(t.order, it);
  }

  lemma OneMore(s: seq<Item>, it: Item)
    requires Distinct(s) && it !in s
    ensures Distinct(s + [it]) && Objects(s + [it]) == Objects(s) + {it}
  {}

  lemma IdsAppend(s: seq<Item>, it: Item)
    ensures Ids(s + [it]) == Ids(s) + [it.key]
  {}

  lemma IdsJoin(s: seq<Item>, t: seq<Item>)
    ensures Ids(s + t) == Ids(s) + Ids(t) && Ids([]) == [] && |Ids(s)| == |s|
    ensures forall i :: 0 <= i < |s| ==> Ids(s)[i] == s[i].key
  {}

  class Provider {
    const targets: Table
    var numTargets: nat
    /** The entries whose backend was told to finalize them, in order. */
    var finalized: seq<Item>

    ghost predicate Valid()
      reads this, targets, targets.order
      reads (set b, i | 0 <= b < |targets.chains| && 0 <= i < |targets.chains[b]| :: targets.chains[b][i])
    {
      && targets.Valid()
      && numTargets >= |targets.order|
      && Distinct(finalized) && Objects(finalized) !! Objects(targets.order)
    }

    ghost function Abs(): State
      reads this, targets
    {
      State(Ids(targets.order), numTargets, Ids(finalized))
    }

    constructor (hash: Hash)
      ensures Valid() && Abs() == After([]) && fresh(targets)
    {
      targets := new Table(hash);
      numTargets, finalized := 0, [];
    }

    /** bake_provider_attach_target. Targets are taken to have distinct ids. */
    method Attach(init: Initialized) returns (ret: int, id: Key)
      requires Valid() && (init.Opened? ==> init.id !in Ids(targets.order))
      modifies this, targets, Objects(targets.order)
      ensures Valid()
      ensures Abs() == Apply(old(Abs()), if init.Opened? then Attached(init.id) else AttachFailed)
      ensures match init
              case UnknownBackend => ret == BAKE_ERR_BACKEND_TYPE == -13
              case Failed(code) => ret == code
              case Opened(tid) => ret == BAKE_SUCCESS == 0 && id == tid
    {
      hide Table.Valid, Ids, Distinct, Lookup, HasKey;
      id := [];
      if init.UnknownBackend? { return BAKE_ERR_BACKEND_TYPE, id; }
      if init.Failed? { return init.code, id; }
      KeyInIds(targets.order, init.id);
      var entry := new Item(init.id);
      targets.Add(entry);
      assert entry !in finalized;
      var check := targets.Find(init.id);
      FoundAgain(targets, entry);
      if check != entry {
        ret := BAKE_ERR_ALLOCATION;
      } else {
        IdsAppend(old(targets.order), entry);
        numTargets := numTargets + 1;
        id := entry.key;
        ret := BAKE_SUCCESS;
      }
    }

    /** bake_provider_detach_target: the entry is finalized; the counter stays. */
    method Detach(id: Key) returns (ret: int)
      requires Valid()
      modifies this, targets, Objects(targets.order)
      ensures Valid()
      ensures ret == if id in old(Ids(targets.order)) then 0 else -6
      ensures Abs() == Apply(old(Abs()), if ret == BAKE_SUCCESS then Detached(id) else DetachUnknown(id))
    {
      hide Table.Valid, Ids, Distinct, Lookup, HasKey, Remove, Without, KeysDistinct;
      KeyInIds(targets.order, id);
      var entry := targets.Find(id);
      if entry == null {
        ret := BAKE_ERR_UNKNOWN_TARGET;
      } else {
        OrderFacts(targets);
        assert entry in Objects(targets.order);
        ghost var items := targets.order;
        ghost var p := targets.Delete(entry);
        RemoveAt(items, p);
        WithoutIndex(items, p);
        DistinctWithout(items, p);
        OneMore(finalized, entry);
        IdsAppend(finalized, entry);
        finalized := finalized + [entry];
        ret := BAKE_SUCCESS;
      }
    }

    /** bake_provider_detach_all_targets: HASH_ITER with the element deleted in the body. The next
        element is read before, and is still registered when the loop comes to it. */
    method DetachAll() returns (ret: int)
      requires Valid()
      modifies this, targets, Objects(targets.order)
      ensures Valid() && targets.order == []
      ensures Abs() == Apply(old(Abs()), DetachedAll)
      ensures finalized == old(finalized) + old(targets.order)
      ensures ret == BAKE_SUCCESS
    {
      hide Table.Valid, Ids, Distinct, Without;
      ghost var items, i := targets.order, 0;
      FirstLinks(targets);
      var p := targets.head;
      var tmp := if targets.head != null then targets.head.next else null;
      while p != null
        invariant i <= |items| && p == At(items, i) && tmp == At(items, i + 1)
        invariant targets.Valid() && targets.order == items[i..]
        invariant Distinct(finalized) && Objects(finalized) !! Objects(targets.order)
        invariant finalized == old(finalized) + items[..i]
        decreases |items| - i
      {
        OrderFacts(targets);
        assert p == targets.order[0] && p in Objects(targets.order);
        ghost var q := targets.Delete(p);
        DropFirst(items[i..], q);
        FirstLinks(targets);
        OneMore(finalized, p);
        finalized := finalized + [p];
        i := i + 1;
        p := tmp;
        tmp := if tmp != null then tmp.next else null;
      }
      assert items[..i] == items && targets.order == [];
      IdsJoin(old(finalized), items);
      numTargets := 0;
      ret := BAKE_SUCCESS;
    }

    /** bake_provider_count_targets. */
    method Count() returns (num: nat)
      requires Valid()
      ensures num == Abs().num >= |Abs().ids|
    {
      IdsJoin(targets.order, []);
      num := numTargets;
    }

    /** bake_provider_list_targets into a buffer of the size the counter gave. */
    method List(out: array<Key>)
      requires Valid() && out.Length >= numTargets
      modifies out
      ensures |Abs().ids| <= numTargets
      ensures out[..|Abs().ids|] == Abs().ids && out[|Abs().ids|..] == old(out[|Abs().ids|..])
    {
      hide Table.Valid, Ids, Distinct, Without;
      ghost var items := targets.order;
      IdsJoin(items, []);
      FirstLinks(targets);
      var p := targets.head;
      var tmp := if targets.head != null then targets.head.next else null;
      var i := 0;
      while p != null
        invariant i <= |items| && p == At(items, i) && tmp == At(items, i + 1) && Valid()
        invariant forall j :: 0 <= j < i ==> out[j] == Ids(items)[j]
        invariant forall j :: i <= j < out.Length ==> out[j] == old(out[j])
        decreases |items| - i
      {
        if tmp != null { LaterLink(targets, i + 1); }
        out[i] := p.key;
        i := i + 1;
        p := tmp;
        tmp := if tmp != null then tmp.next else null;
      }
      assert Ids(items)[..i] == Ids(items);
    }

    /** The probe handler's answer: as many slots as the counter says, the registered ids first. */
    method Probe() returns (num: nat, slots: array<Key>)
      requires Valid()
      ensures fresh(slots) && num == slots.Length == Abs().num >= |Abs().ids|
      ensures slots[..|Abs().ids|] == Abs().ids
    {
      num := Count();
      slots := new Key[num];
      List(slots);
    }
  }
}
