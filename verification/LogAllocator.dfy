/** Region allocation in the append-only log: any interleaving of the steps of concurrent creates,
    with crashes and reopens in between. Only lengths and offsets matter here. */
module LogAllocator {
  import opened Basics
  import opened Bits

  datatype Stage = Reserved | BlockWritten | Finished | Failed

  /** One call of bake_file_create, after its reservation. */
  datatype Creation = Creation(region: Region, stage: Stage)

  datatype State = State(
    logOffset: nat,          // next unused offset, in memory
    fileLen: nat,            // length of the log file as the file system sees it
    durableLen: nat,         // length guaranteed to survive a crash
    creations: seq<Creation>,// calls since the last reopen
    regions: seq<Region>)    // every region whose create has returned success, ever

  datatype Event =
    | Reserve(size: nat)                       // under log_offset_mutex
    | WriteEnd(i: nat, j: nat, ok: bool, len: nat) // pwrite of the end block, placed by the offset as it
                                               // was after reservation j; len is the file length after it
    | Sync(i: nat, ok: bool)                   // fdatasync, or nothing when sync is off
    | Persist                                  // another fdatasync on the log
    | Punch                                    // remove: fallocate with FALLOC_FL_KEEP_SIZE
    | Crash(len: nat)                          // crash, then reopen at the length found

  datatype Config = Config(a: nat, sync: bool)

  function Max(x: nat, y: nat): nat { if x < y then y else x }

  predicate Enabled(c: Config, s: State, e: Event) {
    match e
    case Reserve(_) => c.a > 0
    case WriteEnd(i, j, ok, len) =>
      i <= j < |s.creations| && s.creations[i].stage.Reserved? &&
      var offset := EndOf(s.creations[j].region);
      && s.fileLen <= len <= Max(s.fileLen, offset)
      && (ok ==> offset >= c.a && len == Max(s.fileLen, offset))
    case Sync(i, ok) => i < |s.creations| && s.creations[i].stage.BlockWritten? && (!c.sync ==> ok)
    case Persist => true
    case Punch => true
    case Crash(len) => s.durableLen <= len <= s.fileLen
  }

  function SetStage(s: State, i: nat, stage: Stage): State
    requires i < |s.creations|
  {
    s.(creations := s.creations[i := s.creations[i].(stage := stage)])
  }

  function Apply(c: Config, s: State, e: Event): State
    requires Enabled(c, s, e)
  {
    match e
    case Reserve(size) =>
      var size' := AlignUp(size, c.a);
      s.(creations := s.creations + [Creation(Region(s.logOffset, size'), Reserved)],
         logOffset := s.logOffset + size')
    case WriteEnd(i, _, ok, len) => SetStage(s, i, if ok then BlockWritten else Failed).(fileLen := len)
    case Sync(i, ok) =>
      if !ok then SetStage(s, i, Failed) else
      SetStage(s, i, Finished).(
        durableLen := if c.sync then s.fileLen else s.durableLen,
        regions := s.regions + [s.creations[i].region])
    case Persist => s.(durableLen := s.fileLen)
    case Punch => s
    case Crash(len) => State(len, len, len, [], s.regions)
  }

  /** A freshly attached log of the given length. */
  function Open(len: nat): State { State(len, len, len, [], []) }

  predicate Legal(c: Config, s: State, es: seq<Event>)
    decreases |es|
  {
    es == [] || (Enabled(c, s, es[0]) && Legal(c, Apply(c, s, es[0]), es[1..]))
  }

  function Run(c: Config, s: State, es: seq<Event>): State
    requires Legal(c, s, es)
    decreases |es|
  {
    if es == [] then s else Run(c, Apply(c, s, es[0]), es[1..])
  }

  // ---------- invariant ----------

  predicate Live(k: Creation) { k.stage.Reserved? || k.stage.BlockWritten? }

  ghost predicate Lengths(s: State) {
    && SUPERBLOCK <= s.durableLen <= s.fileLen <= s.logOffset
    && (forall k :: 0 <= k < |s.regions| ==> SUPERBLOCK <= s.regions[k].off && EndOf(s.regions[k]) <= s.durableLen)
    && (forall i :: 0 <= i < |s.creations| ==>
          var k := s.creations[i];
          && SUPERBLOCK <= k.region.off && EndOf(k.region) <= s.logOffset
          && (k.stage.BlockWritten? ==> EndOf(k.region) <= s.fileLen))
    && Ordered(s.creations)
  }

  /** Reservations follow one another in the log. */
  ghost predicate Ordered(ks: seq<Creation>) {
    forall i, j :: 0 <= i < j < |ks| ==> EndOf(ks[i].region) <= ks[j].region.off
  }

  lemma OrderedStep(c: Config, s: State, e: Event)
    requires Ordered(s.creations) && Enabled(c, s, e)
    requires forall i :: 0 <= i < |s.creations| ==> EndOf(s.creations[i].region) <= s.logOffset
    ensures Ordered(Apply(c, s, e).creations)
  {}

  lemma LaterEnd(ks: seq<Creation>, i: nat, j: nat)
    requires Ordered(ks) && i <= j < |ks|
    ensures EndOf(ks[i].region) <= EndOf(ks[j].region)
  {}

  ghost predicate Disjoint(s: State) {
    && (forall j, k :: 0 <= j < k < |s.regions| ==> Apart(s.regions[j], s.regions[k]))
    && (forall i, j :: 0 <= i < j < |s.creations| && Live(s.creations[i]) && Live(s.creations[j]) ==>
          Apart(s.creations[i].region, s.creations[j].region))
    && (forall i, k :: 0 <= i < |s.creations| && Live(s.creations[i]) && 0 <= k < |s.regions| ==>
          Apart(s.creations[i].region, s.regions[k]))
  }

  lemma LengthsStep(c: Config, s: State, e: Event)
    requires c.sync && Lengths(s) && Enabled(c, s, e)
    ensures Lengths(Apply(c, s, e))
  {
    hide Ordered;
    OrderedStep(c, s, e);
    if e.Reserve? { AlignFacts(e.size, c.a); }
    if e.WriteEnd? { LaterEnd(s.creations, e.i, e.j); }
  }

  lemma DisjointStep(c: Config, s: State, e: Event)
    requires Lengths(s) && Disjoint(s) && Enabled(c, s, e)
    ensures Disjoint(Apply(c, s, e))
  {
    if e.Reserve? { DisjointReserve(c, s, e.size); } else if e.Sync? { DisjointSync(c, s, e.i, e.ok); }
    else { DisjointRest(c, s, e); }
  }

  lemma DisjointReserve(c: Config, s: State, size: nat)
    requires Lengths(s) && Disjoint(s) && Enabled(c, s, Reserve(size))
    ensures Disjoint(Apply(c, s, Reserve(size)))
  {
    hide Ordered;
  }

  lemma DisjointSync(c: Config, s: State, i: nat, ok: bool)
    requires Disjoint(s) && Enabled(c, s, Sync(i, ok))
    ensures Disjoint(Apply(c, s, Sync(i, ok)))
  {
    var t := Apply(c, s, Sync(i, ok));
    if ok {
      assert forall k :: 0 <= k < |s.regions| ==> t.regions[k] == s.regions[k];
      assert forall j :: 0 <= j < |s.creations| && j != i ==> t.creations[j] == s.creations[j];
    }
  }

  lemma DisjointRest(c: Config, s: State, e: Event)
    requires Disjoint(s) && Enabled(c, s, e) && !e.Reserve? && !e.Sync?
    ensures Disjoint(Apply(c, s, e))
  {}

  /** What concurrent creates and crashes may never break. */
  ghost predicate Safe(s: State) {
    && (forall j, k :: 0 <= j < k < |s.regions| ==> Apart(s.regions[j], s.regions[k]))
    && (forall k :: 0 <= k < |s.regions| ==> SUPERBLOCK <= s.regions[k].off && EndOf(s.regions[k]) <= s.durableLen)
  }

  lemma {:induction false} RunKeeps(c: Config, s: State, es: seq<Event>)
    requires c.sync && Lengths(s) && Disjoint(s) && Legal(c, s, es)
    ensures Lengths(Run(c, s, es)) && Disjoint(Run(c, s, es))
    decreases |es|
  {
    if es != [] {
      LengthsStep(c, s, es[0]);
      DisjointStep(c, s, es[0]);
      RunKeeps(c, Apply(c, s, es[0]), es[1..]);
    }
  }

  /** With sync on: after any interleaving of creates, crashes and reopens, all regions ever
      handed out are disjoint, lie past the superblock, and end within the durable file. */
  lemma RegionsNeverOverlap(c: Config, len: nat, es: seq<Event>)
    requires c.sync && len >= SUPERBLOCK && Legal(c, Open(len), es)
    ensures Safe(Run(c, Open(len), es))
  {
    RunKeeps(c, Open(len), es);
  }

  /** Alignment of every extent, when every length the log is opened at is aligned. */
  ghost predicate Aligned(c: Config, s: State)
    requires c.a > 0
  {
    && s.logOffset % c.a == 0
    && (forall i :: 0 <= i < |s.creations| ==>
          s.creations[i].region.off % c.a == 0 && s.creations[i].region.size % c.a == 0)
    && (forall k :: 0 <= k < |s.regions| ==> s.regions[k].off % c.a == 0 && s.regions[k].size % c.a == 0)
  }

  lemma AlignedStep(c: Config, s: State, e: Event)
    requires c.a > 0 && Aligned(c, s) && Enabled(c, s, e) && (e.Crash? ==> e.len % c.a == 0)
    ensures Aligned(c, Apply(c, s, e))
  {
    if e.Reserve? {
      AlignFacts(e.size, c.a);
      SumOfMultiples(s.logOffset, AlignUp(e.size, c.a), c.a);
    }
  }

  lemma {:induction false} RegionsAligned(c: Config, s: State, es: seq<Event>)
    requires c.a > 0 && Aligned(c, s) && Legal(c, s, es)
    requires forall e: Event :: e in es && e.Crash? ==> e.len % c.a == 0
    ensures Aligned(c, Run(c, s, es))
    decreases |es|
  {
    if es != [] {
      AlignedStep(c, s, es[0]);
      RegionsAligned(c, Apply(c, s, es[0]), es[1..]);
    }
  }

  /** Over any run, hole punching, crashes and reopens included and whether sync is on or not, the
      length that is sure to survive a crash never decreases. */
  lemma {:induction false} DurableNeverShrinks(c: Config, s: State, es: seq<Event>)
    requires s.durableLen <= s.fileLen && Legal(c, s, es)
    ensures s.durableLen <= Run(c, s, es).durableLen <= Run(c, s, es).fileLen
    decreases |es|
  {
    if es != [] { DurableNeverShrinks(c, Apply(c, s, es[0]), es[1..]); }
  }

  /** A create that nobody disturbs, from any state: it hands out the asked-for space, rounded up to
      blocks, at the next unused offset, and with sync on that space is within the durable file. */
  lemma CreateAlone(c: Config, s: State, size: nat) returns (es: seq<Event>, t: State)
    requires c.a > 0 && size > 0 && s.fileLen <= s.logOffset
    ensures Legal(c, s, es) && t == Run(c, s, es)
    ensures var r := Region(s.logOffset, AlignUp(size, c.a));
            && t.regions == s.regions + [r] && size <= r.size < size + c.a
            && t.logOffset == t.fileLen == EndOf(r) && t.durableLen == if c.sync then EndOf(r) else s.durableLen
  {
    AlignFacts(size, c.a);
    MultiplesApart(0, AlignUp(size, c.a), c.a);
    var n, end := |s.creations|, s.logOffset + AlignUp(size, c.a);
    var s1 := Apply(c, s, Reserve(size));
    var s2 := Apply(c, s1, WriteEnd(n, n, true, end));
    t := Apply(c, s2, Sync(n, true));
    es := Three(c, s, Reserve(size), s1, WriteEnd(n, n, true, end), s2, Sync(n, true), t);
  }

  // ---------- why sync matters ----------

  ghost predicate Overlap(s: State) {
    exists j, k :: 0 <= j < k < |s.regions| && s.regions[j].size > 0 && s.regions[j] == s.regions[k]
  }

  /** With sync off the guarantee is lost, whatever the alignment and the length of the log: a
      region promised before a crash is handed out again after it. */
  lemma UnsyncedRegionsCanOverlap(c: Config, len: nat) returns (es: seq<Event>)
    requires !c.sync && c.a > 0
    ensures Legal(c, Open(len), es) && Overlap(Run(c, Open(len), es))
  {
    var s := Open(len);
    var once, t := CreateAlone(c, s, c.a);
    var u := Apply(c, t, Crash(len));
    One(c, t, Crash(len), u);
    Append(c, s, once, [Crash(len)]);
    var again, v := CreateAlone(c, u, c.a);
    Append(c, s, once + [Crash(len)], again);
    es := once + [Crash(len)] + again;
    assert v.regions[0] == v.regions[1];
  }

  lemma Three(c: Config, s: State, e0: Event, s1: State, e1: Event, s2: State, e2: Event, t: State)
    returns (es: seq<Event>)
    requires Enabled(c, s, e0) && s1 == Apply(c, s, e0)
    requires Enabled(c, s1, e1) && s2 == Apply(c, s1, e1)
    requires Enabled(c, s2, e2) && t == Apply(c, s2, e2)
    ensures Legal(c, s, es) && Run(c, s, es) == t
  {
    One(c, s, e0, s1);
    One(c, s1, e1, s2);
    One(c, s2, e2, t);
    Append(c, s, [e0], [e1]);
    Append(c, s, [e0] + [e1], [e2]);
    es := [e0] + [e1] + [e2];
  }

  lemma One(c: Config, s: State, e: Event, t: State)
    requires Enabled(c, s, e) && t == Apply(c, s, e)
    ensures Legal(c, s, [e]) && Run(c, s, [e]) == t
  {
    assert [e][1..] == [];
  }

  lemma {:induction false} Append(c: Config, s: State, es: seq<Event>, fs: seq<Event>)
    requires Legal(c, s, es) && Legal(c, Run(c, s, es), fs)
    ensures Legal(c, s, es + fs) && Run(c, s, es + fs) == Run(c, Run(c, s, es), fs)
    decreases |es|
  {
    if es == [] {
      assert es + fs == fs;
    } else {
      assert (es + fs)[1..] == es[1..] + fs;
      Append(c, Apply(c, s, es[0]), es[1..], fs);
    }
  }
}
