/** What transfer_data promises its caller, over every schedule of its workers. */
module TransferTheorems {
  import opened Basics
  import opened Bits
  import opened Transfer
  import opened TransferInvariant
  import opened TransferData

  const INT32_LIMIT: nat := 0x8000_0000

  // ---------- setup ----------

  /** The bounds check and the extent arithmetic at the head of transfer_data; None is
      BAKE_ERR_OUT_OF_BOUNDS. */
  function Setup(op: Op, a: nat, poolMax: nat, entryOffset: nat, entrySize: nat,
                 regionOffset: nat, remoteOffset: nat, bulkSize: nat): Option<Config>
    requires a > 0 && remoteOffset <= bulkSize
  {
    if bulkSize + regionOffset > entrySize then None else
    var logEnd := AlignUp(entryOffset + regionOffset + bulkSize - remoteOffset, a);
    var logStart := AlignDown(entryOffset + regionOffset, a);
    if logEnd < logStart then None else
    Some(Config(op, logStart, logEnd - logStart, entryOffset + regionOffset - logStart,
                bulkSize - remoteOffset, remoteOffset, poolMax))
  }

  /** The extent is well formed for the workers, starts and ends on block boundaries, stays
      inside the region, and is empty exactly for an aligned access of no bytes. */
  lemma SetupFits(op: Op, a: nat, poolMax: nat, entryOffset: nat, entrySize: nat,
                  regionOffset: nat, remoteOffset: nat, bulkSize: nat)
    requires 0 < a <= poolMax && remoteOffset <= bulkSize
    ensures var r := Setup(op, a, poolMax, entryOffset, entrySize, regionOffset, remoteOffset, bulkSize);
            && (r.None? <==> bulkSize + regionOffset > entrySize)
            && (r.Some? ==>
                  var c := r.value;
                  && WellFormed(c)
                  && c.op == op && c.poolMax == poolMax
                  && c.remoteStart == remoteOffset && c.transmit == bulkSize - remoteOffset
                  && c.logStart % a == 0 && c.logLen % a == 0
                  && c.logStart + c.skip == entryOffset + regionOffset
                  && (c.logLen == 0 <==> bulkSize == remoteOffset && (entryOffset + regionOffset) % a == 0)
                  && (entryOffset % a == 0 && entrySize % a == 0 ==>
                        entryOffset <= c.logStart && c.logStart + c.logLen <= entryOffset + entrySize)
                  && (entryOffset % a == 0 && regionOffset == 0 ==> c.skip == 0 && c.logStart == entryOffset))
  {
    var start := entryOffset + regionOffset;
    var end := start + (bulkSize - remoteOffset);
    AlignFacts(start, a);
    AlignFacts(end, a);
    SumOfMultiples(AlignDown(start, a), AlignUp(end, a), a);
    ExtentLength(start, end, a);
    if entryOffset % a == 0 && entrySize % a == 0 && bulkSize + regionOffset <= entrySize {
      SumOfMultiples(entryOffset, entrySize, a);
      AlignOptimal(start, entryOffset, a);
      AlignOptimal(end, entryOffset + entrySize, a);
    }
  }

  lemma ExtentLength(start: nat, end: nat, a: nat)
    requires a > 0 && start <= end
    ensures AlignDown(start, a) <= AlignUp(end, a)
    ensures AlignUp(end, a) == AlignDown(start, a) <==> start == end && start % a == 0
    ensures start == end ==> AlignUp(end, a) <= AlignDown(start, a) + a
    ensures start % a != 0 ==> start < AlignUp(end, a)
  {
    AlignFacts(start, a);
    AlignFacts(end, a);
    AlignOptimal(start, start - start % a, a);
    if start == end {
      SumOfMultiples(AlignDown(start, a), a, a);
      AlignOptimal(end, AlignDown(start, a) + a, a);
      if start % a == 0 { AlignOptimal(end, start, a); }
    }
  }

  /** Number of workers for an extent: ceil(logLen / poolMax). */
  function Ults(logLen: nat, poolMax: nat): nat
    requires poolMax > 0
  {
    if logLen == 0 then 0 else 1 + (logLen - 1) / poolMax
  }

  /** The counting loop. Its counter is a 32-bit int, so the extent plus one chunk must fit. */
  method CountUlts(logLen: nat, poolMax: nat) returns (active: nat)
    requires 0 < poolMax && logLen + poolMax < INT32_LIMIT
    ensures active == Ults(logLen, poolMax)
    ensures active <= logLen
    ensures active > 0 ==> (active - 1) * poolMax < logLen <= active * poolMax
  {
    var i := 0;
    active := 0;
    while i < logLen
      invariant i == active * poolMax && active <= i
      invariant active > 0 ==> (active - 1) * poolMax < logLen
      invariant i < logLen + poolMax
    {
      active := active + 1;
      i := i + poolMax;
      assert i < INT32_LIMIT;
    }
    if logLen > 0 {
      DivModUnique(logLen - 1, poolMax, active - 1, logLen - 1 - (active - 1) * poolMax);
    }
    if active > 0 && active > logLen { ProductBound(active - 1, poolMax); MoreThan(active - 1, poolMax); }
  }

  lemma MoreThan(n: nat, m: nat)
    requires m > 0
    ensures n <= n * m
  {}

  /** transfer_data's state when it starts spawning: ults_active is already final. */
  ghost function Init(c: Config, log: seq<byte>, remote: seq<byte>): State
    requires c.poolMax > 0
  {
    var n := Ults(c.logLen, c.poolMax);
    State(0, 0, 0, 0, n, seq(n, _ => Unspawned), 0, 0, 0, None, [], [], log, remote)
  }

  /** Once the caller is back, what it returned is what ret holds. */
  ghost predicate Reported(s: State) { s.result.Some? ==> s.result.value == s.ret }

  ghost predicate Inv(c: Config, s: State) { Core(c, s) && Data(c, s) && Reported(s) }

  lemma {:induction false} TotalConstant(ws: seq<Worker>)
    requires forall i :: 0 <= i < |ws| ==> ws[i].Unspawned?
    ensures Total(ws, Undecremented) == |ws|
  {
    if ws != [] { TotalConstant(ws[..|ws| - 1]); }
  }

  lemma InitHolds(c: Config, log: seq<byte>, remote: seq<byte>)
    requires WellFormed(c) && c.logStart + c.logLen <= |log|
    ensures Inv(c, Init(c, log, remote))
  {
    var s := Init(c, log, remote);
    TotalConstant(s.workers);
    TotalZero(s.workers, AtLastOut);
    TotalZero(s.workers, AtSignalling);
  }

  lemma NobodyLeft(s: State)
    requires Lifecycle(s) && s.ultsActive == 0
    ensures forall i :: 0 <= i < |s.workers| ==> Decremented(s.workers[i])
    ensures s.signals > 0 ==> forall i :: 0 <= i < |s.workers| ==> s.workers[i].Gone?
  {
    forall i | 0 <= i < |s.workers|
      ensures Decremented(s.workers[i])
      ensures s.signals > 0 ==> s.workers[i].Gone?
    {
      TotalAtLeast(s.workers, i, Undecremented);
      TotalAtLeast(s.workers, i, AtLastOut);
      TotalAtLeast(s.workers, i, AtSignalling);
    }
  }

  lemma ReportedStep(c: Config, s: State, e: Event)
    requires Lifecycle(s) && Reported(s) && Enabled(c, s, e)
    ensures Reported(Apply(c, s, e))
  {
    if s.result.Some? && |s.workers| > 0 { NobodyLeft(s); }
  }

  lemma InvStep(c: Config, s: State, e: Event)
    requires WellFormed(c) && Inv(c, s) && Enabled(c, s, e)
    ensures Inv(c, Apply(c, s, e))
  {
    CoreStep(c, s, e);
    DataStep(c, s, e);
    ReportedStep(c, s, e);
  }

  lemma {:induction false} RunHolds(c: Config, s: State, es: seq<Event>)
    requires WellFormed(c) && Inv(c, s) && Legal(c, s, es)
    ensures Inv(c, Run(c, s, es))
    decreases |es|
  {
    if es != [] {
      InvStep(c, s, es[0]);
      RunHolds(c, Apply(c, s, es[0]), es[1..]);
    }
  }

  // ---------- teardown ----------

  /** No locking after the mutex is freed, one free, one signal, and no worker left once the
      caller is back. */
  ghost predicate TeardownSafe(c: Config, s: State) {
    && s.mutexFrees <= 1 && s.signals <= s.mutexFrees
    && (forall w: nat :: Enabled(c, s, Enter(w)) || Enabled(c, s, Leave(w)) ==>
          s.mutexFrees == 0 && s.signals == 0 && s.result.None?)
    && (forall w: nat :: Enabled(c, s, FreeMutex(w)) ==> s.mutexFrees == 0 && s.ultsActive == 0)
    && (forall w: nat :: Enabled(c, s, Signal(w)) ==> s.signals == 0 && s.mutexFrees == 1)
    && (s.signals > 0 ==> s.ultsActive == 0 && forall i :: 0 <= i < |s.workers| ==> s.workers[i].Gone?)
    && (s.result.Some? ==> s.signals == 1)
  }

  lemma StillNeeded(s: State, w: nat)
    requires Lifecycle(s) && w < |s.workers| && !Decremented(s.workers[w])
    ensures s.ultsActive > 0
  {
    TotalAtLeast(s.workers, w, Undecremented);
  }

  lemma TeardownHolds(c: Config, s: State)
    requires Lifecycle(s)
    ensures TeardownSafe(c, s)
  {
    if s.ultsActive == 0 { NobodyLeft(s); }
    forall w: nat | Enabled(c, s, Enter(w)) || Enabled(c, s, Leave(w))
      ensures s.ultsActive > 0
    {
      StillNeeded(s, w);
    }
    forall w: nat | Enabled(c, s, FreeMutex(w)) || Enabled(c, s, Signal(w))
      ensures Total(s.workers, AtLastOut) >= AtLastOut(s.workers[w])
      ensures Total(s.workers, AtSignalling) >= AtSignalling(s.workers[w])
    {
      TotalAtLeast(s.workers, w, AtLastOut);
      TotalAtLeast(s.workers, w, AtSignalling);
    }
  }

  /** In every state of every schedule the teardown is safe. */
  lemma TeardownInEverySchedule(c: Config, log: seq<byte>, remote: seq<byte>, es: seq<Event>)
    requires WellFormed(c) && c.logStart + c.logLen <= |log|
    requires Legal(c, Init(c, log, remote), es)
    ensures TeardownSafe(c, Run(c, Init(c, log, remote), es))
  {
    InitHolds(c, log, remote);
    RunHolds(c, Init(c, log, remote), es);
    TeardownHolds(c, Run(c, Init(c, log, remote), es));
  }

  // ---------- termination ----------

  function Rank(w: Worker): nat {
    match w
    case Unspawned => 5
    case Ready => 4
    case First(_) => 8
    case Tested1(_, _, _, _) => 7
    case Second(_, _) => 6
    case Tested2(_, _, _) => 5
    case Storing(_, _) => 4
    case Done(_) => 4
    case Leaving => 3
    case LastOut => 2
    case Signalling => 1
    case Gone => 0
  }

  /** Unissued bytes, worker steps still to take, and the caller's own return. */
  ghost function Measure(c: Config, s: State): nat
    requires s.logIssued <= c.logLen
  {
    5 * (c.logLen - s.logIssued) + Total(s.workers, Rank) + if s.result.None? then 1 else 0
  }

  lemma RankOne(c: Config, s: State, t: State, w: nat, x: Worker)
    requires w < |s.workers| && t.workers == s.workers[w := x] && Rank(x) < Rank(s.workers[w])
    requires t.logIssued == s.logIssued <= c.logLen && t.result == s.result
    ensures Measure(c, t) < Measure(c, s)
  {
    TotalUpdate(s.workers, w, x, Rank);
  }

  lemma TopMeasure(c: Config, s: State, w: nat)
    requires s.logIssued <= c.logLen && w < |s.workers|
    requires s.workers[w].Ready? || (IsHeld(s, w) && s.workers[w].Done?)
    ensures AtTop(s, w).logIssued == s.logIssued && Measure(c, AtTop(s, w)) == Measure(c, s)
  {
    if s.workers[w].Done? { TotalUpdate(s.workers, w, Ready, Rank); }
  }

  lemma ClaimShrinks(c: Config, s: State, w: nat)
    requires WellFormed(c) && Tiling(c, s) && w < |s.workers| && s.workers[w].Ready?
    ensures ClaimOrLeave(c, s, w).logIssued <= c.logLen
    ensures Measure(c, ClaimOrLeave(c, s, w)) < Measure(c, s)
  {
    if CanClaim(c, s) {
      var ch := ClaimShape(c, s, w);
      TotalUpdate(s.workers, w, First(|s.chunks|), Rank);
    } else {
      QuitShape(c, s, w);
      RankOne(c, s, ClaimOrLeave(c, s, w), w, Leaving);
    }
  }

  lemma EnterShrinks(c: Config, s: State, w: nat)
    requires WellFormed(c) && Tiling(c, s) && Enabled(c, s, Enter(w))
    ensures Apply(c, s, Enter(w)).logIssued <= c.logLen
    ensures Measure(c, Apply(c, s, Enter(w))) < Measure(c, s)
  {
    EnterFromTop(c, s, w);
    ReadyAtTop(s, w);
    TopMeasure(c, s, w);
    assert Tiling(c, AtTop(s, w)) by { TilingTop(c, s, w); }
    ClaimShrinks(c, AtTop(s, w), w);
  }

  lemma NextRank(c: Config, s: State, e: Event) returns (w: nat, x: Worker)
    requires Enabled(c, s, e) && !e.Env? && !e.Return? && !e.Enter?
    requires e.Spawn? ==> s.workers[s.spawned].Unspawned?
    ensures w < |s.workers| && Apply(c, s, e).workers == s.workers[w := x] && Rank(x) < Rank(s.workers[w])
    ensures Apply(c, s, e).logIssued == s.logIssued && Apply(c, s, e).result == s.result
  {
    w := if e.Spawn? then s.spawned else e.w;
    x := Apply(c, s, e).workers[w];
  }

  lemma StepShrinks(c: Config, s: State, e: Event)
    requires WellFormed(c) && Tiling(c, s) && Enabled(c, s, e) && !e.Env?
    requires e.Spawn? ==> s.workers[s.spawned].Unspawned?
    ensures Apply(c, s, e).logIssued <= c.logLen
    ensures Measure(c, Apply(c, s, e)) < Measure(c, s)
  {
    if e.Enter? {
      EnterShrinks(c, s, e.w);
    } else if !e.Return? {
      var w, x := NextRank(c, s, e);
      RankOne(c, s, Apply(c, s, e), w, x);
    }
  }

  function OwnSteps(es: seq<Event>): nat {
    if es == [] then 0 else (if es[0].Env? then 0 else 1) + OwnSteps(es[1..])
  }

  lemma {:induction false} RunBounded(c: Config, s: State, es: seq<Event>)
    requires WellFormed(c) && Inv(c, s) && Legal(c, s, es)
    ensures Run(c, s, es).logIssued <= c.logLen
    ensures OwnSteps(es) + Measure(c, Run(c, s, es)) <= Measure(c, s)
    decreases |es|
  {
    if es != [] {
      InvStep(c, s, es[0]);
      if !es[0].Env? { StepShrinks(c, s, es[0]); }
      RunBounded(c, Apply(c, s, es[0]), es[1..]);
    }
  }

  /** A holder always has a next step, whatever the I/O answers. */
  lemma HolderCanStep(c: Config, s: State, w: nat) returns (e: Event)
    requires Ownership(s) && w < |s.workers| && Holds(s.workers[w])
    ensures Enabled(c, s, e) && !e.Env?
  {
    var ch := s.chunks[s.workers[w].k];
    match s.workers[w]
    case First(_) => e := Io1(w, if c.op.WRITE? then 1 else -1, seq(ch.size, _ => 0));
    case Tested1(_, _, _, _) => e := Test1(w);
    case Second(_, _) =>
      e := if c.op.WRITE? then Io2(w, -1, seq(ch.size, _ => 0)) else Io2(w, 1, seq(ch.txSize, _ => 0));
    case Tested2(_, _, _) => e := Test2(w);
    case Storing(_, _) => e := Store(w);
    case Done(_) => e := Enter(w);
  }

  lemma SomeoneCanStep(c: Config, s: State) returns (e: Event)
    requires WellFormed(c) && Core(c, s) && s.result.None? && |s.workers| > 0
    ensures Enabled(c, s, e) && !e.Env?
  {
    if s.spawned < |s.workers| {
      e := Spawn;
    } else if w :| 0 <= w < |s.workers| && !s.workers[w].Gone? {
      if Holds(s.workers[w]) { e := HolderCanStep(c, s, w); }
      else if s.workers[w].Ready? { e := Enter(w); }
      else if s.workers[w].Leaving? { e := Leave(w); }
      else if s.workers[w].LastOut? { e := FreeMutex(w); }
      else { e := Signal(w); }
    } else {
      TotalZero(s.workers, Undecremented);
      TotalZero(s.workers, AtLastOut);
      TotalZero(s.workers, AtSignalling);
      e := Return;
    }
  }

  ghost predicate Stuck(c: Config, s: State) {
    forall e :: Enabled(c, s, e) ==> e.Env?
  }

  lemma {:induction false} SameCrew(c: Config, s: State, es: seq<Event>)
    requires Legal(c, s, es)
    ensures |Run(c, s, es).workers| == |s.workers|
    decreases |es|
  {
    if es != [] {
      CrewStays(c, s, es[0]);
      SameCrew(c, Apply(c, s, es[0]), es[1..]);
    }
  }

  lemma {:induction false} InitMeasure(ws: seq<Worker>)
    requires forall i :: 0 <= i < |ws| ==> ws[i].Unspawned?
    ensures Total(ws, Rank) == 5 * |ws|
  {
    if ws != [] { InitMeasure(ws[..|ws| - 1]); }
  }

  lemma ReturnedIsStuck(c: Config, s: State)
    requires Lifecycle(s) && s.result.Some?
    ensures Stuck(c, s)
  {
    if |s.workers| > 0 { NobodyLeft(s); }
  }

  lemma Bounded(c: Config, log: seq<byte>, remote: seq<byte>, es: seq<Event>)
    requires WellFormed(c) && c.logStart + c.logLen <= |log|
    requires Legal(c, Init(c, log, remote), es)
    ensures OwnSteps(es) <= 5 * (c.logLen + Ults(c.logLen, c.poolMax)) + 1
  {
    var s0 := Init(c, log, remote);
    InitHolds(c, log, remote);
    RunBounded(c, s0, es);
    InitMeasure(s0.workers);
  }

  lemma Reached(c: Config, log: seq<byte>, remote: seq<byte>, es: seq<Event>) returns (s: State)
    requires WellFormed(c) && c.logStart + c.logLen <= |log|
    requires Legal(c, Init(c, log, remote), es)
    ensures s == Run(c, Init(c, log, remote), es) && Inv(c, s) && |s.workers| == Ults(c.logLen, c.poolMax)
  {
    s := Run(c, Init(c, log, remote), es);
    InitHolds(c, log, remote);
    RunHolds(c, Init(c, log, remote), es);
    SameCrew(c, Init(c, log, remote), es);
  }

  lemma OnlyReturnStops(c: Config, s: State)
    requires WellFormed(c) && Core(c, s)
    ensures |s.workers| > 0 ==> (Stuck(c, s) <==> s.result.Some?)
    ensures |s.workers| == 0 ==> s.result.None? && s.signals == 0
  {
    if s.result.Some? {
      ReturnedIsStuck(c, s);
    } else if |s.workers| > 0 {
      var e := SomeoneCanStep(c, s);
    }
  }

  /** Every schedule of a non-empty extent takes boundedly many steps of its own, and the only
      way it can stop is that the caller has returned. A schedule of an empty extent has no worker
      to signal the caller, which waits for ever. */
  lemma EveryScheduleReturns(c: Config, log: seq<byte>, remote: seq<byte>, es: seq<Event>)
    requires WellFormed(c) && c.logStart + c.logLen <= |log|
    requires Legal(c, Init(c, log, remote), es)
    ensures OwnSteps(es) <= 5 * (c.logLen + Ults(c.logLen, c.poolMax)) + 1
    ensures var s := Run(c, Init(c, log, remote), es);
            && (c.logLen > 0 ==> (Stuck(c, s) <==> s.result.Some?))
            && (c.logLen == 0 ==> s.result.None? && s.signals == 0)
  {
    Bounded(c, log, remote, es);
    var s := Reached(c, log, remote, es);
    OnlyReturnStops(c, s);
  }

  lemma RunCons(c: Config, s: State, e: Event, rest: seq<Event>)
    requires Enabled(c, s, e) && Legal(c, Apply(c, s, e), rest)
    ensures Legal(c, s, [e] + rest) && Run(c, s, [e] + rest) == Run(c, Apply(c, s, e), rest)
  {
    assert ([e] + rest)[1..] == rest;
  }

  lemma CrewStays(c: Config, s: State, e: Event)
    requires Enabled(c, s, e)
    ensures |Apply(c, s, e).workers| == |s.workers|
  {}

  lemma NextTowardsReturn(c: Config, s: State) returns (e: Event)
    requires WellFormed(c) && Inv(c, s) && |s.workers| > 0 && s.result.None?
    ensures Enabled(c, s, e) && Inv(c, Apply(c, s, e)) && |Apply(c, s, e).workers| > 0
    ensures Measure(c, Apply(c, s, e)) < Measure(c, s)
  {
    e := SomeoneCanStep(c, s);
    InvStep(c, s, e);
    CrewStays(c, s, e);
    StepShrinks(c, s, e);
  }

  /** From every reachable state the transfer can be driven to its return. */
  lemma {:induction false} CanFinish(c: Config, s: State) returns (es: seq<Event>)
    requires WellFormed(c) && Inv(c, s) && |s.workers| > 0
    ensures Legal(c, s, es) && Run(c, s, es).result.Some?
    decreases Measure(c, s)
  {
    if s.result.Some? {
      es := [];
    } else {
      var e := NextTowardsReturn(c, s);
      var rest := CanFinish(c, Apply(c, s, e));
      RunCons(c, s, e, rest);
      es := [e] + rest;
    }
  }

  // ---------- return code ----------

  ghost predicate AllDelivered(c: Config, s: State) {
    s.logIssued == c.logLen && forall k :: 0 <= k < |s.chunks| ==> s.chunks[k].status.Retired? && s.chunks[k].ok
  }

  lemma {:induction false} AllRetired(chunks: seq<Chunk>)
    requires forall k :: 0 <= k < |chunks| ==> chunks[k].status.Retired?
    ensures Bytes(chunks, InFlight) == 0 && Bytes(chunks, Abandoned) == 0
  {
    if chunks != [] { AllRetired(chunks[..|chunks| - 1]); }
  }

  lemma NothingInFlight(s: State)
    requires Ownership(s) && forall i :: 0 <= i < |s.workers| ==> !Holds(s.workers[i])
    ensures forall k :: 0 <= k < |s.chunks| ==> !s.chunks[k].status.InFlight?
  {}

  lemma EverybodyLeft(c: Config, s: State)
    requires Core(c, s) && s.result.Some? && |s.workers| > 0
    ensures s.logIssued == c.logLen || s.recorded != []
    ensures forall k :: 0 <= k < |s.chunks| ==> !s.chunks[k].status.InFlight?
  {
    NobodyLeft(s);
    assert s.workers[0].Gone? && Departed(s.workers[0]);
    NothingInFlight(s);
  }

  lemma CleanReturn(c: Config, s: State)
    requires Core(c, s) && s.result.Some? && |s.workers| > 0
    ensures AllDelivered(c, s) <==> s.recorded == []
    ensures AllDelivered(c, s) ==> s.logRetired == c.logLen
  {
    EverybodyLeft(c, s);
    DeliveredIffClean(c, s);
  }

  lemma DeliveredIffClean(c: Config, s: State)
    requires Errors(c, s) && (s.logIssued == c.logLen || s.recorded != [])
    requires forall k :: 0 <= k < |s.chunks| ==> !s.chunks[k].status.InFlight?
    ensures AllDelivered(c, s) <==> s.recorded == []
    ensures AllDelivered(c, s) ==> s.logRetired == c.logLen
  {
    if AllDelivered(c, s) { AllRetired(s.chunks); }
  }

  /** The return value is the last value stored to ret, 0 if there was none; and nothing was
      stored exactly when every chunk was issued, both its I/Os succeeded and it was retired. */
  lemma ReturnCode(c: Config, log: seq<byte>, remote: seq<byte>, es: seq<Event>)
    requires WellFormed(c) && c.logStart + c.logLen <= |log| && Legal(c, Init(c, log, remote), es)
    requires Run(c, Init(c, log, remote), es).result.Some?
    ensures var s := Run(c, Init(c, log, remote), es);
            && (s.recorded == [] <==> AllDelivered(c, s))
            && (s.recorded == [] ==> s.logRetired == c.logLen)
            && s.result == Some(if s.recorded == [] then 0 else s.recorded[|s.recorded| - 1])
  {
    var s := Reached(c, log, remote, es);
    OnlyReturnStops(c, s);
    CleanReturn(c, s);
  }

  /** A log read or write that transfers nothing reports zero bytes; this says none did. */
  predicate Telling(c: Config, e: Event) {
    (c.op.READ? && e.Io1? ==> e.rc != 0) && (c.op.WRITE? && e.Io2? ==> e.rc != 0)
  }

  ghost predicate Told(s: State) {
    && (forall i :: 0 <= i < |s.recorded| ==> s.recorded[i] != 0)
    && (forall i :: 0 <= i < |s.workers| && Pending(s.workers[i]) ==> s.workers[i].rc != 0)
    && (s.ret == 0 <==> s.recorded == [])
  }

  lemma ToldWorking(c: Config, s: State, e: Event)
    requires Told(s) && Enabled(c, s, e) && Working(e) && Telling(c, e)
    ensures Told(Apply(c, s, e)) && (s.ret != 0 ==> Apply(c, s, e).ret != 0)
  {
    var t := Apply(c, s, e);
    forall i | 0 <= i < |t.workers| && Pending(t.workers[i])
      ensures t.workers[i].rc != 0
    {
      if i != e.w { assert t.workers[i] == s.workers[i]; }
    }
  }

  lemma ToldStep(c: Config, s: State, e: Event)
    requires Told(s) && Enabled(c, s, e) && Telling(c, e)
    ensures Told(Apply(c, s, e)) && (s.ret != 0 ==> Apply(c, s, e).ret != 0)
  {
    if Working(e) { ToldWorking(c, s, e); }
  }

  lemma {:induction false} ToldRun(c: Config, s: State, es: seq<Event>)
    requires Told(s) && Legal(c, s, es) && forall e :: e in es ==> Telling(c, e)
    ensures Told(Run(c, s, es)) && (s.ret != 0 ==> Run(c, s, es).ret != 0)
    decreases |es|
  {
    if es != [] {
      ToldStep(c, s, es[0]);
      ToldRun(c, Apply(c, s, es[0]), es[1..]);
    }
  }

  /** When no log I/O reports zero bytes, an error code never goes away and the transfer returns 0
      exactly when every byte was delivered. */
  lemma ZeroMeansDelivered(c: Config, log: seq<byte>, remote: seq<byte>, es: seq<Event>)
    requires WellFormed(c) && c.logStart + c.logLen <= |log| && Legal(c, Init(c, log, remote), es)
    requires Run(c, Init(c, log, remote), es).result.Some?
    requires forall e :: e in es ==> Telling(c, e)
    ensures Run(c, Init(c, log, remote), es).result == Some(0) <==>
            AllDelivered(c, Run(c, Init(c, log, remote), es))
  {
    ReturnCode(c, log, remote, es);
    ToldRun(c, Init(c, log, remote), es);
  }

  // ---------- delivered bytes ----------

  predicate Covers(ch: Chunk, j: nat) { ch.rem <= j < ch.rem + ch.txSize }

  /** Some chunk transmits byte j. */
  lemma {:induction false} FindChunk(c: Config, s: State, j: nat, n: nat) returns (k: nat)
    requires Tiling(c, s) && 0 < n <= |s.chunks| && j < TxPos(c, End(s.chunks[n - 1]))
    ensures k < n && Covers(s.chunks[k], j)
  {
    ChunkReach(c, s, n - 1);
    if s.chunks[n - 1].rem <= j {
      k := n - 1;
    } else {
      k := FindChunk(c, s, j, n - 1);
    }
  }

  lemma ChunkReach(c: Config, s: State, k: nat)
    requires Tiling(c, s) && k < |s.chunks|
    ensures s.chunks[k].rem + s.chunks[k].txSize == TxPos(c, End(s.chunks[k]))
    ensures s.chunks[k].rem == if k == 0 then 0 else TxPos(c, End(s.chunks[k - 1]))
  {
    assert Shaped(c, s.chunks[k]);
    if k > 0 { assert End(s.chunks[k - 1]) == NextOff(s, k - 1); }
  }

  lemma OnlyChunk(c: Config, s: State, j: nat, k: nat, k': nat)
    requires Tiling(c, s) && k < |s.chunks| && k' < |s.chunks| && Covers(s.chunks[k], j) && Covers(s.chunks[k'], j)
    ensures k == k'
  {
    if k != k' { ChunksApart(c, s, k, k'); }
  }

  /** Byte j was transmitted by exactly one chunk, once. */
  ghost predicate SentOnce(s: State, j: nat) {
    exists k: nat :: k < |s.chunks| && Covers(s.chunks[k], j) && s.chunks[k].sends == 1
                     && forall k' :: 0 <= k' < |s.chunks| && Covers(s.chunks[k'], j) ==> k' == k
  }

  /** Log position and remote position of byte j of a landed chunk agree. */
  lemma LandedByte(c: Config, s: State, ch: Chunk, j: nat)
    requires Shaped(c, ch) && Landed(c, s.log, s.remote, ch) && Covers(ch, j)
    ensures c.remoteStart + j < |s.remote|
    ensures c.op.READ? || c.skip == 0 ==>
              c.logStart + c.skip + j < |s.log| && s.log[c.logStart + c.skip + j] == s.remote[c.remoteStart + j]
  {
    var i := j - ch.rem;
    assert s.log[LogPos(c, ch)..LogPos(c, ch) + ch.txSize][i] == s.log[LogPos(c, ch) + i];
    assert s.remote[RemoteAt(c, ch)..RemoteAt(c, ch) + ch.txSize][i] == s.remote[RemoteAt(c, ch) + i];
  }

  /** Byte j went over the network once, and lies where it should on both sides. A write puts it
      in place when its extent starts with the region, which `skip == 0` says. */
  ghost predicate ByteMatches(c: Config, s: State, j: nat) {
    && SentOnce(s, j)
    && c.remoteStart + j < |s.remote|
    && (c.op.READ? || c.skip == 0 ==>
          c.logStart + c.skip + j < |s.log| && s.log[c.logStart + c.skip + j] == s.remote[c.remoteStart + j])
  }

  lemma DeliveredByte(c: Config, s: State, j: nat)
    requires WellFormed(c) && Tiling(c, s) && Data(c, s) && AllDelivered(c, s) && j < c.transmit
    ensures ByteMatches(c, s, j)
  {
    var n := |s.chunks|;
    assert End(s.chunks[n - 1]) == NextOff(s, n - 1) == c.logLen;
    var k := FindChunk(c, s, j, n);
    forall k': nat | k' < |s.chunks| && Covers(s.chunks[k'], j) ensures k' == k { OnlyChunk(c, s, j, k, k'); }
    assert ReleasedData(c, s.log, s.remote, s.chunks[k]);
    LandedByte(c, s, s.chunks[k], j);
  }

  /** Everything was delivered: each byte crossed the network once and both sides agree. */
  lemma DeliveredBytes(c: Config, s: State)
    requires WellFormed(c) && Tiling(c, s) && Data(c, s) && AllDelivered(c, s)
    ensures forall j: nat :: j < c.transmit ==> ByteMatches(c, s, j)
  {
    forall j: nat | j < c.transmit ensures ByteMatches(c, s, j) { DeliveredByte(c, s, j); }
  }

  lemma MatchesAsSlices(c: Config, s: State)
    requires c.transmit > 0 && forall j: nat :: j < c.transmit ==> ByteMatches(c, s, j)
    ensures c.remoteStart + c.transmit <= |s.remote|
    ensures c.op.READ? || c.skip == 0 ==>
              && c.logStart + c.skip + c.transmit <= |s.log|
              && s.log[c.logStart + c.skip..c.logStart + c.skip + c.transmit]
                 == s.remote[c.remoteStart..c.remoteStart + c.transmit]
  {
    assert ByteMatches(c, s, c.transmit - 1);
    if c.op.READ? || c.skip == 0 {
      var a := s.log[c.logStart + c.skip..c.logStart + c.skip + c.transmit];
      var b := s.remote[c.remoteStart..c.remoteStart + c.transmit];
      forall j: nat | j < c.transmit ensures a[j] == b[j] { assert ByteMatches(c, s, j); }
    }
  }
}
