/** The pmem backend's bulk write: a direct path, one margo_bulk_transfer, and a pipelined path
    whose workers run the loop of module Transfer with no skipped head, where the second I/O is
    a memcpy into the region and so cannot fail. `log` plays the region's memory. */
module Pmem {
  import opened Basics
  import opened Transfer
  import opened TransferInvariant
  import opened TransferData
  import opened TransferTheorems
  import opened TransferResults
  import opened TransferSucceeds

  /** The fields write_transfer_data sets before it spawns. */
  function PipelineConfig(regionOffset: nat, remoteOffset: nat, bulkSize: nat, poolMax: nat): Config {
    Config(WRITE, regionOffset, bulkSize, 0, bulkSize, remoteOffset, poolMax)
  }

  /** The direct path: one transfer of the whole range. None when the remote range is not there. */
  function DirectWrite(memory: seq<byte>, remote: seq<byte>, regionOffset: nat, remoteOffset: nat, bulkSize: nat):
    Option<seq<byte>>
  {
    if remoteOffset + bulkSize <= |remote|
    then Some(Splice(memory, regionOffset, remote[remoteOffset..remoteOffset + bulkSize])) else None
  }

  /** It is refused exactly when the remote range is not there; otherwise that range replaces the region's,
      and nothing else changes. */
  lemma DirectWriteMeans(memory: seq<byte>, remote: seq<byte>, regionOffset: nat, remoteOffset: nat, bulkSize: nat)
    requires regionOffset + bulkSize <= |memory|
    ensures var r := DirectWrite(memory, remote, regionOffset, remoteOffset, bulkSize);
            && (r == None <==> remoteOffset + bulkSize > |remote|)
            && (r.Some? ==>
                  && |r.value| == |memory|
                  && r.value[regionOffset..regionOffset + bulkSize] == remote[remoteOffset..remoteOffset + bulkSize]
                  && forall p :: 0 <= p < |memory| && !(regionOffset <= p < regionOffset + bulkSize) ==>
                       r.value[p] == memory[p])
  {}

  /** A schedule of the pipelined path alone: memcpy succeeds and nobody else writes the region. */
  predicate Pipelined(c: Config, s: State, es: seq<Event>)
    requires Legal(c, s, es)
    decreases |es|
  {
    es == [] || (&& !es[0].Env?
                 && (es[0].Io2? ==> es[0].rc == s.chunks[s.workers[es[0].w].k].size)
                 && Pipelined(c, Apply(c, s, es[0]), es[1..]))
  }

  lemma StepTelling(c: Config, s: State, e: Event)
    requires c.op.WRITE? && Tiling(c, s) && Enabled(c, s, e)
    requires e.Io2? ==> e.rc == s.chunks[s.workers[e.w].k].size
    ensures Telling(c, e)
  {
    if e.Io2? { assert Shaped(c, s.chunks[s.workers[e.w].k]); }
  }

  lemma {:induction false} PipelinedTelling(c: Config, s: State, es: seq<Event>)
    requires c.op.WRITE? && WellFormed(c) && Inv(c, s) && Legal(c, s, es) && Pipelined(c, s, es)
    ensures forall e :: e in es ==> Telling(c, e)
    decreases |es|
  {
    hide Core, Data, Enabled, Apply;
    if es != [] {
      FirstTelling(c, s, es);
      PipelinedTelling(c, Apply(c, s, es[0]), es[1..]);
      assert forall i :: 1 <= i < |es| ==> es[i] == es[1..][i - 1];
    }
  }

  lemma FirstTelling(c: Config, s: State, es: seq<Event>)
    requires c.op.WRITE? && WellFormed(c) && Inv(c, s) && Legal(c, s, es) && es != [] && Pipelined(c, s, es)
    ensures Telling(c, es[0]) && Inv(c, Apply(c, s, es[0])) && Pipelined(c, Apply(c, s, es[0]), es[1..])
  {
    hide Data, Lifecycle, Ownership, Errors, Apply;
    StepTelling(c, s, es[0]);
    InvStep(c, s, es[0]);
  }

  lemma {:induction false} PipelinedInside(c: Config, s: State, es: seq<Event>)
    requires WellFormed(c) && Inv(c, s) && Legal(c, s, es) && Pipelined(c, s, es)
    ensures SameOutside(s.log, Run(c, s, es).log, c.logStart, c.logStart + c.logLen)
    decreases |es|
  {
    if es != [] {
      StepTouches(c, s, es[0]);
      InvStep(c, s, es[0]);
      PipelinedInside(c, Apply(c, s, es[0]), es[1..]);
    }
  }

  lemma OutsideAndInside(a: seq<byte>, b: seq<byte>, at: nat, data: seq<byte>)
    requires at + |data| <= |a| && SameOutside(a, b, at, at + |data|) && b[at..at + |data|] == data
    ensures b == Splice(a, at, data)
  {
    var t := Splice(a, at, data);
    forall i | 0 <= i < |a|
      ensures b[i] == t[i]
    {
      if at <= i < at + |data| { assert b[at..at + |data|][i - at] == b[i]; }
    }
  }

  /** The pipelined write refines the direct one. In every schedule, bytes outside the
      requested range never change; and a schedule that returned reports 0 exactly when
      every chunk was delivered, and then the memory is what the direct transfer would have left,
      byte for byte. */
  lemma PipelineRefinesDirect(memory: seq<byte>, remote: seq<byte>, regionOffset: nat, remoteOffset: nat,
                              bulkSize: nat, poolMax: nat, es: seq<Event>)
    requires 0 < bulkSize && 0 < poolMax && regionOffset + bulkSize <= |memory|
    requires var c := PipelineConfig(regionOffset, remoteOffset, bulkSize, poolMax);
             Legal(c, Init(c, memory, remote), es) && Pipelined(c, Init(c, memory, remote), es)
    ensures var c := PipelineConfig(regionOffset, remoteOffset, bulkSize, poolMax);
            var s := Run(c, Init(c, memory, remote), es);
            && SameOutside(memory, s.log, regionOffset, regionOffset + bulkSize)
            && (s.result.Some? ==>
                  && (s.result == Some(0) <==> AllDelivered(c, s))
                  && (s.result == Some(0) ==>
                        remoteOffset + bulkSize <= |remote|
                        && s.log[regionOffset..regionOffset + bulkSize] == remote[remoteOffset..remoteOffset + bulkSize])
                  && (s.result == Some(0) ==>
                        DirectWrite(memory, remote, regionOffset, remoteOffset, bulkSize) == Some(s.log)))
  {
    hide Legal, Run, Pipelined, AllDelivered, Inv;
    var c := PipelineConfig(regionOffset, remoteOffset, bulkSize, poolMax);
    InitHolds(c, memory, remote);
    PipelinedInside(c, Init(c, memory, remote), es);
    if Run(c, Init(c, memory, remote), es).result.Some? {
      PipelinedTelling(c, Init(c, memory, remote), es);
      ZeroMeansDelivered(c, memory, remote, es);
      WriteDelivers(c, memory, remote, es);
      var s := Run(c, Init(c, memory, remote), es);
      if s.result == Some(0) {
        OutsideAndInside(memory, s.log, regionOffset, remote[remoteOffset..remoteOffset + bulkSize]);
      }
    }
  }

  lemma {:induction false} SuccessIsPipelined(c: Config, s: State, es: seq<Event>)
    requires c.op.WRITE? && Legal(c, s, es) && AllSucceed(c, s, es)
    ensures Pipelined(c, s, es)
    decreases |es|
  {
    hide Apply;
    if es != [] { SuccessIsPipelined(c, Apply(c, s, es[0]), es[1..]); }
  }

  /** And the pipelined path can do what the direct one does: for every range that exists some schedule
      of it returns 0, with the memory the direct transfer leaves. */
  lemma PipelineCanSucceed(memory: seq<byte>, remote: seq<byte>, regionOffset: nat, remoteOffset: nat,
                           bulkSize: nat, poolMax: nat) returns (es: seq<Event>)
    requires 0 < bulkSize && 0 < poolMax && regionOffset + bulkSize <= |memory| && remoteOffset + bulkSize <= |remote|
    ensures var c := PipelineConfig(regionOffset, remoteOffset, bulkSize, poolMax);
            && Legal(c, Init(c, memory, remote), es) && Pipelined(c, Init(c, memory, remote), es)
            && var s := Run(c, Init(c, memory, remote), es);
               && s.result == Some(0)
               && DirectWrite(memory, remote, regionOffset, remoteOffset, bulkSize) == Some(s.log)
  {
    var c := PipelineConfig(regionOffset, remoteOffset, bulkSize, poolMax);
    es := SomeScheduleSucceeds(c, memory, remote);
    SuccessIsPipelined(c, Init(c, memory, remote), es);
    PipelineRefinesDirect(memory, remote, regionOffset, remoteOffset, bulkSize, poolMax, es);
  }
}
