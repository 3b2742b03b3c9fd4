/** The end-to-end statements about a transfer, and the runs on which weaker readings of the
    code fail. */
module TransferResults {
  import opened Basics
  import opened Bits
  import opened Transfer
  import opened TransferInvariant
  import opened TransferData
  import opened TransferTheorems

  // ---------- what a step may touch ----------

  ghost predicate SameOutside(a: seq<byte>, b: seq<byte>, lo: nat, hi: nat) {
    |b| == |a| && forall i :: 0 <= i < |a| && !(lo <= i < hi) ==> b[i] == a[i]
  }

  lemma SpliceWithin(s: seq<byte>, at: nat, data: seq<byte>, lo: nat, hi: nat)
    requires lo <= at && at + |data| <= hi
    ensures SameOutside(s, Splice(s, at, data), lo, hi)
  {}

  lemma SecondTouches(c: Config, s: State, e: Event)
    requires Tiling(c, s) && Enabled(c, s, e) && e.Io2?
    ensures var t := Apply(c, s, e);
            if c.op.WRITE?
            then t.remote == s.remote && SameOutside(s.log, t.log, c.logStart, c.logStart + c.logLen)
            else t.log == s.log && SameOutside(s.remote, t.remote, c.remoteStart, c.remoteStart + c.transmit)
  {
    var ch := s.chunks[s.workers[e.w].k];
    assert Shaped(c, ch);
    if c.op.WRITE? {
      SpliceWithin(s.log, LogAt(c, ch), e.data, c.logStart, c.logStart + c.logLen);
    } else {
      SpliceWithin(s.remote, RemoteAt(c, ch), e.data, c.remoteStart, c.remoteStart + c.transmit);
    }
  }

  lemma OthersTouchNothing(c: Config, s: State, e: Event)
    requires Enabled(c, s, e) && !e.Env? && !e.Io2?
    ensures Apply(c, s, e).log == s.log && Apply(c, s, e).remote == s.remote
  {}

  /** No step of a transfer, failed I/O included, touches a log byte outside its extent or a
      remote byte outside the requested range; a read leaves the log alone and a write the
      remote buffer. */
  lemma StepTouches(c: Config, s: State, e: Event)
    requires Tiling(c, s) && Enabled(c, s, e) && !e.Env?
    ensures var t := Apply(c, s, e);
            && SameOutside(s.log, t.log, c.logStart, c.logStart + c.logLen)
            && SameOutside(s.remote, t.remote, c.remoteStart, c.remoteStart + c.transmit)
            && (c.op.READ? ==> t.log == s.log)
            && (c.op.WRITE? ==> t.remote == s.remote)
  {
    if e.Io2? { SecondTouches(c, s, e); } else { OthersTouchNothing(c, s, e); }
  }

  ghost predicate Untouched(c: Config, log: seq<byte>, remote: seq<byte>, s: State) {
    && SameOutside(remote, s.remote, c.remoteStart, c.remoteStart + c.transmit)
    && (c.op.WRITE? ==> s.remote == remote)
    && (c.op.READ? ==> c.logStart + c.logLen <= |log| <= |s.log|
                       && s.log[c.logStart..c.logStart + c.logLen] == log[c.logStart..c.logStart + c.logLen])
  }

  lemma UntouchedStep(c: Config, log: seq<byte>, remote: seq<byte>, s: State, e: Event)
    requires Tiling(c, s) && Untouched(c, log, remote, s) && Enabled(c, s, e)
    ensures Untouched(c, log, remote, Apply(c, s, e))
  {
    if !e.Env? { StepTouches(c, s, e); }
  }

  lemma {:induction false} RunTouches(c: Config, log: seq<byte>, remote: seq<byte>, s: State, es: seq<Event>)
    requires WellFormed(c) && Inv(c, s) && Untouched(c, log, remote, s) && Legal(c, s, es)
    ensures Untouched(c, log, remote, Run(c, s, es))
    decreases |es|
  {
    if es != [] {
      UntouchedStep(c, log, remote, s, es[0]);
      InvStep(c, s, es[0]);
      RunTouches(c, log, remote, Apply(c, s, es[0]), es[1..]);
    }
  }

  // ---------- chunk sizes ----------

  ghost predicate FullChunks(c: Config, s: State) {
    forall k :: 0 <= k < |s.chunks| ==> s.chunks[k].size == c.poolMax || End(s.chunks[k]) == c.logLen
  }

  lemma FullChunksEnter(c: Config, s: State, w: nat)
    requires WellFormed(c) && Tiling(c, s) && FullChunks(c, s) && Enabled(c, s, Enter(w))
    ensures FullChunks(c, Apply(c, s, Enter(w)))
  {
    EnterFromTop(c, s, w);
    if s.logIssued < c.logLen { ClaimArithmetic(c, s.logIssued); }
  }

  lemma FullChunksStep(c: Config, s: State, e: Event)
    requires WellFormed(c) && Tiling(c, s) && FullChunks(c, s) && Enabled(c, s, e)
    ensures FullChunks(c, Apply(c, s, e))
  {
    if e.Enter? {
      FullChunksEnter(c, s, e.w);
    } else {
      LayoutStep(c, s, e);
      FullChunksSame(c, s, Apply(c, s, e));
    }
  }

  lemma FullChunksSame(c: Config, s: State, t: State)
    requires FullChunks(c, s) && SameLayout(s, t)
    ensures FullChunks(c, t)
  {
    forall k | 0 <= k < |t.chunks|
      ensures t.chunks[k].size == c.poolMax || End(t.chunks[k]) == c.logLen
    {
      assert SameExtent(t.chunks[k], s.chunks[k]);
    }
  }

  lemma {:induction false} FullChunksRun(c: Config, s: State, es: seq<Event>)
    requires WellFormed(c) && Inv(c, s) && FullChunks(c, s) && Legal(c, s, es)
    ensures FullChunks(c, Run(c, s, es))
    decreases |es|
  {
    if es != [] {
      FullChunksStep(c, s, es[0]);
      InvStep(c, s, es[0]);
      FullChunksRun(c, Apply(c, s, es[0]), es[1..]);
    }
  }

  // ---------- end to end ----------

  /** The final state of a schedule, with what holds of it. */
  lemma Arrived(c: Config, log: seq<byte>, remote: seq<byte>, es: seq<Event>) returns (s: State)
    requires WellFormed(c) && c.logStart + c.logLen <= |log|
    requires Legal(c, Init(c, log, remote), es)
    ensures s == Run(c, Init(c, log, remote), es)
    ensures Tiling(c, s) && Data(c, s) && FullChunks(c, s) && Untouched(c, log, remote, s)
  {
    s := Reached(c, log, remote, es);
    InitHolds(c, log, remote);
    RunTouches(c, log, remote, Init(c, log, remote), es);
    FullChunksRun(c, Init(c, log, remote), es);
  }

  lemma AllMatch(c: Config, s: State)
    requires WellFormed(c) && Tiling(c, s) && Data(c, s) && AllDelivered(c, s) && c.transmit > 0
    ensures c.remoteStart + c.transmit <= |s.remote|
    ensures c.op.READ? || c.skip == 0 ==>
              && c.logStart + c.skip + c.transmit <= |s.log|
              && s.log[c.logStart + c.skip..c.logStart + c.skip + c.transmit]
                 == s.remote[c.remoteStart..c.remoteStart + c.transmit]
    ensures forall j: nat :: j < c.transmit ==> SentOnce(s, j)
  {
    DeliveredBytes(c, s);
    MatchesAsSlices(c, s);
    forall j: nat | j < c.transmit ensures SentOnce(s, j) { assert ByteMatches(c, s, j); }
  }

  lemma SameExtentBytes(c: Config, log: seq<byte>, log': seq<byte>)
    requires c.skip + c.transmit <= c.logLen && c.logStart + c.logLen <= |log| <= |log'|
    requires log'[c.logStart..c.logStart + c.logLen] == log[c.logStart..c.logStart + c.logLen]
    ensures log'[c.logStart + c.skip..c.logStart + c.skip + c.transmit]
         == log[c.logStart + c.skip..c.logStart + c.skip + c.transmit]
  {
    SubSlice(log, c.logStart, c.logLen, c.skip, c.transmit);
    SubSlice(log', c.logStart, c.logLen, c.skip, c.transmit);
  }

  /** In terms of one state: a transfer that returned 0, with no log I/O having reported zero
      bytes, delivered everything. */
  lemma ZeroDelivered(c: Config, s: State)
    requires WellFormed(c) && Core(c, s) && Told(s) && Reported(s) && s.result == Some(0)
    ensures AllDelivered(c, s)
  {
    OnlyReturnStops(c, s);
    CleanReturn(c, s);
  }

  /** A read that delivered everything: the requested remote range holds the log bytes the
      region had when the transfer started, each sent once; the rest of the buffer is untouched
      whatever the outcome. */
  lemma ReadDelivers(c: Config, log: seq<byte>, remote: seq<byte>, es: seq<Event>)
    requires c.op.READ? && WellFormed(c) && c.transmit > 0 && c.logStart + c.logLen <= |log|
    requires Legal(c, Init(c, log, remote), es)
    ensures var s := Run(c, Init(c, log, remote), es);
            && SameOutside(remote, s.remote, c.remoteStart, c.remoteStart + c.transmit)
            && (AllDelivered(c, s) ==>
                  && c.remoteStart + c.transmit <= |s.remote|
                  && s.remote[c.remoteStart..c.remoteStart + c.transmit]
                     == log[c.logStart + c.skip..c.logStart + c.skip + c.transmit]
                  && forall j: nat :: j < c.transmit ==> SentOnce(s, j))
  {
    var s := Arrived(c, log, remote, es);
    if AllDelivered(c, s) {
      AllMatch(c, s);
      SameExtentBytes(c, log, s.log);
    }
  }

  /** A write that delivered everything, to an extent that starts with its region: the log holds
      the remote bytes. The source buffer never changes. */
  lemma WriteDelivers(c: Config, log: seq<byte>, remote: seq<byte>, es: seq<Event>)
    requires c.op.WRITE? && c.skip == 0 && WellFormed(c) && c.transmit > 0 && c.logStart + c.logLen <= |log|
    requires Legal(c, Init(c, log, remote), es)
    ensures var s := Run(c, Init(c, log, remote), es);
            && s.remote == remote
            && (AllDelivered(c, s) ==>
                  && c.remoteStart + c.transmit <= |remote| && c.logStart + c.transmit <= |s.log|
                  && s.log[c.logStart..c.logStart + c.transmit] == remote[c.remoteStart..c.remoteStart + c.transmit]
                  && forall j: nat :: j < c.transmit ==> SentOnce(s, j))
  {
    var s := Arrived(c, log, remote, es);
    if AllDelivered(c, s) { AllMatch(c, s); }
  }

  /** Where a write goes wrong: when its extent starts before the region (a log that was opened at an
      unaligned length), the whole first chunk lands `skip` bytes early: it overwrites what precedes
      the region, and the region starts with the remote bytes from number `skip` on. */
  lemma MisalignedWriteLandsEarly(c: Config, log: seq<byte>, remote: seq<byte>, es: seq<Event>)
    requires c.op.WRITE? && c.skip > 0 && WellFormed(c) && c.transmit > 0 && c.logStart + c.logLen <= |log|
    requires Legal(c, Init(c, log, remote), es) && AllDelivered(c, Run(c, Init(c, log, remote), es))
    ensures var s, n := Run(c, Init(c, log, remote), es), FirstPiece(c); Shifted(c, s, n)
  {
    var s := Arrived(c, log, remote, es);
    FirstChunkLands(c, s);
  }

  /** How many bytes the first chunk transmits. */
  function FirstPiece(c: Config): nat { TxPos(c, if c.logLen < c.poolMax then c.logLen else c.poolMax) }

  /** The first n remote bytes lie at the start of the extent, so that what follows the skipped head is
      the remote range from its byte number `skip` on. */
  ghost predicate Shifted(c: Config, s: State, n: nat) {
    && 0 < n && c.remoteStart + n <= |s.remote| && c.logStart + n <= |s.log|
    && s.log[c.logStart..c.logStart + n] == s.remote[c.remoteStart..c.remoteStart + n]
    && (c.skip <= n ==>
          s.log[c.logStart + c.skip..c.logStart + n] == s.remote[c.remoteStart + c.skip..c.remoteStart + n])
  }

  lemma FirstChunkLands(c: Config, s: State)
    requires c.op.WRITE? && WellFormed(c) && Tiling(c, s) && Data(c, s) && FullChunks(c, s)
    requires AllDelivered(c, s) && c.transmit > 0
    ensures Shifted(c, s, FirstPiece(c))
  {
    var n := FirstPiece(c);
    FirstChunk(c, s);
    if c.skip <= n {
      SubSlice(s.log, c.logStart, n, c.skip, n - c.skip);
      SubSlice(s.remote, c.remoteStart, n, c.skip, n - c.skip);
    }
  }

  lemma FirstChunk(c: Config, s: State)
    requires c.op.WRITE? && WellFormed(c) && Tiling(c, s) && Data(c, s) && FullChunks(c, s)
    requires AllDelivered(c, s) && c.transmit > 0
    ensures var n := FirstPiece(c);
            && 0 < n && c.remoteStart + n <= |s.remote| && c.logStart + n <= |s.log|
            && s.log[c.logStart..c.logStart + n] == s.remote[c.remoteStart..c.remoteStart + n]
  {
    var ch := s.chunks[0];
    assert Shaped(c, ch) && ReleasedData(c, s.log, s.remote, ch);
    assert ch.txSize == FirstPiece(c);
  }

  // ---------- bookkeeping in every state ----------

  /** In every state of every schedule: issued bytes are retired, in flight or abandoned; the
      transmit counter is min(issued - skip, transmit); no chunk is sent twice. */
  lemma Bookkeeping(c: Config, log: seq<byte>, remote: seq<byte>, es: seq<Event>)
    requires WellFormed(c) && c.logStart + c.logLen <= |log| && Legal(c, Init(c, log, remote), es)
    ensures var s := Run(c, Init(c, log, remote), es);
            && s.logIssued == s.logRetired + Bytes(s.chunks, InFlight) + Bytes(s.chunks, Abandoned)
            && (s.transmitIssued > 0 ==>
                  s.transmitIssued == if s.logIssued - c.skip < c.transmit then s.logIssued - c.skip else c.transmit)
            && (forall k :: 0 <= k < |s.chunks| ==> s.chunks[k].sends <= 1)
            && (forall k :: 0 <= k < |s.chunks| && s.chunks[k].status.Abandoned? ==> s.ret == 0 || !s.chunks[k].ok)
  {
    var s := Reached(c, log, remote, es);
    forall k | 0 <= k < |s.chunks|
      ensures s.chunks[k].sends <= 1
    {
      assert ReleasedData(c, s.log, s.remote, s.chunks[k]);
      if s.chunks[k].status.InFlight? {
        assert HolderData(c, s.log, s.remote, s.workers[s.chunks[k].owner], s.chunks[k]);
      }
    }
  }

  lemma {:induction false} ChunkAligned(c: Config, s: State, a: nat, k: nat)
    requires a > 0 && c.poolMax % a == 0 && c.logLen % a == 0
    requires Tiling(c, s) && FullChunks(c, s) && k < |s.chunks|
    ensures s.chunks[k].off % a == 0 && s.chunks[k].size % a == 0
  {
    assert Shaped(c, s.chunks[k]);
    if k > 0 {
      ChunkAligned(c, s, a, k - 1);
      assert End(s.chunks[k - 1]) == NextOff(s, k - 1);
      SumOfMultiples(s.chunks[k - 1].off, s.chunks[k - 1].size, a);
    }
    SumOfMultiples(s.chunks[k].off, c.logLen, a);
  }

  /** When the alignment divides the pool buffer size, every direct-I/O access is aligned. */
  lemma ChunksAligned(c: Config, log: seq<byte>, remote: seq<byte>, es: seq<Event>, a: nat)
    requires a > 0 && c.poolMax % a == 0 && c.logLen % a == 0
    requires WellFormed(c) && c.logStart + c.logLen <= |log| && Legal(c, Init(c, log, remote), es)
    ensures var s := Run(c, Init(c, log, remote), es);
            forall k :: 0 <= k < |s.chunks| ==> s.chunks[k].off % a == 0 && s.chunks[k].size % a == 0
  {
    var s := Reached(c, log, remote, es);
    InitHolds(c, log, remote);
    FullChunksRun(c, Init(c, log, remote), es);
    forall k | 0 <= k < |s.chunks|
      ensures s.chunks[k].off % a == 0 && s.chunks[k].size % a == 0
    {
      ChunkAligned(c, s, a, k);
    }
  }
}
