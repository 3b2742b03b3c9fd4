/** What clients of the file backend get, over every run. */
module FileBackendTheorems {
  import opened Basics
  import opened Bits
  import opened FileBackend
  import T = Transfer
  import TD = TransferData
  import TT = TransferTheorems
  import TR = TransferResults

  ghost predicate Legal(g: State, es: seq<Event>)
    decreases |es|
  {
    es == [] || (Enabled(g, es[0]) && Legal(Apply(g, es[0]), es[1..]))
  }

  ghost function Run(g: State, es: seq<Event>): State
    requires Legal(g, es)
    decreases |es|
  {
    if es == [] then g else Run(Apply(g, es[0]), es[1..])
  }

  /** A target just attached: a log of aligned length and no region handed out yet. */
  ghost predicate Fresh(g: State) {
    && 0 < g.a <= g.poolMax && g.logOffset == |g.log| >= SUPERBLOCK && |g.log| % g.a == 0
    && g.views == map[] && g.pending == map[] && g.transfers == map[]
  }

  /** In every reachable state the log shows every region's view, and every transfer in flight
      satisfies its protocol invariant against the shared log. */
  lemma {:induction false} LogRefinesViews(g: State, es: seq<Event>)
    requires Fresh(g) || Inv(g)
    requires Legal(g, es)
    ensures Inv(Run(g, es))
    decreases |es|
  {
    if es != [] {
      StepInv(g, es[0]);
      LogRefinesViews(Apply(g, es[0]), es[1..]);
    }
  }

  // ---------- no operation touches another region ----------

  /** The region an event works on; the two halves of a create, reads, and the start and end of a
      transfer write to no existing region. */
  function Writes(g: State, e: Event): Option<Region> {
    match e
    case Remove(r, _, _) => Some(r)
    case WriteRaw(r, _, _, _, _) => Some(r)
    case StepTransfer(x, _) => if x in g.transfers then Some(g.transfers[x].region) else None
    case _ => None
  }

  lemma OverwriteFrame(g: State, r: Region, left: seq<byte>, q: Region)
    requires Layout(g) && r in g.views && |left| <= r.size && q != r
    requires q in g.views || q == Region(0, SUPERBLOCK)
    ensures SameRegion(g.log, Overwrite(g.log, r.off, left), q)
  {
    if q in g.views { assert Apart(q, r); }
    SameOther(g.log, r.off, left, q);
  }

  lemma StepFrame(g: State, x: nat, te: T.Event, q: Region)
    requires Inv(g) && CanStep(g, x, te) && q != g.transfers[x].region
    requires q in g.views || q == Region(0, SUPERBLOCK)
    ensures SameRegion(g.log, AfterStep(g, x, te).log, q)
  {
    hide TT.Inv, TT.Told;
    var l := g.transfers[x];
    StepSeen(g.log, g.views[l.region], l, te);
    if q in g.views { assert Apart(q, l.region); }
    OutsideIsBeside(g.log, Stepped(g, x, te).s.log, l.c.logStart, l.c.logStart + l.c.logLen, q);
  }

  lemma GrowthFrame(g: State, log': seq<byte>, q: Region)
    requires |log'| >= |g.log| && log'[..|g.log|] == g.log && q.off + q.size <= |g.log|
    ensures SameRegion(g.log, log', q)
  {
    TD.SamePiece(g.log, log', 0, |g.log|, q.off, q.size);
  }

  lemma RawFrame(g: State, e: Event, q: Region)
    requires Inv(g) && Enabled(g, e) && (e.Remove? || e.WriteRaw?) && q != e.region
    requires q in g.views || q == Region(0, SUPERBLOCK)
    ensures SameRegion(g.log, Apply(g, e).log, q)
  {
    hide Sound;
    if e.Remove? {
      OverwriteFrame(g, e.region, e.left, q);
    } else if e.offset == 0 && |e.data| <= e.region.size {
      RawFits(g.a, |e.data|, e.region);
      OverwriteFrame(g, e.region, e.left, q);
    }
  }

  lemma EndBlockFrame(g: State, e: Event, q: Region)
    requires Inv(g) && Enabled(g, e) && e.EndBlock? && EndOf(q) <= |g.log|
    ensures SameRegion(g.log, Apply(g, e).log, q)
  {
    hide Sound;
    ExtendedGrows(g.log, g.logOffset, e.tail);
    GrowthFrame(g, Apply(g, e).log, q);
  }

  /** Whatever an event does, failed I/O included, every byte of every other region and of the
      superblock stays as it is. */
  lemma OnlyOwnRegion(g: State, e: Event, q: Region)
    requires Inv(g) && Enabled(g, e) && Writes(g, e) != Some(q)
    requires q in g.views || q == Region(0, SUPERBLOCK)
    ensures SameRegion(g.log, Apply(g, e).log, q)
  {
    if e.EndBlock? { EndBlockFrame(g, e, q); }
    else if e.Remove? || e.WriteRaw? { RawFrame(g, e, q); }
    else if e.StepTransfer? { StepFrame(g, e.x, e.e, q); }
  }

  /** The superblock is no region, so it never changes. */
  lemma SuperblockKept(g: State, e: Event)
    requires Inv(g) && Enabled(g, e)
    ensures SameRegion(g.log, Apply(g, e).log, Region(0, SUPERBLOCK))
  {
    OwnerInViews(g, e);
    assert Writes(g, e) != Some(Region(0, SUPERBLOCK));
    OnlyOwnRegion(g, e, Region(0, SUPERBLOCK));
  }

  lemma OwnerInViews(g: State, e: Event)
    requires Inv(g) && Enabled(g, e)
    ensures Writes(g, e).Some? ==> Writes(g, e).value in g.views && Writes(g, e).value.off >= SUPERBLOCK
  {}

  // ---------- reads ----------

  /** data, read from position `at` of a region, agrees with everything known of the region. */
  ghost predicate Answers(v: View, at: nat, data: seq<byte>) {
    at + |data| <= |v| && forall i :: 0 <= i < |data| && v[at + i].Known? ==> data[i] == v[at + i].b
  }

  lemma SliceAnswers(log: seq<byte>, r: Region, v: View, at: nat, n: nat)
    requires Shows(log, r, v) && at + n <= r.size
    ensures Answers(v, at, log[r.off + at..r.off + at + n])
  {
    var data := log[r.off + at..r.off + at + n];
    forall i | 0 <= i < n && v[at + i].Known?
      ensures data[i] == v[at + i].b
    {
      assert log[r.off + (at + i)] == v[at + i].b;
    }
  }

  /** Where in its region a transfer starts. */
  function RegionOffset(l: Live): int { l.c.logStart + l.c.skip - l.region.off }

  ghost predicate ReadDone(g: State, x: nat) {
    CanFinish(g, x) && g.transfers[x].c.op.READ? && g.transfers[x].s.result == Some(0) && g.transfers[x].told
      && g.transfers[x].c.transmit > 0
  }

  lemma InsideRegion(log: seq<byte>, v: View, l: Live)
    requires Sound(log, v, l)
    ensures RegionOffset(l) >= 0 && RegionOffset(l) + l.c.transmit <= l.region.size
  {}

  lemma PayloadIs(log: seq<byte>, v: View, l: Live, lo: nat)
    requires Sound(log, v, l) && l.s.result == Some(0) && l.told && l.c.transmit > 0 && lo == l.c.logStart + l.c.skip
    ensures lo + l.c.transmit <= |log| && Payload(l) == log[lo..lo + l.c.transmit]
  {
    hide TT.Inv, TT.Told;
    FinishedDelivered(log, v, l);
  }

  lemma SoundRead(log: seq<byte>, v: View, l: Live) returns (at: nat, data: seq<byte>)
    requires Sound(log, v, l) && Shows(log, l.region, v) && l.s.result == Some(0) && l.told && l.c.transmit > 0
    ensures at == RegionOffset(l) && data == Payload(l) && |data| == l.c.transmit && at + |data| <= l.region.size
    ensures data == log[l.region.off + at..l.region.off + at + |data|]
    ensures Answers(v, at, data)
  {
    hide TT.Inv, TT.Told;
    InsideRegion(log, v, l);
    at, data := RegionOffset(l), Payload(l);
    PayloadIs(log, v, l, l.region.off + at);
    SliceAnswers(log, l.region, v, at, |data|);
  }

  lemma TransferIsSound(g: State, x: nat)
    requires Inv(g) && x in g.transfers
    ensures var l := g.transfers[x];
            l.region in g.views && Sound(g.log, g.views[l.region], l) && Shows(g.log, l.region, g.views[l.region])
  {}

  /** A bulk read that returned 0 delivered the log's bytes, which are the region's. */
  lemma BulkReadAnswers(g: State, x: nat) returns (at: nat, data: seq<byte>)
    requires Inv(g) && ReadDone(g, x)
    ensures var r := g.transfers[x].region;
            && at == RegionOffset(g.transfers[x]) && data == Payload(g.transfers[x])
            && |data| == g.transfers[x].c.transmit && at + |data| <= r.size && r.off + r.size <= |g.log|
            && data == g.log[r.off + at..r.off + at + |data|]
            && r in g.views && Answers(g.views[r], at, data)
  {
    hide TT.Inv, TT.Told, Sound, Layout, Refines, Running;
    TransferIsSound(g, x);
    at, data := SoundRead(g.log, g.views[g.transfers[x].region], g.transfers[x]);
  }

  lemma RawExtent(g: State, r: Region, offset: nat, size: nat)
    requires Layout(g) && r in g.views && size + offset <= r.size
    ensures var lo, hi := RawStart(g.a, r, offset), RawEnd(g.a, r, offset, size);
            && r.off <= lo <= r.off + offset < lo + g.a
            && r.off + offset + size <= hi <= r.off + r.size
            && (hi - lo) % g.a == 0
  {
    AlignFacts(r.off + offset, g.a);
    AlignFacts(r.off + offset + size, g.a);
    AlignOptimal(r.off + offset, r.off, g.a);
    SumOfMultiples(r.off, r.size, g.a);
    AlignOptimal(r.off + offset + size, r.off + r.size, g.a);
    SumOfMultiples(RawStart(g.a, r, offset), RawEnd(g.a, r, offset, size), g.a);
  }

  /** An eager read whose pread is complete succeeds exactly when the request lies in one block,
      and then delivers the log's bytes. */
  lemma EagerReadAnswers(g: State, r: Region, offset: nat, size: nat, buf: seq<byte>, n: int)
    requires Inv(g) && Enabled(g, ReadRaw(r, offset, size, buf, n))
    requires size + offset <= r.size && n == |buf|
    ensures var lo, hi := RawStart(g.a, r, offset), RawEnd(g.a, r, offset, size);
            && (ReadRawCode(g.a, r, offset, size, n) == Success <==> hi == lo + g.a)
            && lo <= r.off + offset && r.off + offset - lo + size <= |buf|
            && RawBytes(g.a, r, offset, size, buf) == g.log[r.off + offset..r.off + offset + size]
            && Answers(g.views[r], offset, RawBytes(g.a, r, offset, size, buf))
  {
    hide Sound, Running, Reserved;
    RawExtent(g, r, offset, size);
    var lo := RawStart(g.a, r, offset);
    assert Shows(g.log, r, g.views[r]);
    assert buf == buf[..n] == g.log[lo..lo + n];
    TD.SubSlice(g.log, lo, n, r.off + offset - lo, size);
    SliceAnswers(g.log, r, g.views[r], offset, size);
  }

  /** Eager and bulk reads of the same request, both successful, deliver the same bytes, provided
      that the request lies in one block. */
  lemma EagerAndBulkAgree(g: State, x: nat, r: Region, offset: nat, size: nat, buf: seq<byte>, n: int)
    requires Inv(g) && ReadDone(g, x) && Enabled(g, ReadRaw(r, offset, size, buf, n))
    requires ReadRawCode(g.a, r, offset, size, n) == Success
    requires RawEnd(g.a, r, offset, size) == RawStart(g.a, r, offset) + g.a
    requires g.transfers[x].region == r && RegionOffset(g.transfers[x]) == offset && g.transfers[x].c.transmit == size
    ensures var lo := RawStart(g.a, r, offset);
            && lo <= r.off + offset && r.off + offset - lo + size <= |buf|
            && RawBytes(g.a, r, offset, size, buf) == Payload(g.transfers[x])
  {
    hide TT.Inv, TT.Told, Sound, Refines, Running;
    var at, data := BulkReadAnswers(g, x);
    EagerReadAnswers(g, r, offset, size, buf, n);
  }

  /** For a longer request they need not: a pread that stops after the first block has read as many
      bytes as the code asks for, and the rest of what is delivered is whatever the buffer held. */
  lemma ShortReadSucceeds(g: State, r: Region, offset: nat, size: nat) returns (one: seq<byte>, two: seq<byte>)
    requires Inv(g) && r in g.views && !Writing(g, r) && size + offset <= r.size
    requires RawEnd(g.a, r, offset, size) > RawStart(g.a, r, offset) + g.a
    ensures Enabled(g, ReadRaw(r, offset, size, one, g.a)) && Enabled(g, ReadRaw(r, offset, size, two, g.a))
    ensures ReadRawCode(g.a, r, offset, size, g.a) == Success
    ensures var lo := RawStart(g.a, r, offset);
            && lo <= r.off + offset && r.off + offset - lo + size <= |one| == |two|
            && RawBytes(g.a, r, offset, size, one) != RawBytes(g.a, r, offset, size, two)
  {
    hide Inv, Enabled, RawStart, RawEnd, Writing;
    OneBlockIn(g, r, offset, size);
    var lo, hi := RawStart(g.a, r, offset), RawEnd(g.a, r, offset, size);
    var first := g.log[lo..lo + g.a];
    one, two := first + seq(hi - lo - g.a, _ => 0), first + seq(hi - lo - g.a, _ => 1);
    assert one[..g.a] == first == two[..g.a];
    ShortReadEvent(g, r, offset, size, one);
    ShortReadEvent(g, r, offset, size, two);
    LastDiffers(first, hi - lo - g.a, r.off + offset - lo, size);
  }

  lemma OneBlockIn(g: State, r: Region, offset: nat, size: nat)
    requires Inv(g) && r in g.views && size + offset <= r.size
    requires RawEnd(g.a, r, offset, size) > RawStart(g.a, r, offset) + g.a
    ensures var lo, hi := RawStart(g.a, r, offset), RawEnd(g.a, r, offset, size);
            && g.a > 0 && lo <= r.off + offset && r.off + offset + size <= hi <= |g.log|
            && size > 0 && r.off + offset + size > lo + g.a
  {
    hide Sound, Refines, Running, Reserved;
    RawExtent(g, r, offset, size);
    LastByteUnread(g, r, offset, size);
  }

  lemma ShortReadEvent(g: State, r: Region, offset: nat, size: nat, buf: seq<byte>)
    requires g.a > 0 && r in g.views && !Writing(g, r) && size + offset <= r.size
    requires var lo, hi := RawStart(g.a, r, offset), RawEnd(g.a, r, offset, size);
             lo + g.a < hi <= |g.log| && |buf| == hi - lo && buf[..g.a] == g.log[lo..lo + g.a]
    ensures Enabled(g, ReadRaw(r, offset, size, buf, g.a))
  {}

  lemma LastDiffers(first: seq<byte>, n: nat, skip: nat, size: nat)
    requires size > 0 && skip + size <= |first| + n && skip + size > |first|
    ensures (first + seq(n, _ => 0))[skip..skip + size] != (first + seq(n, _ => 1))[skip..skip + size]
  {
    var one, two := (first + seq(n, _ => 0))[skip..skip + size], (first + seq(n, _ => 1))[skip..skip + size];
    assert one[size - 1] == 0 && two[size - 1] == 1;
  }

  lemma LastByteUnread(g: State, r: Region, offset: nat, size: nat)
    requires Layout(g) && r in g.views && size + offset <= r.size
    requires RawEnd(g.a, r, offset, size) > RawStart(g.a, r, offset) + g.a
    ensures size > 0 && r.off + offset + size > RawStart(g.a, r, offset) + g.a
  {
    var lo, hi := RawStart(g.a, r, offset), RawEnd(g.a, r, offset, size);
    AlignFacts(r.off + offset, g.a);
    AlignFacts(r.off + offset + size, g.a);
    SumOfMultiples(lo, g.a, g.a);
    MultiplesApart(lo + g.a, hi, g.a);
  }

  /** read_raw_free finds the bounce buffer again: the pointer handed out lies in the first
      block of an aligned buffer, so rounding it down gives the buffer's start. */
  lemma FreeFindsBuffer(g: State, r: Region, offset: nat, size: nat, base: nat)
    requires Layout(g) && r in g.views && size + offset <= r.size && base % g.a == 0
    ensures var lo := RawStart(g.a, r, offset);
            lo <= r.off + offset && AlignDown(base + (r.off + offset - lo), g.a) == base
  {
    RawExtent(g, r, offset, size);
    var p := base + (r.off + offset - RawStart(g.a, r, offset));
    AlignFacts(p, g.a);
    AlignOptimal(p, base, g.a);
    if base < AlignDown(p, g.a) { MultiplesApart(base, AlignDown(p, g.a), g.a); }
  }

  // ---------- eager writes ----------

  /** The region is known to start with data. */
  ghost predicate Holds(v: View, data: seq<byte>) {
    |data| <= |v| && forall i :: 0 <= i < |data| ==> v[i] == Known(data[i])
  }

  /** An eager write that reached the disk completely reports success exactly when it starts the
      region and fits in one block; longer ones are written but reported as I/O errors. */
  lemma EagerWriteCode(g: State, r: Region, offset: nat, data: seq<byte>, left: seq<byte>, n: int)
    requires Inv(g) && Enabled(g, WriteRaw(r, offset, data, left, n)) && n == |left|
    ensures WriteRawCode(g.a, r, offset, |data|, n) == Success <==>
            offset == 0 && 0 < |data| <= g.a && |data| <= r.size
  {
    if offset == 0 && |data| <= r.size {
      AlignFacts(|data|, g.a);
      if 0 < |data| <= g.a {
        AlignOptimal(|data|, g.a, g.a);
        MultiplesApart(0, AlignUp(|data|, g.a), g.a);
      }
    }
  }

  /** A pwrite that stops after one block makes a longer write report success: it leaves the rest of
      the region as it was, so the log holds the data only if the rest was there already. */
  lemma ShortWriteSucceeds(g: State, r: Region, data: seq<byte>) returns (left: seq<byte>)
    requires Inv(g) && r in g.views && !Busy(g, r) && g.a < |data| <= r.size
    ensures Enabled(g, WriteRaw(r, 0, data, left, g.a)) && WriteRawCode(g.a, r, 0, |data|, g.a) == Success
    ensures var log' := Apply(g, WriteRaw(r, 0, data, left, g.a)).log;
            && |log'| == |g.log| >= EndOf(r)
            && log'[r.off..r.off + g.a] == data[..g.a]
            && (log'[r.off..r.off + |data|] == data <==> g.log[r.off + g.a..r.off + |data|] == data[g.a..])
  {
    hide Inv, Apply, Enabled, AlignUp, WriteRawCode, Busy;
    Positive(g);
    RawRoom(g, r, data);
    var end := r.off + AlignUp(|data|, g.a);
    left := data[..g.a] + g.log[r.off + g.a..end];
    ShortWriteEvent(g, r, data, left);
    FirstBlockOnly(g.log, r.off, g.a, end, data);
  }

  lemma RawRoom(g: State, r: Region, data: seq<byte>)
    requires Inv(g) && r in g.views && |data| <= r.size
    ensures g.a > 0 && |data| <= AlignUp(|data|, g.a) <= r.size && EndOf(r) <= |g.log|
  {
    hide Sound, Running, Reserved, Refines, Shows;
    RawFits(g.a, |data|, r);
    AlignFacts(|data|, g.a);
  }

  lemma ShortWriteEvent(g: State, r: Region, data: seq<byte>, left: seq<byte>)
    requires 0 < g.a < |data| <= r.size && r in g.views && !Busy(g, r)
    requires |data| <= |left| == AlignUp(|data|, g.a)
    ensures Enabled(g, WriteRaw(r, 0, data, left, g.a)) && WriteRawCode(g.a, r, 0, |data|, g.a) == Success
    ensures Apply(g, WriteRaw(r, 0, data, left, g.a)).log == Overwrite(g.log, r.off, left)
  {}

  lemma FirstBlockOnly(log: seq<byte>, off: nat, a: nat, end: nat, data: seq<byte>)
    requires a < |data| && off + |data| <= end <= |log|
    ensures var log' := Overwrite(log, off, data[..a] + log[off + a..end]);
            && |log'| == |log| && log'[off..off + a] == data[..a]
            && (log'[off..off + |data|] == data <==> log[off + a..off + |data|] == data[a..])
  {
    var left := data[..a] + log[off + a..end];
    var log' := Overwrite(log, off, left);
    assert off + |left| == end && log' == log[..off] + left + log[end..];
    forall i | off + a <= i < off + |data| ensures log'[i] == log[i] { assert log'[i] == left[i - off]; }
    assert log'[off + a..off + |data|] == log[off + a..off + |data|];
    TwoPieces(log', off, a, data);
  }

  lemma TwoPieces(log: seq<byte>, off: nat, k: nat, data: seq<byte>)
    requires k <= |data| && off + |data| <= |log|
    ensures log[off..off + |data|] == data <==>
            log[off..off + k] == data[..k] && log[off + k..off + |data|] == data[k..]
  {
    assert data == data[..k] + data[k..];
    assert log[off..off + |data|] == log[off..off + k] + log[off + k..off + |data|];
  }

  // ---------- read after write ----------

  /** Events that may change what is known of region r. */
  predicate Mutates(e: Event, r: Region) {
    match e
    case Remove(q, _, _) => q == r
    case WriteRaw(q, _, _, _, _) => q == r
    case StartTransfer(_, q, op, _, _, _, _) => q == r && op.WRITE?
    case _ => false
  }

  lemma ViewStays(g: State, e: Event, r: Region)
    requires Inv(g) && Enabled(g, e) && r in g.views && !Writing(g, r) && !Mutates(e, r)
    ensures r in Apply(g, e).views && Apply(g, e).views[r] == g.views[r]
  {
    hide Sound, Reserved;
    if e.EndBlock? { PendingLast(g, e.i); }
  }

  lemma NobodyWrites(g: State, e: Event, r: Region)
    requires Layout(g) && Enabled(g, e) && !Writing(g, r) && !Mutates(e, r)
    ensures !Writing(Apply(g, e), r)
  {
    var h := Apply(g, e);
    if e.StartTransfer? {
      TT.SetupFits(e.op, g.a, g.poolMax, e.region.off, e.region.size, e.offset, e.remoteOffset, e.size);
    }
    forall x | x in h.transfers && h.transfers[x].region == r
      ensures h.transfers[x].c.op.READ?
    {}
  }

  lemma {:induction false} ViewStaysRun(g: State, es: seq<Event>, r: Region)
    requires Inv(g) && Legal(g, es) && r in g.views && !Writing(g, r)
    requires forall e :: e in es ==> !Mutates(e, r)
    ensures var h := Run(g, es); Inv(h) && r in h.views && h.views[r] == g.views[r]
    decreases |es|
  {
    if es != [] {
      StepInv(g, es[0]);
      ViewStays(g, es[0], r);
      NobodyWrites(g, es[0], r);
      ViewStaysRun(Apply(g, es[0]), es[1..], r);
    }
  }

  /** Event e ends a write of data to the start of region r: a bulk write that returned 0, or an
      eager write that was complete. */
  ghost predicate Wrote(g: State, e: Event, r: Region, data: seq<byte>) {
    Enabled(g, e) &&
    match e
    case FinishTransfer(x) =>
      var l := g.transfers[x];
      l.region == r && l.c.op.WRITE? && l.s.result == Some(0) && l.told && data == Payload(l)
    case WriteRaw(q, offset, d, left, n) => q == r && offset == 0 && |d| <= r.size && d == data && n == |left|
    case _ => false
  }

  /** The log has data at the start of the region. */
  ghost predicate LogHas(log: seq<byte>, r: Region, data: seq<byte>) {
    |data| <= r.size && EndOf(r) <= |log| && log[r.off..r.off + |data|] == data
  }

  lemma HeldIsLogged(g: State, r: Region, data: seq<byte>)
    requires Inv(g) && r in g.views && Holds(g.views[r], data)
    ensures LogHas(g.log, r, data)
  {
    hide Layout, Reserved, Running;
    assert Shows(g.log, r, g.views[r]);
    forall i | 0 <= i < |data| ensures g.log[r.off + i] == data[i] { assert g.views[r][i] == Known(data[i]); }
  }

  lemma BulkWriteHolds(g: State, x: nat, data: seq<byte>)
    requires Inv(g) && x in g.transfers && Wrote(g, FinishTransfer(x), g.transfers[x].region, data)
    ensures var h, r := AfterFinish(g, x), g.transfers[x].region;
            r in h.views && Holds(h.views[r], data) && !Writing(h, r)
  {
    hide TT.Inv, TT.Told, Layout, Reserved;
    var l := g.transfers[x];
    assert Shows(g.log, l.region, g.views[l.region]);
    assert Sound(g.log, g.views[l.region], l);
    forall y | y in g.transfers && y != x
      ensures g.transfers[y].region != l.region
    {
      assert Compatible(g.transfers[x], g.transfers[y]);
    }
  }

  lemma EagerWriteHolds(g: State, r: Region, data: seq<byte>, left: seq<byte>, n: int)
    requires Inv(g) && Wrote(g, WriteRaw(r, 0, data, left, n), r, data)
    ensures var h := Apply(g, WriteRaw(r, 0, data, left, n));
            r in h.views && Holds(h.views[r], data) && !Writing(h, r)
  {
    hide Sound, Reserved;
    assert Shows(g.log, r, g.views[r]);
  }

  lemma WroteHolds(g: State, e: Event, r: Region, data: seq<byte>)
    requires Inv(g) && Wrote(g, e, r, data)
    ensures var h := Apply(g, e); Inv(h) && r in h.views && Holds(h.views[r], data) && !Writing(h, r)
  {
    hide Inv, Holds;
    StepInv(g, e);
    if e.FinishTransfer? { BulkWriteHolds(g, e.x, data); } else { EagerWriteHolds(g, r, data, e.left, e.n); }
  }

  /** An eager read handed out these bytes. */
  ghost predicate RawDelivers(g: State, r: Region, offset: nat, size: nat, buf: seq<byte>, got: seq<byte>) {
    && g.a > 0 && RawStart(g.a, r, offset) <= r.off + offset
    && r.off + offset - RawStart(g.a, r, offset) + size <= |buf|
    && RawBytes(g.a, r, offset, size, buf) == got
  }

  /** If bulk transfer y is a read of the region that returned 0, and lies inside data, it handed
      out that piece of data. */
  ghost predicate BulkDelivers(g: State, y: nat, r: Region, data: seq<byte>)
    requires y in g.transfers
  {
    var m := g.transfers[y];
    ReadDone(g, y) && m.region == r && RegionOffset(m) + m.c.transmit <= |data| ==>
      0 <= RegionOffset(m) && Payload(m) == data[RegionOffset(m)..RegionOffset(m) + m.c.transmit]
  }

  lemma BulkReadOfHeld(g: State, y: nat, r: Region, data: seq<byte>)
    requires Inv(g) && y in g.transfers && r in g.views && Holds(g.views[r], data)
    ensures BulkDelivers(g, y, r, data)
  {
    hide Inv;
    var m := g.transfers[y];
    if ReadDone(g, y) && m.region == r && RegionOffset(m) + m.c.transmit <= |data| {
      var at, got := BulkReadAnswers(g, y);
      HeldAnswers(g.views[r], data, at, got);
    }
  }

  lemma EagerReadOfHeld(g: State, r: Region, offset: nat, size: nat, buf: seq<byte>, n: int, data: seq<byte>)
    requires Inv(g) && r in g.views && Holds(g.views[r], data) && |g.views[r]| == r.size
    requires Enabled(g, ReadRaw(r, offset, size, buf, n)) && n == |buf| && size + offset <= |data|
    ensures RawDelivers(g, r, offset, size, buf, data[offset..offset + size])
  {
    hide Inv;
    EagerReadAnswers(g, r, offset, size, buf, n);
    HeldAnswers(g.views[r], data, offset, RawBytes(g.a, r, offset, size, buf));
  }

  lemma HeldAnswers(v: View, data: seq<byte>, at: nat, got: seq<byte>)
    requires Holds(v, data) && Answers(v, at, got) && at + |got| <= |data|
    ensures got == data[at..at + |got|]
  {
    forall i | 0 <= i < |got|
      ensures got[i] == data[at + i]
    {
      assert v[at + i] == Known(data[at + i]);
    }
  }

  lemma HeldSurvives(g: State, e: Event, es: seq<Event>, h: State, r: Region, data: seq<byte>)
    requires Inv(g) && Wrote(g, e, r, data)
    requires Legal(Apply(g, e), es) && h == Run(Apply(g, e), es) && forall f :: f in es ==> !Mutates(f, r)
    ensures Inv(h) && r in h.views && Holds(h.views[r], data) && |h.views[r]| == r.size
  {
    hide Sound, Layout, Reserved, Holds;
    WroteHolds(g, e, r, data);
    ViewStaysRun(Apply(g, e), es, r);
    assert Shows(h.log, r, h.views[r]);
  }

  /** Read your writes: after a write of either kind, and any run that does not write or remove that
      region, the log holds the data, and every complete read of either kind inside what was written
      delivers it. */
  lemma ReadAfterWrite(g: State, e: Event, es: seq<Event>, h: State, r: Region, data: seq<byte>)
    requires Inv(g) && Wrote(g, e, r, data)
    requires Legal(Apply(g, e), es) && h == Run(Apply(g, e), es) && forall f :: f in es ==> !Mutates(f, r)
    ensures LogHas(h.log, r, data)
    ensures forall y :: y in h.transfers ==> BulkDelivers(h, y, r, data)
    ensures forall offset: nat, size: nat, buf, n ::
              Enabled(h, ReadRaw(r, offset, size, buf, n)) && n == |buf| && size + offset <= |data| ==>
                RawDelivers(h, r, offset, size, buf, data[offset..offset + size])
  {
    hide Inv, Holds, BulkDelivers, Enabled, RawDelivers, Wrote;
    HeldSurvives(g, e, es, h, r, data);
    HeldIsLogged(h, r, data);
    forall y | y in h.transfers ensures BulkDelivers(h, y, r, data) { BulkReadOfHeld(h, y, r, data); }
    forall offset: nat, size: nat, buf, n |
      Enabled(h, ReadRaw(r, offset, size, buf, n)) && n == |buf| && size + offset <= |data|
      ensures RawDelivers(h, r, offset, size, buf, data[offset..offset + size])
    {
      EagerReadOfHeld(h, r, offset, size, buf, n, data);
    }
  }

  // ---------- what a write leaves alone ----------

  /** The bytes of the region from position `from` on are the same in both logs. */
  ghost predicate RestKept(log: seq<byte>, log': seq<byte>, r: Region, from: nat) {
    from <= r.size && EndOf(r) <= |log| <= |log'| && log'[r.off + from..EndOf(r)] == log[r.off + from..EndOf(r)]
  }

  lemma SameRegionRest(log: seq<byte>, log': seq<byte>, r: Region, from: nat)
    requires SameRegion(log, log', r) && from <= r.size
    ensures RestKept(log, log', r, from)
  {
    TD.SubSlice(log, r.off, r.size, from, r.size - from);
    TD.SubSlice(log', r.off, r.size, from, r.size - from);
  }

  lemma OutsideRest(log: seq<byte>, log': seq<byte>, r: Region, from: nat)
    requires TR.SameOutside(log, log', r.off, r.off + from) && from <= r.size && EndOf(r) <= |log|
    ensures RestKept(log, log', r, from)
  {
    var p, q := log[r.off + from..EndOf(r)], log'[r.off + from..EndOf(r)];
    assert forall i :: 0 <= i < r.size - from ==> p[i] == log[r.off + from + i] && q[i] == log'[r.off + from + i];
  }

  /** Transfer x of g is in flight in h: the same transfer, its source untouched if it is a write. */
  ghost predicate SameTransfer(g: State, h: State, x: nat)
    requires x in g.transfers
  {
    x in h.transfers &&
    var l, m := g.transfers[x], h.transfers[x];
    m.region == l.region && m.c == l.c && (l.c.op.WRITE? ==> m.s.remote == l.s.remote)
  }

  lemma OwnStepKeepsRest(g: State, x: nat, te: T.Event)
    requires Inv(g) && CanStep(g, x, te) && g.transfers[x].c.op.WRITE?
    ensures SameTransfer(g, AfterStep(g, x, te), x)
    ensures RestKept(g.log, AfterStep(g, x, te).log, g.transfers[x].region, g.transfers[x].c.logLen)
  {
    hide TT.Inv, TT.Told, T.Enabled, T.Apply, Layout, Reserved;
    var l := g.transfers[x];
    StepSeen(g.log, g.views[l.region], l, te);
    assert Shows(g.log, l.region, g.views[l.region]);
    OutsideRest(g.log, Stepped(g, x, te).s.log, l.region, l.c.logLen);
    SourceKept(l, te);
  }

  lemma SourceKept(l: Live, te: T.Event)
    requires TT.Inv(l.c, l.s) && T.Enabled(l.c, l.s, te) && !te.Env? && l.c.op.WRITE?
    ensures T.Apply(l.c, l.s, te).remote == l.s.remote
  {
    TR.StepTouches(l.c, l.s, te);
  }

  lemma WriterOwns(g: State, e: Event, x: nat)
    requires Inv(g) && Enabled(g, e) && x in g.transfers && g.transfers[x].c.op.WRITE?
    requires e != FinishTransfer(x) && !(e.StepTransfer? && e.x == x)
    ensures Writes(g, e) != Some(g.transfers[x].region) && SameTransfer(g, Apply(g, e), x)
  {
    hide Sound, Layout, Reserved;
    assert Busy(g, g.transfers[x].region);
    if e.StepTransfer? { assert Compatible(g.transfers[x], g.transfers[e.x]); }
  }

  /** While a bulk write is in flight, no event changes a byte of its region past the write's
      rounded-up end. */
  lemma InFlightStep(g: State, e: Event, x: nat)
    requires Inv(g) && Enabled(g, e) && x in g.transfers && g.transfers[x].c.op.WRITE? && e != FinishTransfer(x)
    ensures SameTransfer(g, Apply(g, e), x)
    ensures RestKept(g.log, Apply(g, e).log, g.transfers[x].region, g.transfers[x].c.logLen)
  {
    hide TT.Inv, TT.Told, T.Enabled, T.Apply, Layout, Reserved;
    var l := g.transfers[x];
    if e.StepTransfer? && e.x == x {
      OwnStepKeepsRest(g, x, e.e);
    } else {
      assert Sound(g.log, g.views[l.region], l) && Shows(g.log, l.region, g.views[l.region]);
      WriterOwns(g, e, x);
      OnlyOwnRegion(g, e, l.region);
      SameRegionRest(g.log, Apply(g, e).log, l.region, l.c.logLen);
    }
  }

  lemma {:induction false} InFlightRun(g: State, es: seq<Event>, x: nat)
    requires Inv(g) && Legal(g, es) && x in g.transfers && g.transfers[x].c.op.WRITE?
    requires FinishTransfer(x) !in es
    ensures Inv(Run(g, es)) && SameTransfer(g, Run(g, es), x)
    ensures RestKept(g.log, Run(g, es).log, g.transfers[x].region, g.transfers[x].c.logLen)
    decreases |es|
  {
    hide Inv, Enabled, Apply, RestKept;
    if es == [] {
      NothingChanged(g, x);
    } else {
      InFlightStep(g, es[0], x);
      StepInv(g, es[0]);
      InFlightRun(Apply(g, es[0]), es[1..], x);
      var r, n := g.transfers[x].region, g.transfers[x].c.logLen;
      RestKeptTwice(g.log, Apply(g, es[0]).log, Run(g, es).log, r, n);
    }
  }

  lemma NothingChanged(g: State, x: nat)
    requires Inv(g) && x in g.transfers && g.transfers[x].c.op.WRITE?
    ensures RestKept(g.log, g.log, g.transfers[x].region, g.transfers[x].c.logLen)
  {
    hide TT.Inv, TT.Told, Layout, Reserved;
    var l := g.transfers[x];
    assert Shows(g.log, l.region, g.views[l.region]) && Sound(g.log, g.views[l.region], l);
  }

  lemma RestKeptTwice(log: seq<byte>, mid: seq<byte>, log': seq<byte>, r: Region, from: nat)
    requires RestKept(log, mid, r, from) && RestKept(mid, log', r, from)
    ensures RestKept(log, log', r, from)
  {}

  /** What a bulk write is when it starts. */
  lemma StartedWrite(g: State, e: Event)
    requires Inv(g) && Enabled(g, e) && e.StartTransfer? && e.op.WRITE?
    ensures Apply(g, e).log == g.log && e.x in Apply(g, e).transfers
    ensures var l := Apply(g, e).transfers[e.x];
            && l.region == e.region && l.c.op.WRITE? && l.s.remote == e.remote
            && l.c.remoteStart == e.remoteOffset && l.c.transmit == e.size - e.remoteOffset
            && l.c.logLen == AlignUp(e.size - e.remoteOffset, g.a)
  {
    hide Sound, Reserved, Refines, Running;
    var r := e.region;
    EndOfWrite(g.a, r.off, e.size - e.remoteOffset);
  }

  /** From the start of a bulk write, over any run in which it is in flight, and past its end: every
      byte of the region past the rounded-up end of the write is what it was, known or not. */
  lemma PastTheEndKept(g: State, e: Event, es: seq<Event>, h: State)
    requires Inv(g) && Enabled(g, e) && e.StartTransfer? && e.op.WRITE?
    requires Legal(Apply(g, e), es) && FinishTransfer(e.x) !in es && h == Run(Apply(g, e), es)
    ensures g.a > 0 && RestKept(g.log, h.log, e.region, AlignUp(e.size - e.remoteOffset, g.a))
    ensures CanFinish(h, e.x) ==>
              RestKept(g.log, AfterFinish(h, e.x).log, e.region, AlignUp(e.size - e.remoteOffset, g.a))
  {
    StepInv(g, e);
    StartedWrite(g, e);
    Positive(g);
    hide Inv, Enabled, Apply, RestKept;
    InFlightRun(Apply(g, e), es, e.x);
  }

  lemma Positive(g: State)
    requires Inv(g)
    ensures 0 < g.a <= g.poolMax
  {}

  /** An eager write, complete or not, leaves every byte past its rounded-up end alone. */
  lemma EagerRestKept(g: State, r: Region, data: seq<byte>, left: seq<byte>, n: int)
    requires Inv(g) && Enabled(g, WriteRaw(r, 0, data, left, n)) && |data| <= r.size
    ensures RestKept(g.log, Apply(g, WriteRaw(r, 0, data, left, n)).log, r, AlignUp(|data|, g.a))
  {
    hide Running, Reserved;
    assert Shows(g.log, r, g.views[r]);
    RawFits(g.a, |data|, r);
    TR.SpliceWithin(g.log, r.off, left, r.off, r.off + |left|);
    hide Layout, Refines;
    OutsideRest(g.log, Overwrite(g.log, r.off, left), r, |left|);
  }

  lemma EndOfWrite(a: nat, off: nat, n: nat)
    requires a > 0 && off % a == 0
    ensures AlignUp(off + n, a) == off + AlignUp(n, a) && AlignDown(off, a) == off
  {
    AlignFacts(n, a);
    SumOfMultiples(off, AlignUp(n, a), a);
    AlignOptimal(off + n, off + AlignUp(n, a), a);
    AlignFacts(off + n, a);
    SumOfMultiples(off, AlignUp(off + n, a), a);
    AlignOptimal(n, AlignUp(off + n, a) - off, a);
  }

  // ---------- where a bulk read puts its bytes ----------

  /** An event that does not write the region, while nobody is writing it, leaves its bytes alone. */
  lemma BytesStay(g: State, e: Event, r: Region)
    requires Inv(g) && Enabled(g, e) && r in g.views && !Writing(g, r) && !Mutates(e, r)
    ensures SameRegion(g.log, Apply(g, e).log, r)
  {
    hide Sound, Layout, Reserved, T.Enabled, T.Apply;
    assert Shows(g.log, r, g.views[r]);
    if e.StepTransfer? && g.transfers[e.x].region == r {
      StepSeen(g.log, g.views[r], g.transfers[e.x], e.e);
    } else if Writes(g, e) != Some(r) {
      OnlyOwnRegion(g, e, r);
    }
  }

  /** Read x of g goes on in h: the same transfer, no byte of the client's buffer changed outside its
      range, and no byte of the region at all. */
  ghost predicate ReadGoesOn(g: State, h: State, x: nat)
    requires x in g.transfers
  {
    x in h.transfers &&
    var l, m := g.transfers[x], h.transfers[x];
    && m.region == l.region && m.c == l.c && SameRegion(g.log, h.log, l.region)
    && TR.SameOutside(l.s.remote, m.s.remote, l.c.remoteStart, l.c.remoteStart + l.c.transmit)
  }

  lemma OwnReadStep(g: State, x: nat, te: T.Event)
    requires Inv(g) && CanStep(g, x, te) && g.transfers[x].c.op.READ?
    ensures ReadGoesOn(g, AfterStep(g, x, te), x)
  {
    hide TT.Inv, TT.Told, T.Enabled, T.Apply, Layout, Reserved;
    var l := g.transfers[x];
    assert Shows(g.log, l.region, g.views[l.region]);
    StepSeen(g.log, g.views[l.region], l, te);
    BufferKept(l, te);
  }

  lemma BufferKept(l: Live, te: T.Event)
    requires TT.Inv(l.c, l.s) && T.Enabled(l.c, l.s, te) && !te.Env?
    ensures TR.SameOutside(l.s.remote, T.Apply(l.c, l.s, te).remote, l.c.remoteStart, l.c.remoteStart + l.c.transmit)
  {
    TR.StepTouches(l.c, l.s, te);
  }

  lemma ReaderKeepsOut(g: State, e: Event, x: nat)
    requires Inv(g) && Enabled(g, e) && x in g.transfers && g.transfers[x].c.op.READ?
    ensures !Writing(g, g.transfers[x].region) && !Mutates(e, g.transfers[x].region)
  {
    hide Sound, Layout, Reserved, Refines;
    assert Busy(g, g.transfers[x].region);
    forall y | y in g.transfers && g.transfers[y].region == g.transfers[x].region
      ensures g.transfers[y].c.op.READ?
    {
      if y != x { assert Compatible(g.transfers[x], g.transfers[y]); }
    }
  }

  lemma OtherStaysRead(g: State, e: Event, x: nat)
    requires Enabled(g, e) && x in g.transfers && e != FinishTransfer(x) && !(e.StepTransfer? && e.x == x)
    ensures x in Apply(g, e).transfers && Apply(g, e).transfers[x] == WithLog(g.transfers[x], Apply(g, e).transfers[x].s.log)
  {}

  lemma ReadStep(g: State, e: Event, x: nat)
    requires Inv(g) && Enabled(g, e) && x in g.transfers && g.transfers[x].c.op.READ? && e != FinishTransfer(x)
    ensures ReadGoesOn(g, Apply(g, e), x)
  {
    if e.StepTransfer? && e.x == x {
      OwnReadStep(g, x, e.e);
    } else {
      InViews(g, x);
      ReaderKeepsOut(g, e, x);
      BytesStay(g, e, g.transfers[x].region);
      OtherStaysRead(g, e, x);
    }
  }

  lemma InViews(g: State, x: nat)
    requires Inv(g) && x in g.transfers
    ensures g.transfers[x].region in g.views && EndOf(g.transfers[x].region) <= |g.log|
  {
    hide Sound, Reserved, Refines;
  }

  lemma {:induction false} ReadRun(g: State, es: seq<Event>, x: nat)
    requires Inv(g) && Legal(g, es) && x in g.transfers && g.transfers[x].c.op.READ? && FinishTransfer(x) !in es
    ensures Inv(Run(g, es)) && ReadGoesOn(g, Run(g, es), x)
    decreases |es|
  {
    hide Inv, Enabled, Apply;
    if es == [] {
      InViews(g, x);
    } else {
      ReadStep(g, es[0], x);
      StepInv(g, es[0]);
      ReadRun(Apply(g, es[0]), es[1..], x);
    }
  }

  /** What a bulk read is when it starts. */
  lemma StartedRead(g: State, e: Event)
    requires Inv(g) && Enabled(g, e) && e.StartTransfer? && e.op.READ?
    ensures Apply(g, e).log == g.log && e.x in Apply(g, e).transfers
    ensures var l := Apply(g, e).transfers[e.x];
            && l.region == e.region && l.c.op.READ? && l.s.remote == e.remote
            && l.c.remoteStart == e.remoteOffset && l.c.transmit == e.size - e.remoteOffset
            && l.c.logStart + l.c.skip == e.region.off + e.offset
  {
    hide Sound, Reserved, Refines, Running;
    TT.SetupFits(e.op, g.a, g.poolMax, e.region.off, e.region.size, e.offset, e.remoteOffset, e.size);
  }

  /** A bulk read that returned 0, whatever ran in between: the client's buffer holds, from the bulk offset
      to the size asked for, the region's bytes from the region offset on, as they are and as they were
      when the read started; every other byte of the buffer is what it was. */
  lemma BulkReadReads(g: State, e: Event, es: seq<Event>, h: State)
    requires e.StartTransfer? && e.op.READ? && e.remoteOffset < e.size
    requires CanFinish(h, e.x) && h.transfers[e.x].s.result == Some(0) && h.transfers[e.x].told
    requires Inv(g) && Enabled(g, e)
    requires Legal(Apply(g, e), es) && FinishTransfer(e.x) !in es && h == Run(Apply(g, e), es)
    ensures ReadInto(h.transfers[e.x].s.remote, e.remote, e.remoteOffset, e.size, h.log, e.region.off + e.offset)
    ensures ReadInto(h.transfers[e.x].s.remote, e.remote, e.remoteOffset, e.size, g.log, e.region.off + e.offset)
  {
    hide Inv, Enabled, Apply, Legal, Run, Sound, TT.Setup;
    ReadArrived(g, e, es, h);
    FinishedRead(h, e.x);
    StartLog(g.log, h.log, e.region, e.offset, e.size - e.remoteOffset);
  }

  lemma ReadArrived(g: State, e: Event, es: seq<Event>, h: State)
    requires e.StartTransfer? && e.op.READ? && Inv(g) && Enabled(g, e)
    requires Legal(Apply(g, e), es) && FinishTransfer(e.x) !in es && h == Run(Apply(g, e), es)
    ensures Inv(h) && e.x in h.transfers && SameRegion(g.log, h.log, e.region)
    ensures var l := h.transfers[e.x];
            && l.region == e.region && l.c.op.READ? && e.remoteOffset <= e.size
            && l.c.remoteStart == e.remoteOffset && l.c.transmit == e.size - e.remoteOffset
            && l.c.logStart + l.c.skip == e.region.off + e.offset
            && TR.SameOutside(e.remote, l.s.remote, e.remoteOffset, e.size)
  {
    StepInv(g, e);
    StartedRead(g, e);
    hide Inv, Apply;
    ReadRun(Apply(g, e), es, e.x);
  }

  /** The buffer `now` was `before`, but for the bytes from number `from` to number `to`, which are those of
      the log from `at` on. */
  ghost predicate ReadInto(now: seq<byte>, before: seq<byte>, from: nat, to: nat, log: seq<byte>, at: nat) {
    && from <= to <= |now| == |before| && at + (to - from) <= |log|
    && now[from..to] == log[at..at + (to - from)]
    && forall p :: 0 <= p < |now| && !(from <= p < to) ==> now[p] == before[p]
  }

  lemma FinishedRead(h: State, x: nat)
    requires Inv(h) && ReadDone(h, x)
    ensures var l := h.transfers[x];
            var lo, n := l.c.logStart + l.c.skip, l.c.transmit;
            && l.c.remoteStart + n <= |l.s.remote|
            && l.region.off <= lo && lo + n <= EndOf(l.region) <= |h.log|
            && l.s.remote[l.c.remoteStart..l.c.remoteStart + n] == h.log[lo..lo + n]
  {
    hide TT.Inv, TT.Told, Layout, Reserved, Running;
    TransferIsSound(h, x);
    var l := h.transfers[x];
    InsideRegion(h.log, h.views[l.region], l);
    FinishedDelivered(h.log, h.views[l.region], l);
  }

  lemma StartLog(log: seq<byte>, log': seq<byte>, r: Region, offset: nat, n: nat)
    requires SameRegion(log, log', r) && offset + n <= r.size
    ensures log'[r.off + offset..r.off + offset + n] == log[r.off + offset..r.off + offset + n]
  {
    TD.SubSlice(log, r.off, r.size, offset, n);
    TD.SubSlice(log', r.off, r.size, offset, n);
  }

  // ---------- bulk create, write, persist ----------

  /** The source of a bulk write that returned 0 is at the start of its region. */
  lemma BulkWriteWrites(g: State, e: Event, es: seq<Event>, h: State)
    requires e.StartTransfer? && e.op.WRITE? && e.remoteOffset <= e.size <= |e.remote|
    requires CanFinish(h, e.x) && h.transfers[e.x].s.result == Some(0) && h.transfers[e.x].told
    requires Inv(g) && Enabled(g, e)
    requires Legal(Apply(g, e), es) && FinishTransfer(e.x) !in es && h == Run(Apply(g, e), es)
    ensures Inv(h) && Wrote(h, FinishTransfer(e.x), e.region, e.remote[e.remoteOffset..e.size])
  {
    hide Inv, Enabled, Apply, Wrote;
    StepInv(g, e);
    StartedWrite(g, e);
    InFlightRun(Apply(g, e), es, e.x);
    FinishWrites(h, e.x, e.remote[e.remoteOffset..e.size]);
  }

  lemma FinishWrites(h: State, x: nat, data: seq<byte>)
    requires CanFinish(h, x) && h.transfers[x].c.op.WRITE? && h.transfers[x].s.result == Some(0) && h.transfers[x].told
    requires data == Payload(h.transfers[x])
    ensures Wrote(h, FinishTransfer(x), h.transfers[x].region, data)
  {}

  /** The default composition of a bulk create-write-persist: the region is created, and the write
      starts in it after any run that does not write or remove it. The region is new; if the write
      returns 0, its source is at the start of the region, and stays there over any such run. */
  lemma BulkCreateWrite(g: State, i: nat, size: nat, tail: seq<byte>, before: seq<Event>, e: Event,
                        during: seq<Event>, h: State, after: seq<Event>)
    requires e.StartTransfer? && e.op.WRITE? && e.remoteOffset <= e.size <= |e.remote| && FinishTransfer(e.x) !in during
    requires CanFinish(h, e.x) && h.transfers[e.x].s.result == Some(0) && h.transfers[e.x].told
    requires Inv(g) && Enabled(g, Reserve(i, size)) && Enabled(Apply(g, Reserve(i, size)), EndBlock(i, tail, true))
    requires e.region == Region(g.logOffset, AlignUp(size, g.a))
    requires var g1 := Apply(Apply(g, Reserve(i, size)), EndBlock(i, tail, true));
             && Legal(g1, before) && Enabled(Run(g1, before), e)
             && Legal(Apply(Run(g1, before), e), during) && h == Run(Apply(Run(g1, before), e), during)
    requires Legal(AfterFinish(h, e.x), after) && forall f :: f in after ==> !Mutates(f, e.region)
    ensures e.region !in g.views && size <= e.region.size
    ensures LogHas(Run(AfterFinish(h, e.x), after).log, e.region, e.remote[e.remoteOffset..e.size])
  {
    var g1 := Apply(Apply(g, Reserve(i, size)), EndBlock(i, tail, true));
    CreatedRegion(g, i, size, tail);
    hide Inv;
    LogRefinesViews(g1, before);
    BulkWriteWrites(Run(g1, before), e, during, h);
    ReadAfterWrite(h, FinishTransfer(e.x), after, Run(AfterFinish(h, e.x), after), e.region,
                   e.remote[e.remoteOffset..e.size]);
  }

  /** The two halves of a create make a new region with room for what was asked. */
  lemma CreatedRegion(g: State, i: nat, size: nat, tail: seq<byte>)
    requires Inv(g) && Enabled(g, Reserve(i, size)) && Enabled(Apply(g, Reserve(i, size)), EndBlock(i, tail, true))
    ensures var h := Apply(Apply(g, Reserve(i, size)), EndBlock(i, tail, true));
            var r := Region(g.logOffset, AlignUp(size, g.a));
            && Inv(h) && h.a == g.a && r !in g.views && r in h.views && !Busy(h, r) && size <= r.size
  {
    AlignFacts(size, g.a);
    StepInv(g, Reserve(i, size));
    var g1 := Apply(g, Reserve(i, size));
    StepInv(g1, EndBlock(i, tail, true));
    hide Sound, Shows, Refines;
    PendingLast(g1, i);
    NotBusy(g1, g1.pending[i]);
  }

  lemma NotBusy(g: State, r: Region)
    requires Inv(g) && r !in g.views
    ensures !Busy(g, r)
  {}

  /** The default eager create-write-persist works exactly for one block: the region it creates
      always has room, a complete write puts the data in the log, and it reports success if and
      only if the data fits in a block. */
  lemma EagerCreateWritePersist(g: State, i: nat, tail: seq<byte>, data: seq<byte>, left: seq<byte>)
    requires Inv(g) && data != [] && Enabled(g, Reserve(i, |data|))
    requires Enabled(Apply(g, Reserve(i, |data|)), EndBlock(i, tail, true))
    requires var r := Region(g.logOffset, AlignUp(|data|, g.a));
             Enabled(Apply(Apply(g, Reserve(i, |data|)), EndBlock(i, tail, true)), WriteRaw(r, 0, data, left, |left|))
    ensures var h := Apply(Apply(g, Reserve(i, |data|)), EndBlock(i, tail, true));
            var r := Region(g.logOffset, AlignUp(|data|, g.a));
            && r !in g.views
            && (WriteRawCode(h.a, r, 0, |data|, |left|) == Success <==> |data| <= g.a)
            && LogHas(Apply(h, WriteRaw(r, 0, data, left, |left|)).log, r, data)
            && Holds(Apply(h, WriteRaw(r, 0, data, left, |left|)).views[r], data)
  {
    CreatedRegion(g, i, |data|, tail);
    var h := Apply(Apply(g, Reserve(i, |data|)), EndBlock(i, tail, true));
    var r := Region(g.logOffset, AlignUp(|data|, g.a));
    hide Inv, Holds;
    EagerWriteCode(h, r, 0, data, left, |left|);
    WroteHolds(h, WriteRaw(r, 0, data, left, |left|), r, data);
    HeldIsLogged(Apply(h, WriteRaw(r, 0, data, left, |left|)), r, data);
  }
}
