/** The file backend as its clients see it: a map from regions to bytes kept in one log, under
    any interleaving of the two halves of creates, removes, eager reads and writes, and single
    steps of bulk transfers on any number of regions. */
module FileBackend {
  import opened Basics
  import opened Bits
  import T = Transfer
  import TI = TransferInvariant
  import TD = TransferData
  import TT = TransferTheorems
  import TR = TransferResults

  datatype Code = Success | OutOfBounds | Unsupported | IoError

  /** What the client may rely on about one byte of a region. */
  datatype Cell = Unknown | Known(b: byte)

  type View = seq<Cell>

  /** A bulk transfer in flight: transfer_data's config and state. `told` says that none of its log
      I/O has reported zero bytes, which the code takes for success. */
  datatype Live = Live(region: Region, c: T.Config, s: T.State, told: bool)

  datatype State = State(
    a: nat,                        // log_alignment
    poolMax: nat,                  // largest poolset buffer
    log: seq<byte>,
    logOffset: nat,
    pending: map<nat, Region>,     // creates that have reserved their extent, before their end block
    views: map<Region, View>,      // every region created, with what is known of its bytes
    transfers: map<nat, Live>)

  datatype Event =
    | Reserve(i: nat, size: nat)                      // create, under the mutex
    | EndBlock(i: nat, tail: seq<byte>, ok: bool)     // create, after it
    | Remove(region: Region, left: seq<byte>, ok: bool)
    | WriteRaw(region: Region, offset: nat, data: seq<byte>, left: seq<byte>, n: int)
    | ReadRaw(region: Region, offset: nat, size: nat, buf: seq<byte>, n: int)
    | StartTransfer(x: nat, region: Region, op: T.Op, offset: nat, remote: seq<byte>, remoteOffset: nat, size: nat)
    | StepTransfer(x: nat, e: T.Event)
    | FinishTransfer(x: nat)

  // ---------- views ----------

  /** The first n bytes are no longer known. */
  function Blur(v: View, n: nat): (w: View)
    ensures |w| == |v|
  {
    seq(|v|, i requires 0 <= i < |v| => if i < n then Unknown else v[i])
  }

  /** The first |data| bytes are known to be data. */
  function Note(v: View, data: seq<byte>): (w: View)
    ensures |w| == |v|
  {
    seq(|v|, i requires 0 <= i < |v| => if i < |data| then Known(data[i]) else v[i])
  }

  ghost predicate Shows(log: seq<byte>, r: Region, v: View) {
    && |v| == r.size
    && r.off + r.size <= |log|
    && forall i :: 0 <= i < |v| && v[i].Known? ==> log[r.off + i] == v[i].b
  }

  // ---------- raw access ----------

  /** bake_file_write_raw's return code, given the byte count the pwrite of the rounded-up
      buffer reported. The code compares that count with the alignment, not with the length. */
  function WriteRawCode(a: nat, r: Region, offset: nat, size: nat, n: int): Code
    requires a > 0
  {
    if offset != 0 then Unsupported
    else if size + offset > r.size then OutOfBounds
    else if n != a then IoError
    else Success
  }

  function RawStart(a: nat, r: Region, offset: nat): nat
    requires a > 0
  {
    AlignDown(r.off + offset, a)
  }

  function RawEnd(a: nat, r: Region, offset: nat, size: nat): nat
    requires a > 0
  {
    AlignUp(r.off + offset + size, a)
  }

  function ReadRawCode(a: nat, r: Region, offset: nat, size: nat, n: int): Code
    requires a > 0
  {
    if size + offset > r.size then OutOfBounds
    else if n != a then IoError
    else Success
  }

  /** The bytes read_raw hands to its caller: the bounce buffer from the natural start on. */
  function RawBytes(a: nat, r: Region, offset: nat, size: nat, buf: seq<byte>): seq<byte>
    requires a > 0 && RawStart(a, r, offset) <= r.off + offset
    requires r.off + offset - RawStart(a, r, offset) + size <= |buf|
  {
    var skip := r.off + offset - RawStart(a, r, offset);
    buf[skip..skip + size]
  }

  // ---------- steps ----------

  predicate Busy(g: State, r: Region) {
    exists x :: x in g.transfers && g.transfers[x].region == r
  }

  predicate Writing(g: State, r: Region) {
    exists x :: x in g.transfers && g.transfers[x].region == r && g.transfers[x].c.op.WRITE?
  }

  /** log with the extent of r replaced. */
  function Overwrite(log: seq<byte>, at: nat, data: seq<byte>): seq<byte> { T.Splice(log, at, data) }

  /** The file after bytes were stored from position `at` on: a gap before them reads as zeros. */
  function Stored(log: seq<byte>, at: nat, left: seq<byte>): (log': seq<byte>)
    ensures |log'| >= |log|
  {
    if left == [] then log
    else if |log| <= at then log + seq(at - |log|, _ => 0) + left
    else if at + |left| <= |log| then log[..at] + left + log[at + |left|..]
    else log[..at] + left
  }

  /** The log after create's end block: a gap left by earlier failures reads as zeros, and the
      block itself is whatever the unset buffer held. */
  function Extended(log: seq<byte>, end: nat, tail: seq<byte>): seq<byte> {
    if |log| + |tail| <= end then log + seq(end - |tail| - |log|, _ => 0) + tail else log + tail
  }

  /** A protocol step of transfer x. */
  predicate CanStep(g: State, x: nat, te: T.Event) {
    x in g.transfers && !te.Env? && T.Enabled(g.transfers[x].c, g.transfers[x].s, te)
  }

  function Stepped(g: State, x: nat, te: T.Event): Live
    requires CanStep(g, x, te)
  {
    var l := g.transfers[x];
    l.(s := T.Apply(l.c, l.s, te), told := l.told && TT.Telling(l.c, te))
  }

  /** A create's end block is stored before anybody else reserves, so that it falls at the end of
      its own extent; what happens otherwise is the subject of module SplitCreate. */
  ghost predicate Enabled(g: State, e: Event) {
    match e
    case Reserve(i, size) => size > 0 && g.a > 0 && i !in g.pending
    case EndBlock(i, tail, ok) =>
      i in g.pending && EndOf(g.pending[i]) == g.logOffset
      && |g.log| + |tail| <= g.logOffset && (ok ==> |tail| == g.a)
    case Remove(r, left, ok) => r in g.views && !Busy(g, r) && |left| == r.size && (ok ==> left == seq(r.size, _ => 0))
    case WriteRaw(r, offset, data, left, n) =>
      r in g.views && !Busy(g, r) && g.a > 0 &&
      if offset != 0 || |data| + offset > r.size then left == []
      else
        && |left| == AlignUp(|data|, g.a) && n <= |left|
        && (n == |left| ==> |data| <= |left| && left[..|data|] == data)
    case ReadRaw(r, offset, size, buf, n) =>
      r in g.views && !Writing(g, r) && g.a > 0 &&
      if size + offset > r.size then buf == []
      else
        var lo, hi := RawStart(g.a, r, offset), RawEnd(g.a, r, offset, size);
        && lo <= hi && |buf| == hi - lo && n <= |buf|
        && (n >= 0 && hi <= |g.log| ==> buf[..n] == g.log[lo..lo + n])
    case StartTransfer(x, r, op, offset, remote, remoteOffset, size) =>
      && x !in g.transfers && r in g.views && g.a > 0 && remoteOffset <= size
      && (if op.WRITE? then !Busy(g, r) && offset == 0 else !Writing(g, r))
      && TT.Setup(op, g.a, g.poolMax, r.off, r.size, offset, remoteOffset, size).Some?
      && g.poolMax > 0
    case StepTransfer(x, te) => CanStep(g, x, te)
    case FinishTransfer(x) => CanFinish(g, x)
  }

  /** Everybody's transfer sees the new log. */
  function Spread(transfers: map<nat, Live>, log: seq<byte>): map<nat, Live> {
    map x | x in transfers :: transfers[x].(s := transfers[x].s.(log := log))
  }

  function SetLog(g: State, log: seq<byte>): State {
    g.(log := log, transfers := Spread(g.transfers, log))
  }

  /** The bytes a finished write put at the start of its region. */
  function Payload(l: Live): seq<byte> {
    if l.c.remoteStart + l.c.transmit <= |l.s.remote|
    then l.s.remote[l.c.remoteStart..l.c.remoteStart + l.c.transmit] else []
  }

  function AfterStep(g: State, x: nat, te: T.Event): State
    requires CanStep(g, x, te)
  {
    var l := Stepped(g, x, te);
    g.(log := l.s.log, transfers := Spread(g.transfers, l.s.log)[x := l])
  }

  predicate CanFinish(g: State, x: nat) {
    x in g.transfers && g.transfers[x].s.result.Some? && g.transfers[x].region in g.views
  }

  function AfterFinish(g: State, x: nat): State
    requires CanFinish(g, x)
  {
    var l := g.transfers[x];
    var g1 := g.(transfers := g.transfers - {x});
    if l.c.op.WRITE? && l.s.result == Some(0) && l.told
    then g1.(views := g.views[l.region := Note(g.views[l.region], Payload(l))]) else g1
  }

  ghost function Apply(g: State, e: Event): State
    requires Enabled(g, e)
  {
    match e
    case Reserve(i, size) =>
      var r := Region(g.logOffset, AlignUp(size, g.a));
      g.(logOffset := EndOf(r), pending := g.pending[i := r])
    case EndBlock(i, tail, ok) =>
      var r, g1 := g.pending[i], g.(pending := g.pending - {i});
      if ok then SetLog(g1, Extended(g.log, g.logOffset, tail)).(views := g.views[r := seq(r.size, _ => Unknown)])
      else SetLog(g1, g.log + tail)
    case Remove(r, left, ok) =>
      SetLog(g, Overwrite(g.log, r.off, left)).(
        views := g.views[r := if ok then Note(g.views[r], left) else Blur(g.views[r], r.size)])
    case WriteRaw(r, offset, data, left, n) =>
      if offset != 0 || |data| + offset > r.size then g else
      var v := Blur(g.views[r], |left|);
      SetLog(g, Overwrite(g.log, r.off, left)).(
        views := g.views[r := if n == |left| then Note(v, data) else v])
    case ReadRaw(_, _, _, _, _) => g
    case StartTransfer(x, r, op, offset, remote, remoteOffset, size) =>
      var c := TT.Setup(op, g.a, g.poolMax, r.off, r.size, offset, remoteOffset, size).value;
      var g1 := if op.WRITE? then g.(views := g.views[r := Blur(g.views[r], c.logLen)]) else g;
      g1.(transfers := g1.transfers[x := Live(r, c, TT.Init(c, g.log, remote), true)])
    case StepTransfer(x, te) => AfterStep(g, x, te)
    case FinishTransfer(x) => AfterFinish(g, x)
  }

  // ---------- invariant ----------

  ghost predicate Layout(g: State) {
    && 0 < g.a <= g.poolMax
    && g.logOffset % g.a == 0
    && SUPERBLOCK <= |g.log| <= g.logOffset
    && (forall r :: r in g.views ==>
          && r.off % g.a == 0 && r.size % g.a == 0 && 0 < r.size
          && SUPERBLOCK <= r.off && r.off + r.size <= |g.log|)
    && (forall r, q :: r in g.views && q in g.views && r != q ==> Apart(r, q))
  }

  ghost predicate Refines(g: State) {
    forall r :: r in g.views ==> Shows(g.log, r, g.views[r])
  }

  /** Extents reserved and not yet finished lie past the superblock, apart from every region and from
      one another, and nothing is stored yet in or past the last one. */
  ghost predicate Reserved(a: nat, logOffset: nat, len: nat, pending: map<nat, Region>, regions: set<Region>)
    requires a > 0
  {
    && (forall i :: i in pending ==>
          var r := pending[i];
          && r.off % a == 0 && r.size % a == 0 && 0 < r.size && SUPERBLOCK <= r.off
          && EndOf(r) <= logOffset && (EndOf(r) == logOffset ==> len <= r.off))
    && (forall i, q :: i in pending && q in regions ==> Apart(pending[i], q))
    && (forall i, j :: i in pending && j in pending && i != j ==> Apart(pending[i], pending[j]))
  }

  /** A transfer stays inside its region, what it may overwrite is not relied on, and its own
      protocol invariant holds of the shared log. */
  ghost predicate Sound(log: seq<byte>, v: View, l: Live) {
    && T.WellFormed(l.c)
    && l.region.off <= l.c.logStart && l.c.logStart + l.c.logLen <= l.region.off + l.region.size
    && (l.c.op.WRITE? ==>
          l.c.logStart == l.region.off && l.c.skip == 0
          && forall i :: 0 <= i < l.c.logLen && i < |v| ==> v[i].Unknown?)
    && l.s.log == log
    && TT.Inv(l.c, l.s) && (l.told ==> TT.Told(l.s))
  }

  ghost predicate Compatible(l: Live, m: Live) {
    l.region == m.region ==> l.c.op.READ? && m.c.op.READ?
  }

  ghost predicate AllCompatible(transfers: map<nat, Live>) {
    forall x, y {:trigger transfers[x], transfers[y]} ::
      x in transfers && y in transfers && x != y ==> Compatible(transfers[x], transfers[y])
  }

  ghost predicate Running(g: State) {
    && (forall x :: x in g.transfers ==>
          g.transfers[x].region in g.views && Sound(g.log, g.views[g.transfers[x].region], g.transfers[x]))
    && AllCompatible(g.transfers)
  }

  ghost predicate Inv(g: State) {
    && Layout(g) && Reserved(g.a, g.logOffset, |g.log|, g.pending, g.views.Keys)
    && Refines(g) && Running(g)
  }

  // ---------- a log change elsewhere ----------

  ghost predicate SameRegion(log: seq<byte>, log': seq<byte>, r: Region) {
    |log'| >= |log| && r.off + r.size <= |log| && log'[r.off..r.off + r.size] == log[r.off..r.off + r.size]
  }

  lemma ShowsBeside(log: seq<byte>, log': seq<byte>, r: Region, v: View)
    requires Shows(log, r, v) && SameRegion(log, log', r)
    ensures Shows(log', r, v)
  {
    forall i | 0 <= i < |v| && v[i].Known?
      ensures log'[r.off + i] == v[i].b
    {
      assert log'[r.off..r.off + r.size][i] == log[r.off..r.off + r.size][i];
    }
  }

  function WithLog(l: Live, log: seq<byte>): Live { l.(s := l.s.(log := log)) }

  lemma ProtocolBeside(c: T.Config, s: T.State, log': seq<byte>)
    requires T.WellFormed(c) && TT.Inv(c, s) && T.Enabled(c, s, T.Env(log'))
    ensures TT.Inv(c, s.(log := log')) && (TT.Told(s) ==> TT.Told(s.(log := log')))
  {
    hide TI.Lifecycle, TI.Tiling, TI.Ownership, TI.Errors, TD.Data;
    TT.InvStep(c, s, T.Env(log'));
    if TT.Told(s) { TT.ToldStep(c, s, T.Env(log')); }
  }

  lemma EnvAllowed(c: T.Config, s: T.State, log': seq<byte>, r: Region)
    requires SameRegion(s.log, log', r)
    requires r.off <= c.logStart && c.logStart + c.logLen <= r.off + r.size
    ensures T.Enabled(c, s, T.Env(log'))
  {
    var from := c.logStart - r.off;
    TD.SamePiece(s.log, log', r.off, r.size, from, c.logLen);
    assert r.off + from == c.logStart;
  }

  /** Rely: a transfer is sound whatever others do to the log outside its region. */
  lemma SoundBeside(log: seq<byte>, log': seq<byte>, v: View, l: Live)
    requires Sound(log, v, l) && SameRegion(log, log', l.region)
    ensures Sound(log', v, WithLog(l, log'))
  {
    hide TT.Inv, TT.Told, T.Enabled;
    EnvAllowed(l.c, l.s, log', l.region);
    ProtocolBeside(l.c, l.s, log');
  }

  lemma SameOther(log: seq<byte>, at: nat, data: seq<byte>, r: Region)
    requires r.off + r.size <= |log| && (r.off + r.size <= at || at + |data| <= r.off)
    ensures SameRegion(log, Overwrite(log, at, data), r)
  {
    TD.SpliceElsewhere(log, at, data, r.off, r.off + r.size);
  }

  /** Replacing the log keeps everything that does not live in region `own`. */
  lemma OthersKept(g: State, log': seq<byte>, own: Region)
    requires Inv(g) && |log'| >= |g.log| && !Busy(g, own)
    requires forall r :: r in g.views && r != own ==> SameRegion(g.log, log', r)
    ensures forall r :: r in g.views && r != own ==> Shows(log', r, g.views[r])
    ensures forall x :: x in g.transfers ==>
              Sound(log', g.views[g.transfers[x].region], WithLog(g.transfers[x], log'))
  {
    hide Sound;
    forall r | r in g.views && r != own
      ensures Shows(log', r, g.views[r])
    {
      ShowsBeside(g.log, log', r, g.views[r]);
    }
    forall x | x in g.transfers
      ensures Sound(log', g.views[g.transfers[x].region], WithLog(g.transfers[x], log'))
    {
      SoundBeside(g.log, log', g.views[g.transfers[x].region], g.transfers[x]);
    }
  }

  // ---------- whole operations on one region ----------

  lemma NoteShows(log: seq<byte>, r: Region, v: View, data: seq<byte>, n: nat)
    requires Shows(log, r, Blur(v, n)) && |v| == r.size && |data| <= n && |data| <= r.size
    requires log[r.off..r.off + |data|] == data
    ensures Shows(log, r, Note(Blur(v, n), data))
  {
    forall i | 0 <= i < |data|
      ensures log[r.off + i] == data[i]
    {
      assert log[r.off..r.off + |data|][i] == log[r.off + i];
    }
  }

  lemma BlurShows(log: seq<byte>, r: Region, v: View, left: seq<byte>)
    requires Shows(log, r, v) && |left| <= r.size
    ensures Shows(Overwrite(log, r.off, left), r, Blur(v, |left|))
    ensures Overwrite(log, r.off, left)[r.off..r.off + |left|] == left
  {
    TD.SpliceHere(log, r.off, left);
  }

  ghost predicate OwnsLog(g: State, h: State, r: Region) {
    && h.a == g.a && h.poolMax == g.poolMax && h.logOffset == g.logOffset && h.pending == g.pending
    && |h.log| == |g.log|
    && h.transfers == Spread(g.transfers, h.log)
    && h.views.Keys == g.views.Keys
    && (forall q :: q in g.views && q != r ==> h.views[q] == g.views[q])
  }

  lemma LayoutOwn(g: State, h: State, r: Region)
    requires Layout(g) && OwnsLog(g, h, r)
    ensures Layout(h)
  {}

  lemma RefinesOwn(g: State, h: State, r: Region)
    requires Refines(g) && OwnsLog(g, h, r) && r in g.views
    requires forall q :: q in g.views && q != r ==> Shows(h.log, q, g.views[q])
    requires Shows(h.log, r, h.views[r])
    ensures Refines(h)
  {}

  lemma RunningOwn(g: State, h: State, r: Region)
    requires Running(g) && OwnsLog(g, h, r) && !Busy(g, r)
    requires forall x :: x in g.transfers ==>
               Sound(h.log, g.views[g.transfers[x].region], WithLog(g.transfers[x], h.log))
    ensures Running(h)
  {
    hide Sound;
    forall x | x in h.transfers
      ensures h.transfers[x].region in h.views
              && Sound(h.log, h.views[h.transfers[x].region], h.transfers[x])
    {
      assert h.transfers[x] == WithLog(g.transfers[x], h.log) && g.transfers[x].region != r;
    }
    SameAttributes(g.transfers, h.transfers);
  }

  /** A region nobody is transferring is changed as a whole. */
  lemma OwnerKeepsInv(g: State, h: State, r: Region)
    requires Inv(g) && r in g.views && !Busy(g, r) && OwnsLog(g, h, r)
    requires forall q :: q in g.views && q != r ==> SameRegion(g.log, h.log, q)
    requires Shows(h.log, r, h.views[r])
    ensures Inv(h)
  {
    hide Sound, Shows;
    OthersKept(g, h.log, r);
    LayoutOwn(g, h, r);
    RefinesOwn(g, h, r);
    RunningOwn(g, h, r);
  }

  // ---------- each event ----------

  lemma RemoveKeepsInv(g: State, r: Region, left: seq<byte>, ok: bool)
    requires Inv(g) && Enabled(g, Remove(r, left, ok))
    ensures Inv(Apply(g, Remove(r, left, ok)))
  {
    hide Sound;
    var h := Apply(g, Remove(r, left, ok));
    assert Shows(g.log, r, g.views[r]);
    RemovedShows(g.log, r, g.views[r], left);
    OthersBeside(g, r, left);
    OwnerKeepsInv(g, h, r);
  }

  lemma RemovedShows(log: seq<byte>, r: Region, v: View, left: seq<byte>)
    requires Shows(log, r, v) && |left| == r.size
    ensures Shows(Overwrite(log, r.off, left), r, Note(v, left))
    ensures Shows(Overwrite(log, r.off, left), r, Blur(v, r.size))
    ensures |Overwrite(log, r.off, left)| == |log|
  {
    BlurShows(log, r, v, left);
    NoteShows(Overwrite(log, r.off, left), r, v, left, r.size);
    assert Note(Blur(v, r.size), left) == Note(v, left);
  }

  lemma OthersBeside(g: State, r: Region, left: seq<byte>)
    requires Layout(g) && r in g.views && |left| <= r.size
    ensures forall q :: q in g.views && q != r ==> SameRegion(g.log, Overwrite(g.log, r.off, left), q)
  {
    forall q | q in g.views && q != r
      ensures SameRegion(g.log, Overwrite(g.log, r.off, left), q)
    {
      assert Apart(q, r);
      SameOther(g.log, r.off, left, q);
    }
  }

  lemma RawFits(a: nat, size: nat, r: Region)
    requires a > 0 && r.size % a == 0 && size <= r.size
    ensures AlignUp(size, a) <= r.size
  {
    AlignOptimal(size, r.size, a);
  }

  lemma WriteRawKeepsInv(g: State, r: Region, offset: nat, data: seq<byte>, left: seq<byte>, n: int)
    requires Inv(g) && Enabled(g, WriteRaw(r, offset, data, left, n))
    ensures Inv(Apply(g, WriteRaw(r, offset, data, left, n)))
  {
    hide Sound;
    if offset == 0 && |data| <= r.size {
      var h := Apply(g, WriteRaw(r, offset, data, left, n));
      RawFits(g.a, |data|, r);
      assert Shows(g.log, r, g.views[r]);
      RawWriteShows(g.log, r, g.views[r], data, left, n);
      OthersBeside(g, r, left);
      OwnerKeepsInv(g, h, r);
    }
  }

  lemma RawWriteShows(log: seq<byte>, r: Region, v: View, data: seq<byte>, left: seq<byte>, n: int)
    requires Shows(log, r, v) && |left| <= r.size
    requires n == |left| ==> |data| <= |left| && left[..|data|] == data
    ensures |Overwrite(log, r.off, left)| == |log|
    ensures Shows(Overwrite(log, r.off, left), r, Blur(v, |left|))
    ensures n == |left| ==> Shows(Overwrite(log, r.off, left), r, Note(Blur(v, |left|), data))
  {
    var log' := Overwrite(log, r.off, left);
    BlurShows(log, r, v, left);
    if n == |left| {
      TD.PrefixOfSlice(log', r.off, |left|, |data|);
      NoteShows(log', r, v, data, |left|);
    }
  }

  // Create

  lemma Grown(g: State, log': seq<byte>)
    requires Inv(g) && |log'| >= |g.log| && log'[..|g.log|] == g.log
    ensures forall r :: r in g.views ==> SameRegion(g.log, log', r)
  {
    forall r | r in g.views
      ensures SameRegion(g.log, log', r)
    {
      TD.SamePiece(g.log, log', 0, |g.log|, r.off, r.size);
    }
  }

  lemma ExtendedGrows(log: seq<byte>, end: nat, tail: seq<byte>)
    ensures |Extended(log, end, tail)| >= |log| && Extended(log, end, tail)[..|log|] == log
    ensures |log| + |tail| <= end ==> |Extended(log, end, tail)| == end
    ensures |log| + |tail| <= end ==> Extended(log, end, tail)[end - |tail|..] == tail
  {}

  /** The log grows, and at most one region appears past its old end. */
  ghost predicate Grows(g: State, h: State) {
    && h.a == g.a > 0 && h.poolMax == g.poolMax
    && |h.log| >= |g.log| && h.log[..|g.log|] == g.log
    && h.transfers == Spread(g.transfers, h.log)
    && h.logOffset % h.a == 0 && |h.log| <= h.logOffset
    && (forall q :: q in g.views ==> q in h.views && h.views[q] == g.views[q])
    && (forall q :: q in h.views && q !in g.views ==>
          && |g.log| <= q.off && q.off % g.a == 0 && q.size % g.a == 0 && 0 < q.size && q.off + q.size <= |h.log|
          && h.views[q] == seq(q.size, _ => Unknown))
    && (forall q, r :: q in h.views && r in h.views && q !in g.views && r !in g.views ==> q == r)
  }

  lemma LayoutGrows(g: State, h: State)
    requires Layout(g) && Grows(g, h)
    ensures Layout(h)
  {}

  lemma RefinesGrows(g: State, h: State)
    requires Grows(g, h)
    requires forall r :: r in g.views ==> Shows(h.log, r, g.views[r])
    ensures Refines(h)
  {
    forall r | r in h.views
      ensures Shows(h.log, r, h.views[r])
    {
      if r in g.views { assert Shows(h.log, r, g.views[r]); }
    }
  }

  lemma RunningGrows(g: State, h: State)
    requires Running(g) && Grows(g, h)
    requires forall x :: x in g.transfers ==>
               Sound(h.log, g.views[g.transfers[x].region], WithLog(g.transfers[x], h.log))
    ensures Running(h)
  {
    hide Sound;
    forall x | x in h.transfers
      ensures h.transfers[x].region in h.views
              && Sound(h.log, h.views[h.transfers[x].region], h.transfers[x])
    {
      assert h.transfers[x] == WithLog(g.transfers[x], h.log);
    }
    SameAttributes(g.transfers, h.transfers);
  }

  lemma GrowthKeepsInv(g: State, h: State)
    requires Inv(g) && Grows(g, h)
    ensures Layout(h) && Refines(h) && Running(h)
  {
    hide Sound, Shows, Reserved;
    Grown(g, h.log);
    forall r | r in g.views
      ensures Shows(h.log, r, g.views[r])
    {
      ShowsBeside(g.log, h.log, r, g.views[r]);
    }
    forall x | x in g.transfers
      ensures Sound(h.log, g.views[g.transfers[x].region], WithLog(g.transfers[x], h.log))
    {
      SoundBeside(g.log, h.log, g.views[g.transfers[x].region], g.transfers[x]);
    }
    LayoutGrows(g, h);
    RefinesGrows(g, h);
    RunningGrows(g, h);
  }

  lemma ReserveKeepsInv(g: State, i: nat, size: nat)
    requires Inv(g) && Enabled(g, Reserve(i, size))
    ensures Inv(Apply(g, Reserve(i, size)))
  {
    hide Sound, Shows, Reserved, AllCompatible;
    AlignFacts(size, g.a);
    SumOfMultiples(g.logOffset, AlignUp(size, g.a), g.a);
    ReservedMore(g.a, g.logOffset, |g.log|, g.pending, g.views.Keys, i, Region(g.logOffset, AlignUp(size, g.a)));
    var h := Apply(g, Reserve(i, size));
    assert Layout(h) && Refines(h) && Running(h);
  }

  lemma ReservedMore(a: nat, logOffset: nat, len: nat, pending: map<nat, Region>, regions: set<Region>,
                     i: nat, r: Region)
    requires a > 0 && Reserved(a, logOffset, len, pending, regions)
    requires r.off == logOffset && 0 < r.size && r.size % a == 0 && logOffset % a == 0 && SUPERBLOCK <= logOffset
    requires len <= logOffset && forall q :: q in regions ==> EndOf(q) <= logOffset
    ensures Reserved(a, EndOf(r), len, pending[i := r], regions)
  {}

  /** Whoever has reserved last may store an end block past everything in the file. */
  lemma PendingLast(g: State, i: nat)
    requires Inv(g) && i in g.pending && EndOf(g.pending[i]) == g.logOffset
    ensures var r := g.pending[i];
            && |g.log| <= r.off && r !in g.views && g.a <= r.size
            && r.off % g.a == 0 && r.size % g.a == 0 && SUPERBLOCK <= r.off && g.logOffset % g.a == 0
  {
    hide Sound, Shows;
    MultiplesApart(0, g.pending[i].size, g.a);
  }

  lemma EndBlockKeepsInv(g: State, i: nat, tail: seq<byte>, ok: bool)
    requires Inv(g) && Enabled(g, EndBlock(i, tail, ok))
    ensures Inv(Apply(g, EndBlock(i, tail, ok)))
  {
    hide Sound, Shows, Refines, Running;
    PendingLast(g, i);
    var h := Apply(g, EndBlock(i, tail, ok));
    EndBlockReserved(g, i, tail, ok);
    hide Reserved;
    ExtendedGrows(g.log, g.logOffset, tail);
    GrowthKeepsInv(g, h);
  }

  lemma EndBlockReserved(g: State, i: nat, tail: seq<byte>, ok: bool)
    requires Inv(g) && Enabled(g, EndBlock(i, tail, ok))
    ensures var h := Apply(g, EndBlock(i, tail, ok));
            h.a > 0 && Reserved(h.a, h.logOffset, |h.log|, h.pending, h.views.Keys)
  {
    hide Sound, Shows, Refines, Running;
    var h := Apply(g, EndBlock(i, tail, ok));
    forall j | j in h.pending ensures Apart(g.pending[i], g.pending[j]) && g.pending[j].size > 0 {}
  }

  // Transfers

  /** One protocol step seen from outside: only its own extent may change, and a read changes
      nothing. */
  lemma StepSeen(log: seq<byte>, v: View, l: Live, te: T.Event)
    requires Sound(log, v, l) && T.Enabled(l.c, l.s, te) && !te.Env?
    ensures var s := T.Apply(l.c, l.s, te);
            && Sound(s.log, v, l.(s := s, told := l.told && TT.Telling(l.c, te)))
            && TR.SameOutside(log, s.log, l.c.logStart, l.c.logStart + l.c.logLen)
            && (l.c.op.READ? ==> s.log == log)
  {
    hide TI.Lifecycle, TI.Tiling, TI.Ownership, TI.Errors, TD.Data, T.Apply, T.Enabled;
    TT.InvStep(l.c, l.s, te);
    if l.told && TT.Telling(l.c, te) { TT.ToldStep(l.c, l.s, te); }
    TR.StepTouches(l.c, l.s, te);
  }

  lemma OutsideIsBeside(log: seq<byte>, log': seq<byte>, lo: nat, hi: nat, r: Region)
    requires TR.SameOutside(log, log', lo, hi) && r.off + r.size <= |log|
    requires r.off + r.size <= lo || hi <= r.off
    ensures SameRegion(log, log', r)
  {
    var p, q := log[r.off..r.off + r.size], log'[r.off..r.off + r.size];
    assert forall i :: 0 <= i < r.size ==> q[i] == log'[r.off + i] && p[i] == log[r.off + i];
  }

  lemma StepBeside(g: State, x: nat, te: T.Event, q: Region)
    requires Inv(g) && CanStep(g, x, te) && q in g.views
    requires q != g.transfers[x].region || g.transfers[x].c.op.READ?
    ensures SameRegion(g.log, Stepped(g, x, te).s.log, q)
  {
    var l := g.transfers[x];
    StepSeen(g.log, g.views[l.region], l, te);
    if q != l.region {
      assert Apart(q, l.region);
      OutsideIsBeside(g.log, Stepped(g, x, te).s.log, l.c.logStart, l.c.logStart + l.c.logLen, q);
    }
  }

  /** The bytes a write in flight may change are unknown in its region's view. */
  lemma WriterShows(log: seq<byte>, log': seq<byte>, v: View, l: Live)
    requires Shows(log, l.region, v) && Sound(log, v, l) && l.c.op.WRITE?
    requires TR.SameOutside(log, log', l.c.logStart, l.c.logStart + l.c.logLen)
    ensures Shows(log', l.region, v)
  {
    forall i | 0 <= i < |v| && v[i].Known?
      ensures log'[l.region.off + i] == v[i].b
    {
      assert i >= l.c.logLen;
    }
  }

  lemma StepRefines(g: State, x: nat, te: T.Event)
    requires Inv(g) && CanStep(g, x, te)
    ensures var log' := Stepped(g, x, te).s.log;
            |log'| == |g.log| && forall r :: r in g.views ==> Shows(log', r, g.views[r])
  {
    hide TT.Inv, TT.Told;
    var l := g.transfers[x];
    var log' := Stepped(g, x, te).s.log;
    StepSeen(g.log, g.views[l.region], l, te);
    forall r | r in g.views
      ensures Shows(log', r, g.views[r])
    {
      assert Shows(g.log, r, g.views[r]);
      if r == l.region && l.c.op.WRITE? {
        WriterShows(g.log, log', g.views[r], l);
      } else {
        StepBeside(g, x, te, r);
        ShowsBeside(g.log, log', r, g.views[r]);
      }
    }
  }

  lemma StepOther(g: State, x: nat, te: T.Event, y: nat)
    requires Inv(g) && CanStep(g, x, te) && y in g.transfers && y != x
    ensures var log' := Stepped(g, x, te).s.log;
            Sound(log', g.views[g.transfers[y].region], WithLog(g.transfers[y], log'))
  {
    hide TT.Inv, TT.Told;
    var log' := Stepped(g, x, te).s.log;
    assert Compatible(g.transfers[x], g.transfers[y]);
    assert SameRegion(g.log, log', g.transfers[y].region) by { StepBeside(g, x, te, g.transfers[y].region); }
    SoundBeside(g.log, log', g.views[g.transfers[y].region], g.transfers[y]);
  }

  lemma StepRunning(g: State, x: nat, te: T.Event)
    requires Inv(g) && CanStep(g, x, te)
    ensures Running(AfterStep(g, x, te))
  {
    hide TT.Inv, TT.Told;
    var l, h := g.transfers[x], AfterStep(g, x, te);
    forall y | y in h.transfers
      ensures h.transfers[y].region in h.views && Sound(h.log, h.views[h.transfers[y].region], h.transfers[y])
    {
      if y == x { StepSeen(g.log, g.views[l.region], l, te); } else { StepOther(g, x, te, y); }
    }
    StepCompatible(g, x, te);
  }

  lemma StepCompatible(g: State, x: nat, te: T.Event)
    requires AllCompatible(g.transfers) && CanStep(g, x, te)
    ensures AllCompatible(AfterStep(g, x, te).transfers)
  {
    var h := AfterStep(g, x, te);
    SameAttributes(g.transfers, h.transfers);
  }

  /** Which region and direction each transfer has decides compatibility. */
  lemma SameAttributes(m: map<nat, Live>, n: map<nat, Live>)
    requires AllCompatible(m)
    requires forall x :: x in n ==> x in m && n[x].region == m[x].region && n[x].c == m[x].c
    ensures AllCompatible(n)
  {
    forall x, y | x in n && y in n && x != y
      ensures Compatible(n[x], n[y])
    {
      assert Compatible(m[x], m[y]);
    }
  }

  lemma StepKeepsInv(g: State, x: nat, te: T.Event)
    requires Inv(g) && CanStep(g, x, te)
    ensures Inv(AfterStep(g, x, te))
  {
    StepRefines(g, x, te);
    StepRunning(g, x, te);
  }

  lemma StartedSound(g: State, r: Region, op: T.Op, offset: nat, remote: seq<byte>, remoteOffset: nat, size: nat,
                     v: View)
    requires Layout(g) && r in g.views && remoteOffset <= size && |v| == r.size
    requires TT.Setup(op, g.a, g.poolMax, r.off, r.size, offset, remoteOffset, size).Some?
    requires op.WRITE? ==>
               offset == 0 && v == Blur(v, TT.Setup(op, g.a, g.poolMax, r.off, r.size, offset, remoteOffset, size).value.logLen)
    ensures var c := TT.Setup(op, g.a, g.poolMax, r.off, r.size, offset, remoteOffset, size).value;
            Sound(g.log, v, Live(r, c, TT.Init(c, g.log, remote), true)) && c.op == op
  {
    hide TI.Lifecycle, TI.Tiling, TI.Ownership, TI.Errors, TD.Data;
    TT.SetupFits(op, g.a, g.poolMax, r.off, r.size, offset, remoteOffset, size);
    var c := TT.Setup(op, g.a, g.poolMax, r.off, r.size, offset, remoteOffset, size).value;
    TT.InitHolds(c, g.log, remote);
    if op.WRITE? {
      forall i | 0 <= i < c.logLen && i < |v| ensures v[i].Unknown? { assert Blur(v, c.logLen)[i].Unknown?; }
    }
  }

  lemma BlurTwice(v: View, n: nat)
    ensures Blur(Blur(v, n), n) == Blur(v, n)
  {}

  lemma StartKeepsInv(g: State, e: Event)
    requires Inv(g) && Enabled(g, e) && e.StartTransfer?
    ensures Inv(Apply(g, e))
  {
    hide TT.Inv, TT.Told, TT.Init, T.WellFormed, Reserved, Sound, Shows, Layout, Refines, Running, Busy, Writing;
    StartedViews(g, e);
    StartedTransfer(g, e);
    assert Apply(g, e).views.Keys == g.views.Keys;
  }

  lemma StartedViews(g: State, e: Event)
    requires Inv(g) && Enabled(g, e) && e.StartTransfer?
    ensures Layout(Apply(g, e)) && Refines(Apply(g, e))
  {
    hide TT.Inv, TT.Told, TT.Init, TT.Setup, T.WellFormed, Reserved, Running, Refines, Layout;
    var r := e.region;
    var n := TT.Setup(e.op, g.a, g.poolMax, r.off, r.size, e.offset, e.remoteOffset, e.size).value.logLen;
    LessKnown(g, Apply(g, e), r, if e.op.WRITE? then n else 0);
  }

  lemma LessKnown(g: State, h: State, r: Region, n: nat)
    requires Layout(g) && Refines(g) && r in g.views
    requires h.a == g.a && h.poolMax == g.poolMax && h.log == g.log && h.logOffset == g.logOffset
    requires h.views == g.views || h.views == g.views[r := Blur(g.views[r], n)]
    ensures Layout(h) && Refines(h)
  {
    assert Shows(g.log, r, g.views[r]);
  }

  lemma StartedTransfer(g: State, e: Event)
    requires Inv(g) && Enabled(g, e) && e.StartTransfer?
    ensures Running(Apply(g, e))
  {
    hide TT.Inv, TT.Told, TT.Init, T.WellFormed, Reserved, Running, Sound;
    var r := e.region;
    var c := TT.Setup(e.op, g.a, g.poolMax, r.off, r.size, e.offset, e.remoteOffset, e.size).value;
    var h := Apply(g, e);
    assert Shows(g.log, r, g.views[r]);
    BlurTwice(g.views[r], c.logLen);
    StartedSound(g, r, e.op, e.offset, e.remote, e.remoteOffset, e.size, h.views[r]);
    StartedRunning(g, h, e.x, h.transfers[e.x]);
  }

  lemma StartedRunning(g: State, h: State, x: nat, l: Live)
    requires Running(g) && x !in g.transfers && h.log == g.log
    requires h.transfers == g.transfers[x := l] && l.region in h.views && Sound(h.log, h.views[l.region], l)
    requires h.views.Keys == g.views.Keys && forall q :: q in g.views && q != l.region ==> h.views[q] == g.views[q]
    requires if l.c.op.WRITE? then !Busy(g, l.region) else !Writing(g, l.region) && h.views == g.views
    ensures Running(h)
  {
    forall y | y in h.transfers
      ensures h.transfers[y].region in h.views && Sound(h.log, h.views[h.transfers[y].region], h.transfers[y])
    {
      if y != x && l.c.op.WRITE? { assert g.transfers[y].region != l.region; }
    }
    forall y, z {:trigger h.transfers[y], h.transfers[z]} | y in h.transfers && z in h.transfers && y != z
      ensures Compatible(h.transfers[y], h.transfers[z])
    {
      if y != x && z != x { assert Compatible(g.transfers[y], g.transfers[z]); }
    }
  }

  /** A transfer that returned 0, no log I/O having reported zero bytes, delivered every byte. */
  lemma FinishedDelivered(log: seq<byte>, v: View, l: Live)
    requires Sound(log, v, l) && l.s.result == Some(0) && l.told && l.c.transmit > 0
    ensures l.c.remoteStart + l.c.transmit <= |l.s.remote|
    ensures l.c.logStart + l.c.skip + l.c.transmit <= |log|
    ensures log[l.c.logStart + l.c.skip..l.c.logStart + l.c.skip + l.c.transmit]
         == l.s.remote[l.c.remoteStart..l.c.remoteStart + l.c.transmit]
  {
    hide TI.Lifecycle, TI.Tiling, TI.Ownership, TI.Errors, TD.Data, TT.AllDelivered;
    assert TT.AllDelivered(l.c, l.s) by { TR.ZeroDelivered(l.c, l.s); }
    TR.AllMatch(l.c, l.s);
  }

  lemma NoteSlice(log: seq<byte>, r: Region, v: View, data: seq<byte>)
    requires Shows(log, r, v) && r.off + |data| <= |log| && log[r.off..r.off + |data|] == data
    ensures Shows(log, r, Note(v, data))
  {
    forall i | 0 <= i < |data|
      ensures log[r.off + i] == data[i]
    {
      assert log[r.off..r.off + |data|][i] == log[r.off + i];
    }
  }

  lemma PayloadShows(log: seq<byte>, v: View, l: Live)
    requires Sound(log, v, l) && Shows(log, l.region, v) && l.c.op.WRITE? && l.s.result == Some(0) && l.told
    ensures Shows(log, l.region, Note(v, Payload(l)))
  {
    hide TT.Inv, TT.Told;
    if l.c.transmit > 0 { FinishedDelivered(log, v, l); }
    NoteSlice(log, l.region, v, Payload(l));
  }

  lemma FinishRefines(g: State, x: nat)
    requires Inv(g) && CanFinish(g, x)
    ensures Refines(AfterFinish(g, x))
  {
    hide TT.Inv, TT.Told;
    var l := g.transfers[x];
    assert Shows(g.log, l.region, g.views[l.region]);
    if l.c.op.WRITE? && l.s.result == Some(0) && l.told { PayloadShows(g.log, g.views[l.region], l); }
  }

  lemma FinishRunning(g: State, x: nat)
    requires Running(g) && CanFinish(g, x)
    ensures Running(AfterFinish(g, x))
  {
    hide TT.Inv, TT.Told;
    var l, h := g.transfers[x], AfterFinish(g, x);
    forall y | y in h.transfers
      ensures h.transfers[y].region in h.views && Sound(h.log, h.views[h.transfers[y].region], h.transfers[y])
    {
      assert Compatible(g.transfers[x], g.transfers[y]);
    }
    SameAttributes(g.transfers, h.transfers);
  }

  lemma FinishLayout(g: State, x: nat)
    requires Layout(g) && CanFinish(g, x)
    ensures Layout(AfterFinish(g, x))
  {}

  lemma FinishKeepsInv(g: State, x: nat)
    requires Inv(g) && CanFinish(g, x)
    ensures Inv(AfterFinish(g, x))
  {
    hide Layout, Refines, Running;
    FinishLayout(g, x);
    FinishRefines(g, x);
    FinishRunning(g, x);
  }

  /** Every event keeps the log a faithful picture of every region's view. */
  lemma StepInv(g: State, e: Event)
    requires Inv(g) && Enabled(g, e)
    ensures Inv(Apply(g, e))
  {
    hide Inv;
    if e.Reserve? { ReserveKeepsInv(g, e.i, e.size); }
    else if e.EndBlock? { EndBlockKeepsInv(g, e.i, e.tail, e.ok); }
    else if e.Remove? { RemoveKeepsInv(g, e.region, e.left, e.ok); }
    else if e.WriteRaw? { WriteRawKeepsInv(g, e.region, e.offset, e.data, e.left, e.n); }
    else if e.StartTransfer? { StartKeepsInv(g, e); }
    else if e.StepTransfer? { StepKeepsInv(g, e.x, e.e); }
    else if e.FinishTransfer? { FinishKeepsInv(g, e.x); }
  }
}
