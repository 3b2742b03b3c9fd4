/** Where the bytes are: what each in-flight buffer holds and which chunks have landed, in every
    state of every schedule. */
module TransferData {
  import opened Basics
  import opened Transfer
  import opened TransferInvariant

  /** Log position matching the first transmitted byte of a chunk. A write lays its buffer down
      from the start of the chunk; a read sends from behind the skipped head. */
  function LogPos(c: Config, ch: Chunk): nat { LogAt(c, ch) + if c.op.READ? then ch.txSkip else 0 }

  /** The transmitted bytes of the chunk are the same on both sides. */
  ghost predicate Landed(c: Config, log: seq<byte>, remote: seq<byte>, ch: Chunk) {
    && RemoteAt(c, ch) + ch.txSize <= |remote|
    && LogPos(c, ch) + ch.txSize <= |log|
    && log[LogPos(c, ch)..LogPos(c, ch) + ch.txSize] == remote[RemoteAt(c, ch)..RemoteAt(c, ch) + ch.txSize]
  }

  ghost predicate Filled(c: Config, log: seq<byte>, remote: seq<byte>, ch: Chunk, buf: seq<byte>) {
    if c.op.WRITE? then
      && RemoteAt(c, ch) + ch.txSize <= |remote| && ch.txSize <= |buf|
      && buf[..ch.txSize] == remote[RemoteAt(c, ch)..RemoteAt(c, ch) + ch.txSize]
    else
      LogAt(c, ch) + ch.size <= |log| && buf == log[LogAt(c, ch)..LogAt(c, ch) + ch.size]
  }

  ghost predicate HolderData(c: Config, log: seq<byte>, remote: seq<byte>, w: Worker, ch: Chunk)
    requires Holds(w)
  {
    match w
    case First(_) => ch.sends == 0 && ch.ok
    case Tested1(_, _, failed, buf) => ch.sends == (if c.op.WRITE? then 1 else 0) && |buf| == ch.size
                                       && (ch.ok ==> Filled(c, log, remote, ch, buf))
    case Second(_, buf) => ch.sends == (if c.op.WRITE? then 1 else 0) && |buf| == ch.size
                           && (ch.ok ==> Filled(c, log, remote, ch, buf))
    case Tested2(_, _, failed) => ch.sends == 1 && (ch.ok ==> Landed(c, log, remote, ch))
    case Done(_) => ch.sends == 1 && (ch.ok ==> Landed(c, log, remote, ch))
    case Storing(_, _) => ch.sends <= 1
  }

  ghost predicate ReleasedData(c: Config, log: seq<byte>, remote: seq<byte>, ch: Chunk) {
    match ch.status
    case Retired => ch.sends == 1 && (ch.ok ==> Landed(c, log, remote, ch))
    case Abandoned => ch.sends <= 1
    case InFlight => true
  }

  ghost predicate Data(c: Config, s: State) {
    && c.logStart + c.logLen <= |s.log|
    && (forall i :: 0 <= i < |s.workers| && Holds(s.workers[i]) && s.workers[i].k < |s.chunks| ==>
          HolderData(c, s.log, s.remote, s.workers[i], s.chunks[s.workers[i].k]))
    && (forall k :: 0 <= k < |s.chunks| ==> ReleasedData(c, s.log, s.remote, s.chunks[k]))
  }

  // ---------- splices ----------

  lemma SpliceHere(s: seq<byte>, at: nat, data: seq<byte>)
    requires at + |data| <= |s|
    ensures |Splice(s, at, data)| == |s| && Splice(s, at, data)[at..at + |data|] == data
  {}

  lemma SpliceElsewhere(s: seq<byte>, at: nat, data: seq<byte>, lo: nat, hi: nat)
    requires lo <= hi <= |s| && (hi <= at || at + |data| <= lo || lo == hi)
    ensures |Splice(s, at, data)| == |s| && Splice(s, at, data)[lo..hi] == s[lo..hi]
  {
    var t := Splice(s, at, data);
    if at + |data| <= |s| {
      forall i | lo <= i < hi
        ensures t[i] == s[i]
      {}
    }
  }

  lemma PrefixOfSlice(s: seq<byte>, lo: nat, n: nat, m: nat)
    requires m <= n && lo + n <= |s|
    ensures s[lo..lo + n][..m] == s[lo..lo + m]
  {}

  lemma SubSlice(s: seq<byte>, lo: nat, n: nat, from: nat, m: nat)
    requires from + m <= n && lo + n <= |s|
    ensures s[lo..lo + n][from..from + m] == s[lo + from..lo + from + m]
  {
    var a, b := s[lo..lo + n][from..from + m], s[lo + from..lo + from + m];
    assert |a| == |b| && forall i :: 0 <= i < m ==> a[i] == b[i];
  }

  // ---------- steps that leave log and remote buffer alone ----------

  ghost predicate SameBytes(s: State, t: State) { t.log == s.log && t.remote == s.remote }

  lemma DataTouch(c: Config, s: State, t: State, w: nat, x: Worker, k: nat, ch: Chunk)
    requires Data(c, s) && Ownership(s) && Touches(s, t, w, x, k, ch) && SameBytes(s, t)
    requires Holds(x) ==> x.k == k && HolderData(c, s.log, s.remote, x, ch)
    requires ReleasedData(c, s.log, s.remote, ch)
    ensures Data(c, t)
  {
    forall i | 0 <= i < |t.workers| && Holds(t.workers[i]) && t.workers[i].k < |t.chunks|
      ensures HolderData(c, t.log, t.remote, t.workers[i], t.chunks[t.workers[i].k])
    {
      if i != w { assert s.chunks[s.workers[i].k].owner == i && s.chunks[k].owner == w; }
    }
  }

  lemma DataIdle(c: Config, s: State, t: State, w: nat, x: Worker)
    requires Data(c, s) && w < |s.workers| && !Holds(x)
    requires t.workers == s.workers[w := x] && t.chunks == s.chunks && SameBytes(s, t)
    ensures Data(c, t)
  {}

  lemma DataClaim(c: Config, s: State, t: State, w: nat, ch: Chunk)
    requires Data(c, s) && Ownership(s) && w < |s.workers| && SameBytes(s, t)
    requires t.workers == s.workers[w := First(|s.chunks|)] && t.chunks == s.chunks + [ch]
    requires ch.ok && ch.status.InFlight? && ch.sends == 0
    ensures Data(c, t)
  {
    forall i | 0 <= i < |t.workers| && Holds(t.workers[i]) && t.workers[i].k < |t.chunks|
      ensures HolderData(c, t.log, t.remote, t.workers[i], t.chunks[t.workers[i].k])
    {
      if i != w { assert s.workers[i].k < |s.chunks|; }
    }
  }

  /** A successful first I/O fills the buffer. */
  lemma DataFirst(c: Config, s: State, e: Event)
    requires Data(c, s) && Ownership(s) && Enabled(c, s, e) && e.Io1?
    ensures Data(c, Apply(c, s, e))
  {
    var k := s.workers[e.w].k;
    var failed := Failed1(c, s.chunks[k], e.rc);
    ChunkInFlight(s, e.w);
    assert HolderData(c, s.log, s.remote, s.workers[e.w], s.chunks[k]);
    DataTouch(c, s, Apply(c, s, e), e.w, Tested1(k, e.rc, failed, e.data), k,
              Sent(s.chunks[k], failed, c.op.WRITE?));
  }

  lemma DataTest(c: Config, s: State, e: Event)
    requires Data(c, s) && Ownership(s) && Enabled(c, s, e) && (e.Test1? || e.Test2?)
    ensures Data(c, Apply(c, s, e))
  {
    var k := s.workers[e.w].k;
    var t := Apply(c, s, e);
    ChunkInFlight(s, e.w);
    assert HolderData(c, s.log, s.remote, s.workers[e.w], s.chunks[k]);
    assert s.chunks == s.chunks[k := s.chunks[k]];
    DataTouch(c, s, t, e.w, t.workers[e.w], k, s.chunks[k]);
  }

  lemma DataStore(c: Config, s: State, w: nat)
    requires Data(c, s) && Ownership(s) && Enabled(c, s, Store(w))
    ensures Data(c, Apply(c, s, Store(w)))
  {
    var k := s.workers[w].k;
    assert HolderData(c, s.log, s.remote, s.workers[w], s.chunks[k]);
    DataTouch(c, s, Apply(c, s, Store(w)), w, Leaving, k, s.chunks[k].(status := Abandoned));
  }

  lemma DataTop(c: Config, s: State, w: nat)
    requires Data(c, s) && Ownership(s) && w < |s.workers|
    requires s.workers[w].Ready? || (IsHeld(s, w) && s.workers[w].Done?)
    ensures Data(c, AtTop(s, w))
  {
    if s.workers[w].Done? {
      var k, ch := RetreatShape(s, w);
      assert HolderData(c, s.log, s.remote, s.workers[w], s.chunks[k]);
      DataTouch(c, s, Retreat(s, w), w, Ready, k, ch);
    }
  }

  lemma DataFromTop(c: Config, s: State, w: nat)
    requires WellFormed(c) && Tiling(c, s) && Ownership(s) && Data(c, s)
    requires w < |s.workers| && s.workers[w].Ready?
    ensures Data(c, ClaimOrLeave(c, s, w))
  {
    if CanClaim(c, s) {
      var ch := ClaimShape(c, s, w);
      DataClaim(c, s, ClaimOrLeave(c, s, w), w, ch);
    } else {
      QuitShape(c, s, w);
      DataIdle(c, s, ClaimOrLeave(c, s, w), w, Leaving);
    }
  }

  lemma DataEnter(c: Config, s: State, w: nat)
    requires WellFormed(c) && Tiling(c, s) && Ownership(s) && Data(c, s) && Enabled(c, s, Enter(w))
    ensures Data(c, Apply(c, s, Enter(w)))
  {
    EnterFromTop(c, s, w);
    var r := AtTop(s, w);
    ReadyAtTop(s, w);
    assert Tiling(c, r) by { TilingTop(c, s, w); }
    assert Ownership(r) by { OwnershipTop(s, w); }
    assert Data(c, r) by { DataTop(c, s, w); }
    DataFromTop(c, r, w);
  }

  // ---------- steps that change the log or the remote buffer ----------

  /** Two different chunks share neither log bytes nor transmitted bytes. */
  lemma ChunksApart(c: Config, s: State, j: nat, k: nat)
    requires Tiling(c, s) && j < |s.chunks| && k < |s.chunks| && j != k
    ensures var a, b := s.chunks[j], s.chunks[k];
            && (End(a) <= b.off || End(b) <= a.off)
            && (a.rem + a.txSize <= b.rem || b.rem + b.txSize <= a.rem)
  {
    assert Shaped(c, s.chunks[j]) && Shaped(c, s.chunks[k]);
  }

  /** Writing one chunk's log bytes keeps another chunk landed. */
  lemma LandedBesideWrite(c: Config, log: seq<byte>, remote: seq<byte>, a: Chunk, b: Chunk, data: seq<byte>)
    requires c.op.WRITE? && Landed(c, log, remote, a) && |data| == b.size
    requires a.txSize <= a.size && (End(a) <= b.off || End(b) <= a.off)
    ensures Landed(c, Splice(log, LogAt(c, b), data), remote, a)
  {
    SpliceElsewhere(log, LogAt(c, b), data, LogPos(c, a), LogPos(c, a) + a.txSize);
  }

  lemma LandedBesidePush(c: Config, log: seq<byte>, remote: seq<byte>, a: Chunk, b: Chunk, data: seq<byte>)
    requires Landed(c, log, remote, a) && |data| == b.txSize
    requires a.rem + a.txSize <= b.rem || b.rem + b.txSize <= a.rem
    ensures Landed(c, log, Splice(remote, RemoteAt(c, b), data), a)
  {
    SpliceElsewhere(remote, RemoteAt(c, b), data, RemoteAt(c, a), RemoteAt(c, a) + a.txSize);
  }

  /** The chunk whose second I/O succeeds on a good buffer has landed. */
  lemma LandsWrite(c: Config, log: seq<byte>, remote: seq<byte>, ch: Chunk, buf: seq<byte>)
    requires c.op.WRITE? && Shaped(c, ch) && |buf| == ch.size && c.logStart + c.logLen <= |log|
    requires Filled(c, log, remote, ch, buf)
    ensures Landed(c, Splice(log, LogAt(c, ch), buf), remote, ch)
  {
    SpliceHere(log, LogAt(c, ch), buf);
    PrefixOfSlice(Splice(log, LogAt(c, ch), buf), LogAt(c, ch), ch.size, ch.txSize);
  }

  lemma LandsPush(c: Config, log: seq<byte>, remote: seq<byte>, ch: Chunk, buf: seq<byte>, data: seq<byte>)
    requires c.op.READ? && Shaped(c, ch) && |buf| == ch.size && RemoteAt(c, ch) + ch.txSize <= |remote|
    requires Filled(c, log, remote, ch, buf) && data == buf[ch.txSkip..ch.txSkip + ch.txSize]
    ensures Landed(c, log, Splice(remote, RemoteAt(c, ch), data), ch)
  {
    SpliceHere(remote, RemoteAt(c, ch), data);
    SubSlice(log, LogAt(c, ch), ch.size, ch.txSkip, ch.txSize);
  }

  /** Everybody else's data survives a second I/O on chunk k. */
  lemma DataOthers(c: Config, s: State, t: State, w: nat, k: nat)
    requires Tiling(c, s) && Ownership(s) && Data(c, s) && IsHeld(s, w) && s.workers[w].k == k
    requires |t.workers| == |s.workers| && |t.chunks| == |s.chunks|
    requires forall i :: 0 <= i < |s.workers| && i != w ==> t.workers[i] == s.workers[i]
    requires forall j :: 0 <= j < |s.chunks| && j != k ==> t.chunks[j] == s.chunks[j]
    requires (forall j :: 0 <= j < |s.chunks| && j != k && Landed(c, s.log, s.remote, s.chunks[j]) ==>
                            Landed(c, t.log, t.remote, s.chunks[j]))
    requires if c.op.WRITE? then t.remote == s.remote else t.log == s.log
    ensures forall i :: 0 <= i < |t.workers| && i != w && Holds(t.workers[i]) && t.workers[i].k < |t.chunks| ==>
              HolderData(c, t.log, t.remote, t.workers[i], t.chunks[t.workers[i].k])
    ensures forall j :: 0 <= j < |t.chunks| && j != k ==> ReleasedData(c, t.log, t.remote, t.chunks[j])
  {
    forall i | 0 <= i < |t.workers| && i != w && Holds(t.workers[i]) && t.workers[i].k < |t.chunks|
      ensures HolderData(c, t.log, t.remote, t.workers[i], t.chunks[t.workers[i].k])
    {
      assert s.chunks[s.workers[i].k].owner == i && s.chunks[k].owner == w;
      assert HolderData(c, s.log, s.remote, s.workers[i], s.chunks[s.workers[i].k]);
    }
    forall j | 0 <= j < |t.chunks| && j != k
      ensures ReleasedData(c, t.log, t.remote, t.chunks[j])
    {
      assert ReleasedData(c, s.log, s.remote, s.chunks[j]);
    }
  }

  lemma OthersStayLanded(c: Config, s: State, e: Event)
    requires Tiling(c, s) && Enabled(c, s, e) && e.Io2?
    ensures var t, k := Apply(c, s, e), s.workers[e.w].k;
            forall j :: 0 <= j < |s.chunks| && j != k && Landed(c, s.log, s.remote, s.chunks[j]) ==>
              Landed(c, t.log, t.remote, s.chunks[j])
  {
    var t, k := Apply(c, s, e), s.workers[e.w].k;
    forall j | 0 <= j < |s.chunks| && j != k && Landed(c, s.log, s.remote, s.chunks[j])
      ensures Landed(c, t.log, t.remote, s.chunks[j])
    {
      ChunksApart(c, s, j, k);
      assert Shaped(c, s.chunks[j]);
      if c.op.WRITE? { LandedBesideWrite(c, s.log, s.remote, s.chunks[j], s.chunks[k], e.data); }
      else { LandedBesidePush(c, s.log, s.remote, s.chunks[j], s.chunks[k], e.data); }
    }
  }

  /** What the second I/O does to its worker, its chunk, the log and the remote buffer. */
  lemma SecondShape(c: Config, s: State, e: Event)
    requires Enabled(c, s, e) && e.Io2?
    ensures var t, w, k := Apply(c, s, e), e.w, s.workers[e.w].k;
            var ch := s.chunks[k];
            var failed := Failed2(c, ch, e.rc);
            && k < |t.chunks| && t.workers[w] == Tested2(k, e.rc, failed)
            && t.chunks[k] == Sent(ch, failed, c.op.READ?)
            && (c.op.WRITE? ==> t.remote == s.remote && t.log == Splice(s.log, LogAt(c, ch), e.data))
            && (c.op.READ? ==> t.log == s.log && t.remote == Splice(s.remote, RemoteAt(c, ch), e.data))
  {}

  lemma SecondBuffer(c: Config, s: State, e: Event)
    requires Tiling(c, s) && Data(c, s) && Enabled(c, s, e) && e.Io2?
    ensures var ch, buf := s.chunks[s.workers[e.w].k], s.workers[e.w].buf;
            && Shaped(c, ch) && ch.sends == (if c.op.WRITE? then 1 else 0) && |buf| == ch.size
            && (ch.ok ==> Filled(c, s.log, s.remote, ch, buf))
  {
    assert HolderData(c, s.log, s.remote, s.workers[e.w], s.chunks[s.workers[e.w].k]);
  }

  lemma SecondWrites(c: Config, s: State, e: Event)
    requires Tiling(c, s) && Data(c, s) && Enabled(c, s, e) && e.Io2? && c.op.WRITE?
    requires var ch := s.chunks[s.workers[e.w].k]; ch.ok && !Failed2(c, ch, e.rc)
    ensures var ch := s.chunks[s.workers[e.w].k];
            Landed(c, Splice(s.log, LogAt(c, ch), e.data), s.remote, ch)
  {
    SecondBuffer(c, s, e);
    LandsWrite(c, s.log, s.remote, s.chunks[s.workers[e.w].k], s.workers[e.w].buf);
  }

  lemma SecondPushes(c: Config, s: State, e: Event)
    requires Tiling(c, s) && Data(c, s) && Enabled(c, s, e) && e.Io2? && c.op.READ?
    requires var ch := s.chunks[s.workers[e.w].k]; ch.ok && !Failed2(c, ch, e.rc)
    ensures var ch := s.chunks[s.workers[e.w].k];
            Landed(c, s.log, Splice(s.remote, RemoteAt(c, ch), e.data), ch)
  {
    SecondBuffer(c, s, e);
    LandsPush(c, s.log, s.remote, s.chunks[s.workers[e.w].k], s.workers[e.w].buf, e.data);
  }

  lemma LandedSent(c: Config, log: seq<byte>, remote: seq<byte>, ch: Chunk, failed: bool, network: bool)
    requires Landed(c, log, remote, ch)
    ensures Landed(c, log, remote, Sent(ch, failed, network))
  {}

  lemma SecondLands(c: Config, s: State, e: Event)
    requires Tiling(c, s) && Data(c, s) && Enabled(c, s, e) && e.Io2?
    ensures var t, k := Apply(c, s, e), s.workers[e.w].k;
            k < |t.chunks| && Holds(t.workers[e.w]) && HolderData(c, t.log, t.remote, t.workers[e.w], t.chunks[k])
  {
    var t, ch := Apply(c, s, e), s.chunks[s.workers[e.w].k];
    assert ch.sends == (if c.op.WRITE? then 1 else 0) by { SecondBuffer(c, s, e); }
    SecondShape(c, s, e);
    if ch.ok && !Failed2(c, ch, e.rc) {
      if c.op.WRITE? { SecondWrites(c, s, e); } else { SecondPushes(c, s, e); }
      LandedSent(c, t.log, t.remote, ch, false, c.op.READ?);
    }
  }

  lemma LogLengthKept(c: Config, s: State, e: Event)
    requires Enabled(c, s, e)
    ensures |Apply(c, s, e).log| >= |s.log|
    ensures !e.Env? ==> |Apply(c, s, e).log| == |s.log|
  {}

  lemma DataSecond(c: Config, s: State, e: Event)
    requires Tiling(c, s) && Ownership(s) && Data(c, s) && Enabled(c, s, e) && e.Io2?
    ensures Data(c, Apply(c, s, e))
  {
    var t, k := Apply(c, s, e), s.workers[e.w].k;
    SecondLands(c, s, e);
    OthersStayLanded(c, s, e);
    LogLengthKept(c, s, e);
    ChunkInFlight(s, e.w);
    DataOthers(c, s, t, e.w, k);
  }

  /** What the log holds inside the transfer's extent decides Landed and Filled. */
  lemma ExtentDecides(c: Config, log: seq<byte>, log': seq<byte>, remote: seq<byte>, ch: Chunk)
    requires Shaped(c, ch) && c.logStart + c.logLen <= |log| <= |log'|
    requires log'[c.logStart..c.logStart + c.logLen] == log[c.logStart..c.logStart + c.logLen]
    ensures Landed(c, log, remote, ch) ==> Landed(c, log', remote, ch)
    ensures log'[LogAt(c, ch)..LogAt(c, ch) + ch.size] == log[LogAt(c, ch)..LogAt(c, ch) + ch.size]
  {
    SamePiece(log, log', c.logStart, c.logLen, ch.off, ch.size);
    SamePiece(log, log', c.logStart, c.logLen, ch.off + if c.op.READ? then ch.txSkip else 0, ch.txSize);
  }

  lemma SamePiece(a: seq<byte>, b: seq<byte>, lo: nat, n: nat, from: nat, m: nat)
    requires from + m <= n && lo + n <= |a| <= |b| && a[lo..lo + n] == b[lo..lo + n]
    ensures b[lo + from..lo + from + m] == a[lo + from..lo + from + m]
  {
    SubSlice(a, lo, n, from, m);
    SubSlice(b, lo, n, from, m);
  }

  lemma HolderBeside(c: Config, log: seq<byte>, log': seq<byte>, remote: seq<byte>, w: Worker, ch: Chunk)
    requires Shaped(c, ch) && c.logStart + c.logLen <= |log| <= |log'|
    requires log'[c.logStart..c.logStart + c.logLen] == log[c.logStart..c.logStart + c.logLen]
    requires Holds(w) && HolderData(c, log, remote, w, ch)
    ensures HolderData(c, log', remote, w, ch)
  {
    ExtentDecides(c, log, log', remote, ch);
  }

  lemma ReleasedBeside(c: Config, log: seq<byte>, log': seq<byte>, remote: seq<byte>, ch: Chunk)
    requires Shaped(c, ch) && c.logStart + c.logLen <= |log| <= |log'|
    requires log'[c.logStart..c.logStart + c.logLen] == log[c.logStart..c.logStart + c.logLen]
    requires ReleasedData(c, log, remote, ch)
    ensures ReleasedData(c, log', remote, ch)
  {
    ExtentDecides(c, log, log', remote, ch);
  }

  /** Others may write the log, but not inside this transfer's extent. */
  lemma DataEnv(c: Config, s: State, newLog: seq<byte>)
    requires Tiling(c, s) && Data(c, s) && Enabled(c, s, Env(newLog))
    ensures Data(c, s.(log := newLog))
  {
    forall i | 0 <= i < |s.workers| && Holds(s.workers[i]) && s.workers[i].k < |s.chunks|
      ensures HolderData(c, newLog, s.remote, s.workers[i], s.chunks[s.workers[i].k])
    {
      HolderBeside(c, s.log, newLog, s.remote, s.workers[i], s.chunks[s.workers[i].k]);
    }
    forall k | 0 <= k < |s.chunks|
      ensures ReleasedData(c, newLog, s.remote, s.chunks[k])
    {
      ReleasedBeside(c, s.log, newLog, s.remote, s.chunks[k]);
    }
  }

  lemma DataStep(c: Config, s: State, e: Event)
    requires WellFormed(c) && Core(c, s) && Data(c, s) && Enabled(c, s, e)
    ensures Data(c, Apply(c, s, e))
  {
    if e.Io2? { DataSecond(c, s, e); }
    else if e.Io1? { DataFirst(c, s, e); }
    else if e.Test1? || e.Test2? { DataTest(c, s, e); }
    else if e.Store? { DataStore(c, s, e.w); }
    else if e.Enter? { DataEnter(c, s, e.w); }
    else if e.Env? { DataEnv(c, s, e.newLog); }
    else if Idling(e) { var w, x := IdleShape(c, s, e); DataIdle(c, s, Apply(c, s, e), w, x); }
  }
}
