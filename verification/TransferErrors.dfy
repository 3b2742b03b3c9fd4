/** What becomes of errors: which of them the caller is told, and when it is told of them at all. */
module TransferErrors {
  import opened Basics
  import opened Transfer
  import opened TransferInvariant
  import opened TransferData
  import opened TransferTheorems
  import opened TransferResults
  import opened TransferSucceeds

  // ---------- runs ----------

  lemma {:induction false} RunAppend(c: Config, s: State, es: seq<Event>, fs: seq<Event>)
    requires Legal(c, s, es) && Legal(c, Run(c, s, es), fs)
    ensures Legal(c, s, es + fs) && Run(c, s, es + fs) == Run(c, Run(c, s, es), fs)
    decreases |es|
  {
    hide Enabled, Apply;
    if es == [] {
      assert es + fs == fs;
    } else {
      assert (es + fs)[1..] == es[1..] + fs;
      RunAppend(c, Apply(c, s, es[0]), es[1..], fs);
    }
  }

  ghost predicate Reaches(c: Config, s: State, es: seq<Event>, t: State) {
    Legal(c, s, es) && Run(c, s, es) == t
  }

  // ---------- one buffer: one error ----------

  /** At most one chunk, and at most one error, which has ended it. */
  ghost predicate OneError(s: State) {
    |s.chunks| <= 1 && (s.recorded == [] || (|s.recorded| == 1 && s.chunks != [] && s.chunks[0].status.Abandoned?))
  }

  lemma OneErrorStep(c: Config, s: State, e: Event)
    requires WellFormed(c) && c.logLen <= c.poolMax && Core(c, s) && OneError(s) && Enabled(c, s, e)
    ensures OneError(Apply(c, s, e))
  {
    if e.Enter? {
      OneErrorEnter(c, s, e.w);
    } else if Progressing(e) {
      var x, k, ch := TouchShape(c, s, e);
    }
  }

  lemma OneErrorEnter(c: Config, s: State, w: nat)
    requires WellFormed(c) && c.logLen <= c.poolMax && Core(c, s) && OneError(s) && Enabled(c, s, Enter(w))
    ensures OneError(Apply(c, s, Enter(w)))
  {
    if s.chunks != [] {
      assert Shaped(c, s.chunks[0]) && End(s.chunks[0]) == NextOff(s, 0);
    }
  }

  lemma {:induction false} OneErrorRun(c: Config, s: State, es: seq<Event>)
    requires WellFormed(c) && c.logLen <= c.poolMax && Inv(c, s) && OneError(s) && Legal(c, s, es)
    ensures OneError(Run(c, s, es))
    decreases |es|
  {
    if es != [] {
      OneErrorStep(c, s, es[0]);
      InvStep(c, s, es[0]);
      OneErrorRun(c, Apply(c, s, es[0]), es[1..]);
    }
  }

  // ---------- two buffers: the second error replaces the first ----------

  /** The test of ret and the store to it are two steps outside the mutex, so a second worker that
      also saw 0 overwrites the first code. */
  lemma SecondErrorOverwrites(c: Config, s: State, v: nat, w: nat)
    requires v != w && Enabled(c, s, Test1(v)) && Enabled(c, s, Test1(w)) && s.ret == 0
    requires s.workers[v].failed && s.workers[w].failed
    ensures var es, t := [Test1(v), Test1(w)] + [Store(v), Store(w)], s.workers[v := Leaving][w := Leaving];
            && Legal(c, s, es)
            && Run(c, s, es).recorded == s.recorded + [s.workers[v].rc, s.workers[w].rc]
            && Run(c, s, es).ret == s.workers[w].rc && Run(c, s, es).workers == t
  {
    hide Enabled, Apply;
    var s1, s2, s3, s4 := TestTestStoreStore(c, s, v, w);
    RunCons(c, s3, Store(w), []);
    RunCons(c, s2, Store(v), [Store(w)]);
    RunCons(c, s1, Test1(w), [Store(v), Store(w)]);
    RunCons(c, s, Test1(v), [Test1(w), Store(v), Store(w)]);
    assert [Test1(v), Test1(w)] + [Store(v), Store(w)] == [Test1(v)] + [Test1(w), Store(v), Store(w)];
    assert [Test1(w), Store(v), Store(w)] == [Test1(w)] + [Store(v), Store(w)];
    assert [Store(v), Store(w)] == [Store(v)] + [Store(w)] && [Store(w)] == [Store(w)] + [];
  }

  lemma TestTestStoreStore(c: Config, s: State, v: nat, w: nat) returns (s1: State, s2: State, s3: State, s4: State)
    requires v != w && Enabled(c, s, Test1(v)) && Enabled(c, s, Test1(w)) && s.ret == 0
    requires s.workers[v].failed && s.workers[w].failed
    ensures s1 == Apply(c, s, Test1(v)) && Enabled(c, s1, Test1(w)) && s2 == Apply(c, s1, Test1(w))
    ensures Enabled(c, s2, Store(v)) && s3 == Apply(c, s2, Store(v))
    ensures Enabled(c, s3, Store(w)) && s4 == Apply(c, s3, Store(w))
    ensures s4.recorded == s.recorded + [s.workers[v].rc, s.workers[w].rc] && s4.ret == s.workers[w].rc
    ensures s4.workers == s.workers[v := Leaving][w := Leaving]
  {
    s1 := Apply(c, s, Test1(v));
    s2 := Apply(c, s1, Test1(w));
    assert s2.workers[v] == Storing(s.workers[v].k, s.workers[v].rc);
    s3 := Apply(c, s2, Store(v));
    assert s3.workers[w] == Storing(s.workers[w].k, s.workers[w].rc);
    s4 := Apply(c, s3, Store(w));
  }

  lemma TwoWorkers(c: Config)
    requires 0 < c.poolMax < c.logLen
    ensures Ults(c.logLen, c.poolMax) >= 2
  {
    AtLeastOne(c.logLen - 1, c.poolMax, (c.logLen - 1) / c.poolMax, (c.logLen - 1) % c.poolMax);
  }

  lemma AtLeastOne(x: nat, m: nat, q: nat, r: nat)
    requires x == q * m + r && r < m <= x
    ensures q >= 1
  {}

  /** Two workers spawned, nothing else done. */
  ghost predicate JustSpawned(c: Config, s: State) {
    && Inv(c, s) && |s.workers| >= 2 && s.workers[0].Ready? && s.workers[1].Ready?
    && (forall i :: 2 <= i < |s.workers| ==> s.workers[i].Unspawned?)
    && s.logIssued == 0 && s.ret == 0 && s.recorded == [] && s.chunks == []
  }

  lemma SpawnOne(c: Config, s: State) returns (t: State)
    requires WellFormed(c) && Inv(c, s) && s.spawned < |s.workers|
    ensures Enabled(c, s, Spawn) && t == Apply(c, s, Spawn) && Inv(c, t)
    ensures t == s.(workers := s.workers[s.spawned := Ready], spawned := s.spawned + 1)
  {
    t := Apply(c, s, Spawn);
    InvStep(c, s, Spawn);
  }

  lemma SpawnTwo(c: Config, log: seq<byte>, remote: seq<byte>) returns (es: seq<Event>, t: State)
    requires WellFormed(c) && c.poolMax < c.logLen && c.logStart + c.logLen <= |log|
    ensures Reaches(c, Init(c, log, remote), es, t) && JustSpawned(c, t)
  {
    hide Inv, Enabled, Apply, Ults;
    var s := Init(c, log, remote);
    TwoWorkers(c);
    InitHolds(c, log, remote);
    var s1 := SpawnOne(c, s);
    t := SpawnOne(c, s1);
    es := [Spawn, Spawn];
    RunCons(c, s1, Spawn, []);
    RunCons(c, s, Spawn, [Spawn]);
    assert [Spawn] + [] == [Spawn] && [Spawn] + [Spawn] == [Spawn, Spawn];
  }

  /** Two workers hold a chunk each and have done nothing with it. */
  ghost predicate BothFirst(c: Config, s: State) {
    && Inv(c, s) && |s.workers| >= 2 && s.workers[0] == First(0) && s.workers[1] == First(1) && |s.chunks| == 2
    && (forall i :: 2 <= i < |s.workers| ==> s.workers[i].Unspawned?)
    && s.ret == 0 && s.recorded == []
  }

  lemma ReadyClaims(c: Config, s: State, w: nat) returns (ch: Chunk)
    requires WellFormed(c) && Tiling(c, s) && w < |s.workers| && s.workers[w].Ready? && s.ret == 0 && s.logIssued < c.logLen
    ensures Enabled(c, s, Enter(w))
    ensures Apply(c, s, Enter(w)) == s.(workers := s.workers[w := First(|s.chunks|)], chunks := s.chunks + [ch],
                                        logIssued := End(ch), transmitIssued := TxPos(c, End(ch)))
    ensures End(ch) == s.logIssued + if c.logLen - s.logIssued > c.poolMax then c.poolMax else c.logLen - s.logIssued
  {
    ClaimArithmetic(c, s.logIssued);
    ch := ClaimShape(c, s, w);
  }

  /** A ready worker takes a chunk; nobody else is touched. */
  lemma EnterOne(c: Config, s: State, w: nat) returns (t: State)
    requires WellFormed(c) && Inv(c, s) && w < |s.workers| && s.workers[w].Ready? && s.ret == 0 && s.logIssued < c.logLen
    ensures Enabled(c, s, Enter(w)) && t == Apply(c, s, Enter(w)) && Inv(c, t)
    ensures t.workers == s.workers[w := First(|s.chunks|)] && |t.chunks| == |s.chunks| + 1
    ensures t.ret == s.ret && t.recorded == s.recorded
    ensures t.logIssued == if c.logLen - s.logIssued > c.poolMax then s.logIssued + c.poolMax else c.logLen
  {
    var ch := ReadyClaims(c, s, w);
    t := Apply(c, s, Enter(w));
    InvStep(c, s, Enter(w));
  }

  lemma EnterBoth(c: Config, s: State) returns (t: State)
    requires WellFormed(c) && c.poolMax < c.logLen && JustSpawned(c, s)
    ensures Reaches(c, s, [Enter(0), Enter(1)], t) && BothFirst(c, t)
  {
    hide Inv, Enabled, Apply;
    var s1 := EnterOne(c, s, 0);
    t := EnterOne(c, s1, 1);
    RunCons(c, s1, Enter(1), []);
    RunCons(c, s, Enter(0), [Enter(1)]);
    assert [Enter(1)] + [] == [Enter(1)] && [Enter(0)] + [Enter(1)] == [Enter(0), Enter(1)];
  }

  /** A first I/O that fails with this code, which no complete I/O reports. */
  lemma FailFirst(c: Config, s: State, w: nat, rc: int) returns (e: Event)
    requires IsHeld(s, w) && s.workers[w].First? && rc < 0
    ensures e.Io1? && e.w == w && Enabled(c, s, e)
    ensures var t, k := Apply(c, s, e), s.workers[w].k;
            && (exists buf :: t.workers == s.workers[w := Tested1(k, rc, true, buf)])
            && t.ret == s.ret && t.recorded == s.recorded && |t.chunks| == |s.chunks|
  {
    var k := s.workers[w].k;
    var buf: seq<byte> := seq(s.chunks[k].size, _ => 0);
    e := Io1(w, rc, buf);
    assert Apply(c, s, e).workers == s.workers[w := Tested1(k, rc, true, buf)];
  }

  lemma FailBoth(c: Config, s: State) returns (es: seq<Event>, t: State)
    requires WellFormed(c) && BothFirst(c, s)
    ensures Reaches(c, s, es, t) && Inv(c, t) && t.recorded == [-1, -2] && t.ret == -2 && |t.workers| > 0
    ensures forall i :: 0 <= i < |t.workers| ==> !t.workers[i].Storing?
  {
    var e, f, s2 := FailTwice(c, s);
    hide Inv, Enabled, Apply;
    var s1 := Apply(c, s, e);
    var rest;
    rest, t := StoreBoth(c, s2);
    RunCons(c, s1, f, rest);
    RunCons(c, s, e, [f] + rest);
    es := [e] + ([f] + rest);
    RunHolds(c, s, es);
  }

  /** Both first I/Os have failed, and neither code has been stored. */
  ghost predicate BothFailed(s: State) {
    && |s.workers| >= 2 && |s.chunks| == 2 && s.ret == 0 && s.recorded == []
    && s.workers[0].Tested1? && s.workers[0].failed && s.workers[0].rc == -1 && s.workers[0].k == 0
    && s.workers[1].Tested1? && s.workers[1].failed && s.workers[1].rc == -2 && s.workers[1].k == 1
    && forall i :: 2 <= i < |s.workers| ==> s.workers[i].Unspawned?
  }

  lemma FailTwice(c: Config, s: State) returns (e: Event, f: Event, s2: State)
    requires BothFirst(c, s)
    ensures Enabled(c, s, e) && Enabled(c, Apply(c, s, e), f) && s2 == Apply(c, Apply(c, s, e), f) && BothFailed(s2)
  {
    hide Inv, Enabled, Apply;
    e := FailFirst(c, s, 0, -1);
    f := FailFirst(c, Apply(c, s, e), 1, -2);
    s2 := Apply(c, Apply(c, s, e), f);
  }

  lemma StoreBoth(c: Config, s: State) returns (es: seq<Event>, t: State)
    requires BothFailed(s)
    ensures Legal(c, s, es) && t == Run(c, s, es) && t.recorded == [-1, -2] && t.ret == -2 && |t.workers| == |s.workers|
    ensures forall i :: 0 <= i < |t.workers| ==> !t.workers[i].Storing?
  {
    es := [Test1(0), Test1(1)] + [Store(0), Store(1)];
    assert Enabled(c, s, Test1(0)) && Enabled(c, s, Test1(1));
    hide Enabled, Apply, Legal, Run;
    SecondErrorOverwrites(c, s, 0, 1);
    t := Run(c, s, es);
  }

  /** Once ret is set and no store is under way, no error is recorded any more. */
  ghost predicate Decided(s: State) { s.ret != 0 && forall i :: 0 <= i < |s.workers| ==> !s.workers[i].Storing? }

  lemma DecidedStep(c: Config, s: State, e: Event)
    requires Decided(s) && Enabled(c, s, e)
    ensures Decided(Apply(c, s, e)) && Apply(c, s, e).recorded == s.recorded && Apply(c, s, e).ret == s.ret
  {}

  lemma {:induction false} DecidedRun(c: Config, s: State, es: seq<Event>)
    requires Decided(s) && Legal(c, s, es)
    ensures Run(c, s, es).recorded == s.recorded && Run(c, s, es).ret == s.ret
    decreases |es|
  {
    if es != [] {
      DecidedStep(c, s, es[0]);
      DecidedRun(c, Apply(c, s, es[0]), es[1..]);
    }
  }

  lemma SecondErrorReturned(c: Config, log: seq<byte>, remote: seq<byte>) returns (es: seq<Event>)
    requires WellFormed(c) && c.poolMax < c.logLen && c.logStart + c.logLen <= |log|
    ensures Legal(c, Init(c, log, remote), es)
    ensures var s := Run(c, Init(c, log, remote), es); s.recorded == [-1, -2] && s.result == Some(-2)
  {
    var s0 := Init(c, log, remote);
    var start, s1 := SpawnTwo(c, log, remote);
    var s2 := EnterBoth(c, s1);
    var ds, s3 := FailBoth(c, s2);
    var fs := CanFinish(c, s3);
    hide Inv, Legal, Run, Init;
    assert Legal(c, s3, fs);
    DecidedRun(c, s3, fs);
    ReportsRet(c, s3, fs);
    RunAppend(c, s2, ds, fs);
    RunAppend(c, s1, [Enter(0), Enter(1)], ds + fs);
    RunAppend(c, s0, start, [Enter(0), Enter(1)] + (ds + fs));
    es := start + ([Enter(0), Enter(1)] + (ds + fs));
  }

  lemma ReportsRet(c: Config, s: State, es: seq<Event>)
    requires WellFormed(c) && Inv(c, s) && Legal(c, s, es) && Run(c, s, es).result.Some?
    ensures Run(c, s, es).result == Some(Run(c, s, es).ret)
  {
    RunHolds(c, s, es);
  }

  /** Every schedule that returns after an error returns the first one. */
  ghost predicate FirstErrorWins(c: Config, log: seq<byte>, remote: seq<byte>)
    requires c.poolMax > 0
  {
    forall es :: Legal(c, Init(c, log, remote), es) ==>
      var s := Run(c, Init(c, log, remote), es);
      s.result.Some? && s.recorded != [] ==> s.result == Some(s.recorded[0])
  }

  /** The first error is the one returned, whatever the schedule, if and only if the extent fits in one
      pool buffer. */
  lemma FirstErrorReturned(c: Config, log: seq<byte>, remote: seq<byte>)
    requires WellFormed(c) && c.logStart + c.logLen <= |log|
    ensures FirstErrorWins(c, log, remote) <==> c.logLen <= c.poolMax
  {
    if c.logLen <= c.poolMax {
      forall es | Legal(c, Init(c, log, remote), es)
        ensures var s := Run(c, Init(c, log, remote), es);
                s.result.Some? && s.recorded != [] ==> s.result == Some(s.recorded[0])
      {
        InitHolds(c, log, remote);
        OneErrorRun(c, Init(c, log, remote), es);
        if Run(c, Init(c, log, remote), es).result.Some? { ReturnCode(c, log, remote, es); }
      }
    } else {
      var es := SecondErrorReturned(c, log, remote);
    }
  }

  // ---------- claiming stops at an error ----------

  lemma NoClaimAfterError(c: Config, s: State, e: Event)
    requires Enabled(c, s, e) && s.ret != 0
    ensures var t := Apply(c, s, e);
            |t.chunks| == |s.chunks| && t.logIssued == s.logIssued && t.transmitIssued == s.transmitIssued
  {}

  /** Once ret is not zero no worker takes another chunk, over any further schedule in which no log I/O
      reports zero bytes. */
  lemma {:induction false} ClaimsStop(c: Config, s: State, es: seq<Event>)
    requires Told(s) && s.ret != 0 && Legal(c, s, es) && forall e :: e in es ==> Telling(c, e)
    ensures |Run(c, s, es).chunks| == |s.chunks| && Run(c, s, es).logIssued == s.logIssued
    decreases |es|
  {
    if es != [] {
      NoClaimAfterError(c, s, es[0]);
      ToldStep(c, s, es[0]);
      ClaimsStop(c, Apply(c, s, es[0]), es[1..]);
    }
  }

  // ---------- log I/O that reports zero bytes ----------

  /** Which counts a log I/O may report: whatever `allowed` lets through. */
  predicate Follows(c: Config, allowed: int -> bool, e: Event) {
    (c.op.READ? && e.Io1? ==> allowed(e.rc)) && (c.op.WRITE? && e.Io2? ==> allowed(e.rc))
  }

  /** The step is not somebody else's, a network I/O in it succeeds and a log I/O reports zero. */
  predicate ZeroStep(c: Config, e: Event) {
    !e.Env? && (e.Io1? ==> e.rc == 0) && (e.Io2? ==> c.op.WRITE? && e.rc == 0)
  }

  /** Where every log I/O has reported zero: it counts as an error, and is stored as success. */
  ghost predicate ZeroWorker(c: Config, w: Worker) {
    && !w.Done? && (w.Tested1? ==> (w.failed <==> c.op.READ?) && w.rc == 0)
    && (w.Second? ==> c.op.WRITE?) && (w.Tested2? ==> c.op.WRITE? && w.failed && w.rc == 0)
    && (w.Storing? ==> w.rc == 0)
  }

  ghost predicate Zeroed(c: Config, s: State) {
    && s.ret == 0 && (forall i :: 0 <= i < |s.workers| ==> ZeroWorker(c, s.workers[i]))
    && (forall k :: 0 <= k < |s.chunks| ==> !s.chunks[k].status.Retired?)
  }

  lemma ZeroedStep(c: Config, s: State, e: Event)
    requires WellFormed(c) && Tiling(c, s) && Zeroed(c, s) && Enabled(c, s, e) && ZeroStep(c, e)
    ensures Zeroed(c, Apply(c, s, e)) && |Apply(c, s, e).remote| == |s.remote|
  {
    if e.Enter? { ZeroedEnter(c, s, e.w); } else if e.Io1? || e.Io2? { ZeroedIo(c, s, e); } else { ZeroedOther(c, s, e); }
  }

  lemma ZeroedOther(c: Config, s: State, e: Event)
    requires Zeroed(c, s) && Enabled(c, s, e) && !e.Enter? && !e.Io1? && !e.Io2? && !e.Env?
    ensures Zeroed(c, Apply(c, s, e)) && Apply(c, s, e).remote == s.remote
  {}

  lemma ZeroedIo(c: Config, s: State, e: Event)
    requires Tiling(c, s) && Zeroed(c, s) && Enabled(c, s, e) && ZeroStep(c, e) && (e.Io1? || e.Io2?)
    ensures Zeroed(c, Apply(c, s, e)) && |Apply(c, s, e).remote| == |s.remote|
  {
    assert Shaped(c, s.chunks[s.workers[e.w].k]);
    hide Tiling;
    if e.Io1? { ZeroedFirst(c, s, e); } else { ZeroedSecond(c, s, e); }
  }

  lemma ZeroedFirst(c: Config, s: State, e: Event)
    requires Zeroed(c, s) && Enabled(c, s, e) && e.Io1? && e.rc == 0 && s.chunks[s.workers[e.w].k].size > 0
    ensures Zeroed(c, Apply(c, s, e)) && Apply(c, s, e).remote == s.remote
  {}

  lemma ZeroedSecond(c: Config, s: State, e: Event)
    requires Zeroed(c, s) && Enabled(c, s, e) && e.Io2? && c.op.WRITE? && e.rc == 0
    requires s.chunks[s.workers[e.w].k].size > 0
    ensures Zeroed(c, Apply(c, s, e)) && Apply(c, s, e).remote == s.remote
  {}

  lemma ZeroedEnter(c: Config, s: State, w: nat)
    requires WellFormed(c) && Tiling(c, s) && Zeroed(c, s) && Enabled(c, s, Enter(w))
    ensures Zeroed(c, Apply(c, s, Enter(w))) && Apply(c, s, Enter(w)).remote == s.remote
  {
    assert s.workers[w].Ready?;
    if CanClaim(c, s) { var ch := ClaimShape(c, s, w); } else { QuitShape(c, s, w); }
  }

  lemma ZeroEvent(c: Config, s: State) returns (e: Event)
    requires WellFormed(c) && Inv(c, s) && Zeroed(c, s) && Reachable(c, s) && |s.workers| > 0 && s.result.None?
    ensures Enabled(c, s, e) && ZeroStep(c, e)
  {
    hide Core, Data, Zeroed;
    e := SomeoneCanStep(c, s);
    if e.Io1? { e := ZeroFirst(c, s, e.w); } else if e.Io2? { e := ZeroSecond(c, s, e.w); }
  }

  lemma HeldShape(c: Config, s: State, w: nat)
    requires Core(c, s) && Reachable(c, s) && IsHeld(s, w)
    ensures var ch := s.chunks[s.workers[w].k]; ch.txSize <= ch.size && RemoteAt(c, ch) + ch.txSize <= |s.remote|
  {
    assert Shaped(c, s.chunks[s.workers[w].k]);
  }

  lemma ZeroPread(c: Config, s: State, w: nat, data: seq<byte>)
    requires c.op.READ? && IsHeld(s, w) && s.workers[w].First? && |data| == s.chunks[s.workers[w].k].size > 0
    ensures Enabled(c, s, Io1(w, 0, data))
  {}

  lemma HeldPositive(c: Config, s: State, w: nat)
    requires Core(c, s) && IsHeld(s, w)
    ensures s.chunks[s.workers[w].k].size > 0
  {
    assert Shaped(c, s.chunks[s.workers[w].k]);
  }

  lemma ZeroFirst(c: Config, s: State, w: nat) returns (e: Event)
    requires Core(c, s) && Reachable(c, s) && IsHeld(s, w) && s.workers[w].First?
    ensures Enabled(c, s, e) && ZeroStep(c, e)
  {
    hide Core, Enabled, Succeeds;
    HeldShape(c, s, w);
    HeldPositive(c, s, w);
    var ch := s.chunks[s.workers[w].k];
    if c.op.WRITE? {
      var sent := s.remote[RemoteAt(c, ch)..RemoteAt(c, ch) + ch.txSize];
      var data := sent + seq(ch.size - ch.txSize, _ => 0);
      assert data[..ch.txSize] == sent;
      GoodPull(c, s, w, data);
      e := Io1(w, 0, data);
    } else {
      var data := seq(ch.size, _ => 0);
      ZeroPread(c, s, w, data);
      e := Io1(w, 0, data);
    }
  }

  lemma ZeroSecond(c: Config, s: State, w: nat) returns (e: Event)
    requires Core(c, s) && Zeroed(c, s) && IsHeld(s, w) && s.workers[w].Second?
    ensures Enabled(c, s, e) && ZeroStep(c, e)
  {
    hide Core;
    HeldPositive(c, s, w);
    assert ZeroWorker(c, s.workers[w]);
    e := Io2(w, 0, seq(s.chunks[s.workers[w].k].size, _ => 0));
  }

  lemma {:induction false} ZeroFrom(c: Config, s: State) returns (es: seq<Event>)
    requires WellFormed(c) && Inv(c, s) && Zeroed(c, s) && Reachable(c, s) && |s.workers| > 0
    ensures Legal(c, s, es) && (forall e :: e in es ==> ZeroStep(c, e))
    ensures Run(c, s, es).result == Some(0) && Zeroed(c, Run(c, s, es)) && Inv(c, Run(c, s, es))
    decreases Measure(c, s)
  {
    hide Ownership, Errors, Data, Lifecycle, Zeroed;
    if s.result.Some? {
      es := [];
      RetIsZero(c, s);
    } else {
      var e := ZeroEvent(c, s);
      ZeroNext(c, s, e);
      var rest := ZeroFrom(c, Apply(c, s, e));
      RunCons(c, s, e, rest);
      es := [e] + rest;
    }
  }

  lemma RetIsZero(c: Config, s: State)
    requires Inv(c, s) && Zeroed(c, s) && s.result.Some?
    ensures s.result == Some(0)
  {}

  lemma ZeroNext(c: Config, s: State, e: Event)
    requires WellFormed(c) && Inv(c, s) && Zeroed(c, s) && Reachable(c, s) && |s.workers| > 0
    requires Enabled(c, s, e) && ZeroStep(c, e)
    ensures var t := Apply(c, s, e);
            Inv(c, t) && Zeroed(c, t) && Reachable(c, t) && |t.workers| > 0 && Measure(c, t) < Measure(c, s)
  {
    ZeroedStep(c, s, e);
    InvStep(c, s, e);
    CrewStays(c, s, e);
    StepShrinks(c, s, e);
  }

  /** For every non-empty transfer, read or write: when each log I/O reports zero bytes, it returns 0
      with nothing delivered. */
  lemma ZeroBytesAreLost(c: Config, log: seq<byte>, remote: seq<byte>) returns (es: seq<Event>)
    requires WellFormed(c) && c.logLen > 0 && c.logStart + c.logLen <= |log| && c.remoteStart + c.transmit <= |remote|
    ensures Legal(c, Init(c, log, remote), es) && (forall e :: e in es ==> ZeroStep(c, e))
    ensures var s := Run(c, Init(c, log, remote), es);
            s.result == Some(0) && (forall k :: 0 <= k < |s.chunks| ==> !s.chunks[k].status.Retired?) && !AllDelivered(c, s)
  {
    InitHolds(c, log, remote);
    es := ZeroFrom(c, Init(c, log, remote));
    NotDelivered(c, Run(c, Init(c, log, remote), es));
  }

  lemma NotDelivered(c: Config, s: State)
    requires c.logLen > 0 && Core(c, s) && Zeroed(c, s)
    ensures !AllDelivered(c, s)
  {}

  /** Every schedule whose log I/O reports allowed counts returns 0 exactly when all was delivered. */
  ghost predicate Truthful(c: Config, log: seq<byte>, remote: seq<byte>, allowed: int -> bool)
    requires c.poolMax > 0
  {
    forall es :: Legal(c, Init(c, log, remote), es) && (forall e :: e in es ==> Follows(c, allowed, e)) ==>
      var s := Run(c, Init(c, log, remote), es);
      s.result.Some? ==> (s.result == Some(0) <==> AllDelivered(c, s))
  }

  /** The return code can be trusted exactly when log I/O never reports zero bytes. */
  lemma TruthfulIff(c: Config, log: seq<byte>, remote: seq<byte>, allowed: int -> bool)
    requires WellFormed(c) && c.logLen > 0 && c.logStart + c.logLen <= |log| && c.remoteStart + c.transmit <= |remote|
    ensures Truthful(c, log, remote, allowed) <==> !allowed(0)
  {
    hide Legal, Run, Init, AllDelivered;
    if allowed(0) {
      var es := ZeroBytesAreLost(c, log, remote);
      assert forall e :: e in es ==> ZeroStep(c, e) && Follows(c, allowed, e);
    } else {
      forall es | Legal(c, Init(c, log, remote), es) && (forall e :: e in es ==> Follows(c, allowed, e))
        ensures var s := Run(c, Init(c, log, remote), es);
                s.result.Some? ==> (s.result == Some(0) <==> AllDelivered(c, s))
      {
        assert forall e :: e in es ==> Telling(c, e);
        if Run(c, Init(c, log, remote), es).result.Some? { ZeroMeansDelivered(c, log, remote, es); }
      }
    }
  }
}
