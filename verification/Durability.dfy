/** What a crash leaves of the log: every byte in one of the versions it has had since the last
    completed sync. And what that means for regions over any number of crashes and reopens. */
module Durability {
  import opened Basics
  import opened Bits
  import opened FileBackend
  import opened FileBackendTheorems
  import T = Transfer

  /** The log's contents since the last completed fdatasync, the synced one first. */
  type History = seq<seq<byte>>

  /** log' is what a crash may leave: no shorter than the synced file and no longer than the file has
      been, each byte from some version, or zero where only the file's length got to the disk. */
  ghost predicate Survivor(hist: History, log': seq<byte>) {
    && hist != [] && |hist[0]| <= |log'|
    && (exists k :: 0 <= k < |hist| && |log'| <= |hist[k]|)
    && forall p :: 0 <= p < |log'| ==> From(hist, log', p)
  }

  ghost predicate From(hist: History, log': seq<byte>, p: nat)
    requires hist != [] && p < |log'|
  {
    (exists k :: 0 <= k < |hist| && p < |hist[k]| && hist[k][p] == log'[p]) || (|hist[0]| <= p && log'[p] == 0)
  }

  /** The backend with its disk. */
  datatype Disk = Disk(g: State, hist: History)

  datatype Step =
    | Do(e: Event)
    | Persist(rc: int)       // bake_file_persist, or any other fdatasync; rc is what it reports
    | Crash(log: seq<byte>)  // a crash that leaves this log, and the reopen

  /** bake_file_persist's return code. */
  function PersistCode(sync: bool, rc: int): Code { if sync && rc != 0 then IoError else Success }

  ghost predicate CanDo(d: Disk, p: Step) {
    match p
    case Do(e) => Enabled(d.g, e)
    case Persist(_) => true
    case Crash(log) => Survivor(d.hist, log) && d.g.a > 0 && |log| % d.g.a == 0
  }

  /** The byte at this position was b in every version, and is safe in the synced one. */
  ghost predicate Secure(hist: History, p: nat, b: byte) {
    hist != [] && p < |hist[0]| && forall k :: 0 <= k < |hist| && p < |hist[k]| ==> hist[k][p] == b
  }

  /** What a client may still rely on after a crash. */
  ghost function Remembered(hist: History, r: Region, v: View): (w: View)
    ensures |w| == |v|
  {
    seq(|v|, i requires 0 <= i < |v| => if v[i].Known? && Secure(hist, r.off + i, v[i].b) then v[i] else Unknown)
  }

  /** The backend opened again: the offset is the length found, and nothing is in flight. */
  ghost function Reopened(d: Disk, log: seq<byte>): Disk {
    var views := map r | r in d.g.views && EndOf(r) <= |log| :: Remembered(d.hist, r, d.g.views[r]);
    Disk(State(d.g.a, d.g.poolMax, log, |log|, map[], views, map[]), [log])
  }

  /** A create that succeeds with sync on has synced the log as well. */
  ghost function After(sync: bool, d: Disk, p: Step): Disk
    requires CanDo(d, p)
  {
    match p
    case Do(e) =>
      var h := Apply(d.g, e);
      Disk(h, if sync && e.EndBlock? && e.ok then [h.log] else d.hist + [h.log])
    case Persist(rc) => if sync && rc == 0 then d.(hist := [d.g.log]) else d
    case Crash(log) => Reopened(d, log)
  }

  ghost predicate CanRun(sync: bool, d: Disk, ps: seq<Step>)
    decreases |ps|
  {
    ps == [] || (CanDo(d, ps[0]) && CanRun(sync, After(sync, d, ps[0]), ps[1..]))
  }

  ghost function Ran(sync: bool, d: Disk, ps: seq<Step>): Disk
    requires CanRun(sync, d, ps)
    decreases |ps|
  {
    if ps == [] then d else Ran(sync, After(sync, d, ps[0]), ps[1..])
  }

  /** The backend's invariant, and the history ends with the log as it is. With sync on, every region
      handed out lies within the synced file. */
  ghost predicate DiskOk(sync: bool, d: Disk) {
    && Inv(d.g) && d.hist != [] && d.hist[|d.hist| - 1] == d.g.log && SUPERBLOCK <= |d.hist[0]| <= |d.g.log|
    && (sync ==> forall r :: r in d.g.views ==> EndOf(r) <= |d.hist[0]|)
  }

  lemma CrashKeepsInv(d: Disk, log: seq<byte>)
    requires Inv(d.g) && d.hist != [] && SUPERBLOCK <= |d.hist[0]| && CanDo(d, Crash(log))
    ensures Inv(Reopened(d, log).g)
  {
    hide Running, Reserved;
    var h := Reopened(d, log).g;
    forall r | r in h.views ensures Shows(log, r, h.views[r]) {
      assert Shows(d.g.log, r, d.g.views[r]);
      RememberedShows(d.hist, r, d.g.views[r], log);
    }
    NothingRuns(h);
  }

  lemma NothingRuns(h: State)
    requires h.a > 0 && h.pending == map[] && h.transfers == map[]
    ensures Running(h) && Reserved(h.a, h.logOffset, |h.log|, h.pending, h.views.Keys)
  {}

  lemma RememberedShows(hist: History, r: Region, v: View, log: seq<byte>)
    requires Survivor(hist, log) && |v| == r.size && EndOf(r) <= |log|
    ensures Shows(log, r, Remembered(hist, r, v))
  {
    var w := Remembered(hist, r, v);
    forall i | 0 <= i < |w| && w[i].Known? ensures log[r.off + i] == w[i].b {
      assert Secure(hist, r.off + i, v[i].b);
      assert From(hist, log, r.off + i);
    }
  }

  lemma LogGrows(g: State, e: Event)
    requires Inv(g) && Enabled(g, e)
    ensures |Apply(g, e).log| >= |g.log|
  {
    hide Inv, Enabled, Apply;
    SuperblockKept(g, e);
  }

  /** Only the end block of a create makes a region. */
  lemma NoOtherRegions(g: State, e: Event)
    requires Inv(g) && Enabled(g, e)
    ensures g.views.Keys <= Apply(g, e).views.Keys
    ensures !(e.EndBlock? && e.ok) ==> Apply(g, e).views.Keys == g.views.Keys
  {
    hide Layout, Refines, Sound, Reserved;
  }

  lemma AllInFile(g: State)
    requires Inv(g)
    ensures SUPERBLOCK <= |g.log| && forall r :: r in g.views ==> EndOf(r) <= |g.log|
  {
    hide Refines, Running, Reserved;
  }

  lemma DiskStep(sync: bool, d: Disk, p: Step)
    requires DiskOk(sync, d) && CanDo(d, p)
    ensures DiskOk(sync, After(sync, d, p))
    ensures sync ==> d.g.views.Keys <= After(sync, d, p).g.views.Keys
  {
    hide Inv, Apply, Enabled;
    AllInFile(d.g);
    if p.Do? {
      StepInv(d.g, p.e);
      AllInFile(Apply(d.g, p.e));
      LogGrows(d.g, p.e);
      NoOtherRegions(d.g, p.e);
    } else if p.Crash? {
      CrashKeepsInv(d, p.log);
    }
  }

  /** With sync on no region handed out is ever lost: over any run of events, syncs and crashes, the
      invariant holds and every region is still there, within whatever a further crash may leave. */
  lemma {:induction false} RegionsSurvive(sync: bool, d: Disk, ps: seq<Step>)
    requires DiskOk(sync, d) && CanRun(sync, d, ps)
    ensures DiskOk(sync, Ran(sync, d, ps))
    ensures sync ==> d.g.views.Keys <= Ran(sync, d, ps).g.views.Keys
    decreases |ps|
  {
    if ps != [] {
      hide DiskOk, After, CanDo;
      DiskStep(sync, d, ps[0]);
      RegionsSurvive(sync, After(sync, d, ps[0]), ps[1..]);
    }
  }

  /** In every version the region's bytes are those of `log`. */
  ghost predicate AllSame(hist: History, log: seq<byte>, r: Region) {
    EndOf(r) <= |log| && hist != [] && forall k :: 0 <= k < |hist| ==>
      EndOf(r) <= |hist[k]| && hist[k][r.off..EndOf(r)] == log[r.off..EndOf(r)]
  }

  /** Nobody is writing the region, what is known of it is v, and its bytes are those of `log` in every
      version. */
  ghost predicate Settled(d: Disk, log: seq<byte>, v: View, r: Region) {
    && Inv(d.g) && r in d.g.views && d.g.views[r] == v && !Writing(d.g, r)
    && AllSame(d.hist, log, r) && AllSame([d.g.log], log, r) && SUPERBLOCK <= |d.hist[0]|
  }

  lemma SettledStep(sync: bool, d: Disk, p: Step, log: seq<byte>, v: View, r: Region)
    requires Settled(d, log, v, r) && CanDo(d, p) && (p.Do? ==> !Mutates(p.e, r))
    ensures Settled(After(sync, d, p), log, v, r)
  {
    hide Inv, Apply, Enabled, Writing;
    AllInFile(d.g);
    if p.Do? {
      StepInv(d.g, p.e);
      AllInFile(Apply(d.g, p.e));
      BytesStay(d.g, p.e, r);
      ViewStays(d.g, p.e, r);
      StillQuiet(d.g, p.e, r);
      SameAgain(d.g.log, Apply(d.g, p.e).log, log, r);
    } else if p.Crash? {
      SettledCrash(d, p.log, log, v, r);
    }
  }

  /** A crash takes nothing away from what every version agrees on. */
  lemma SettledCrash(d: Disk, left: seq<byte>, log: seq<byte>, v: View, r: Region)
    requires Settled(d, log, v, r) && CanDo(d, Crash(left))
    ensures Settled(Reopened(d, left), log, v, r)
  {
    hide Inv;
    CrashKeepsInv(d, left);
    SameSurvives(d.hist, log, r, left);
    ShownBytes(d.g, r);
    forall i | 0 <= i < |v| && v[i].Known? ensures Secure(d.hist, r.off + i, v[i].b) {
      SecureByte(d.hist, d.g.log, log, r, i);
    }
    assert Remembered(d.hist, r, v) == v;
    assert [left][0] == left;
  }

  lemma ShownBytes(g: State, r: Region)
    requires Inv(g) && r in g.views
    ensures Shows(g.log, r, g.views[r])
  {}

  lemma SecureByte(hist: History, now: seq<byte>, log: seq<byte>, r: Region, i: nat)
    requires AllSame(hist, log, r) && AllSame([now], log, r) && i < r.size
    ensures EndOf(r) <= |now| && Secure(hist, r.off + i, now[r.off + i])
  {
    assert [now][0] == now;
    assert now[r.off..EndOf(r)][i] == log[r.off..EndOf(r)][i];
    forall k | 0 <= k < |hist| && r.off + i < |hist[k]| ensures hist[k][r.off + i] == now[r.off + i] {
      assert hist[k][r.off..EndOf(r)][i] == log[r.off..EndOf(r)][i];
    }
  }

  lemma StillQuiet(g: State, e: Event, r: Region)
    requires Inv(g) && Enabled(g, e) && !Writing(g, r) && !Mutates(e, r)
    ensures !Writing(Apply(g, e), r)
  {
    hide Sound, Reserved, Refines;
    NobodyWrites(g, e, r);
  }

  lemma SameAgain(now: seq<byte>, next: seq<byte>, log: seq<byte>, r: Region)
    requires AllSame([now], log, r) && SameRegion(now, next, r)
    ensures AllSame([next], log, r)
  {
    assert [now][0] == now;
  }

  lemma {:induction false} SettledRun(sync: bool, d: Disk, ps: seq<Step>, log: seq<byte>, v: View, r: Region)
    requires Settled(d, log, v, r) && CanRun(sync, d, ps) && forall p :: p in ps && p.Do? ==> !Mutates(p.e, r)
    ensures Settled(Ran(sync, d, ps), log, v, r)
    decreases |ps|
  {
    if ps != [] {
      hide Settled, After, CanDo;
      assert ps[0] in ps;
      SettledStep(sync, d, ps[0], log, v, r);
      SettledRun(sync, After(sync, d, ps[0]), ps[1..], log, v, r);
    }
  }

  /** What is the same in every version is what a crash leaves. */
  lemma SameSurvives(hist: History, log: seq<byte>, r: Region, log': seq<byte>)
    requires AllSame(hist, log, r) && Survivor(hist, log')
    ensures EndOf(r) <= |log'| && log'[r.off..EndOf(r)] == log[r.off..EndOf(r)]
  {
    assert EndOf(r) <= |hist[0]|;
    forall p | r.off <= p < EndOf(r) ensures log'[p] == log[p] {
      assert From(hist, log', p);
      var k :| 0 <= k < |hist| && p < |hist[k]| && hist[k][p] == log'[p];
      assert hist[k][r.off..EndOf(r)][p - r.off] == log[r.off..EndOf(r)][p - r.off];
    }
  }

  /** With sync on, a region that is persisted while nobody writes it keeps its bytes, and what is known
      of them, through any number of crashes and reopens and through everything else that does not
      write or remove it, later creates included. */
  lemma PersistedSurvives(d: Disk, r: Region, ps: seq<Step>, t: Disk)
    requires Inv(d.g) && r in d.g.views && !Writing(d.g, r)
    requires CanRun(true, After(true, d, Persist(0)), ps) && t == Ran(true, After(true, d, Persist(0)), ps)
    requires forall p :: p in ps && p.Do? ==> !Mutates(p.e, r)
    ensures Inv(t.g) && r in t.g.views && t.g.views[r] == d.g.views[r] && !Writing(t.g, r)
    ensures EndOf(r) <= |d.g.log| && EndOf(r) <= |t.g.log| && t.g.log[r.off..EndOf(r)] == d.g.log[r.off..EndOf(r)]
    ensures forall left :: Survivor(t.hist, left) ==>
              EndOf(r) <= |left| && left[r.off..EndOf(r)] == d.g.log[r.off..EndOf(r)]
  {
    var d1 := After(true, d, Persist(0));
    AllInFile(d.g);
    var log, v := d.g.log, d.g.views[r];
    PersistSettles(d, r);
    hide Settled, Inv, Survivor;
    SettledRun(true, d1, ps, log, v, r);
    SettledMeans(t, log, v, r);
    forall left | Survivor(t.hist, left)
      ensures EndOf(r) <= |left| && left[r.off..EndOf(r)] == log[r.off..EndOf(r)]
    {
      SameSurvives(t.hist, log, r, left);
    }
  }

  lemma PersistSettles(d: Disk, r: Region)
    requires Inv(d.g) && r in d.g.views && !Writing(d.g, r)
    ensures Settled(After(true, d, Persist(0)), d.g.log, d.g.views[r], r)
  {
    hide Inv, Writing;
    AllInFile(d.g);
  }

  lemma SettledMeans(d: Disk, log: seq<byte>, v: View, r: Region)
    requires Settled(d, log, v, r)
    ensures Inv(d.g) && r in d.g.views && d.g.views[r] == v && !Writing(d.g, r) && AllSame(d.hist, log, r)
    ensures EndOf(r) <= |log| && EndOf(r) <= |d.g.log| && d.g.log[r.off..EndOf(r)] == log[r.off..EndOf(r)]
  {
    hide Inv, Writing;
    assert [d.g.log][0] == d.g.log;
  }

  /** Event e, a persist that succeeds with sync on, and the steps ps lead to t. */
  ghost predicate AfterPersist(d: Disk, e: Event, ps: seq<Step>, t: Disk) {
    Enabled(d.g, e) &&
    var d1 := After(true, After(true, d, Do(e)), Persist(0));
    CanRun(true, d1, ps) && t == Ran(true, d1, ps)
  }

  /** So what was written, and then persisted, is there after all those crashes: in the log, in what
      another crash would leave, in what clients may rely on, and in bulk reads that return 0. */
  lemma WrittenSurvives(d: Disk, e: Event, r: Region, data: seq<byte>, ps: seq<Step>, t: Disk)
    requires Inv(d.g) && Wrote(d.g, e, r, data) && AfterPersist(d, e, ps, t)
    requires forall p :: p in ps && p.Do? ==> !Mutates(p.e, r)
    ensures Inv(t.g) && r in t.g.views && Holds(t.g.views[r], data) && LogHas(t.g.log, r, data)
    ensures forall left :: Survivor(t.hist, left) ==> LogHas(left, r, data)
    ensures forall y :: y in t.g.transfers ==> BulkDelivers(t.g, y, r, data)
  {
    hide Inv, Holds, Mutates, Survivor, Writing, BulkDelivers, LogHas, Enabled, Wrote;
    var d0 := After(true, d, Do(e));
    WroteHolds(d.g, e, r, data);
    HeldIsLogged(d0.g, r, data);
    PersistedSurvives(d0, r, ps, t);
    HeldIsLogged(t.g, r, data);
    forall left | Survivor(t.hist, left) ensures LogHas(left, r, data) { SameBytesHas(d0.g.log, left, r, data); }
    forall y | y in t.g.transfers ensures BulkDelivers(t.g, y, r, data) { BulkReadOfHeld(t.g, y, r, data); }
  }

  lemma SameBytesHas(log: seq<byte>, left: seq<byte>, r: Region, data: seq<byte>)
    requires LogHas(log, r, data) && EndOf(r) <= |left| && left[r.off..EndOf(r)] == log[r.off..EndOf(r)]
    ensures LogHas(left, r, data)
  {
    assert left[r.off..EndOf(r)][..|data|] == left[r.off..r.off + |data|];
    assert log[r.off..EndOf(r)][..|data|] == log[r.off..r.off + |data|];
  }

  /** After a persist that succeeded with sync on, a crash can leave nothing but the log as it is. */
  lemma OnlyNow(log: seq<byte>, log': seq<byte>)
    ensures Survivor([log], log') <==> log' == log
  {
    if Survivor([log], log') {
      forall p | 0 <= p < |log'| ensures log'[p] == log[p] { assert From([log], log', p); }
    }
    if log' == log {
      assert [log][0] == log;
      forall p | 0 <= p < |log'| ensures From([log], log', p) { assert [log][0][p] == log'[p]; }
    }
  }

  /** With sync off a persist reports success and secures nothing. From every state: data that the log
      does not have yet is completely written and then persisted, with success, and a crash can still
      leave a log without it. */
  lemma UnsyncedPersistLoses(d: Disk, r: Region, data: seq<byte>, rc: int)
    returns (e: Event, left: seq<byte>)
    requires DiskOk(false, d) && r in d.g.views && !Busy(d.g, r) && |data| <= r.size && !LogHas(d.g.log, r, data)
    ensures Wrote(d.g, e, r, data) && CanDo(d, Do(e)) && PersistCode(false, rc) == Success
    ensures var t := After(false, After(false, d, Do(e)), Persist(rc));
            LogHas(t.g.log, r, data) && Survivor(t.hist, left) && !LogHas(left, r, data)
  {
    hide Inv, Holds, LogHas, Busy, Apply, Survivor;
    e := CompleteWrite(d.g, r, data);
    WroteHolds(d.g, e, r, data);
    HeldIsLogged(Apply(d.g, e), r, data);
    left := d.g.log;
    OldVersion(d.hist, Apply(d.g, e).log);
  }

  lemma CompleteWrite(g: State, r: Region, data: seq<byte>) returns (e: Event)
    requires Inv(g) && r in g.views && !Busy(g, r) && |data| <= r.size
    ensures Wrote(g, e, r, data) && e.WriteRaw?
  {
    hide Refines, Running, Reserved;
    AlignFacts(|data|, g.a);
    var left := data + seq(AlignUp(|data|, g.a) - |data|, _ => 0);
    assert left[..|data|] == data;
    e := WriteRaw(r, 0, data, left, |left|);
  }

  /** The last version but one can be what a crash leaves. */
  lemma OldVersion(hist: History, next: seq<byte>)
    requires hist != [] && |hist[0]| <= |hist[|hist| - 1]|
    ensures Survivor(hist + [next], hist[|hist| - 1])
  {
    var n, h := |hist| - 1, hist + [next];
    assert h[n] == hist[n] && h[0] == hist[0];
    forall p | 0 <= p < |hist[n]| ensures From(h, hist[n], p) { assert h[n][p] == hist[n][p]; }
  }
}
