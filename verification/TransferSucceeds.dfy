/** What a transfer promises for the result 0 is not promised in vain: when both ranges exist, it
    can be driven to that result from the start, for every size and every number of workers. */
module TransferSucceeds {
  import opened Basics
  import opened Transfer
  import opened TransferInvariant
  import opened TransferData
  import opened TransferTheorems

  /** No I/O has failed so far. */
  ghost predicate Clean(s: State) {
    s.recorded == [] && forall i :: 0 <= i < |s.workers| ==> !Pending(s.workers[i])
  }

  predicate Reachable(c: Config, s: State) { c.remoteStart + c.transmit <= |s.remote| }

  /** An I/O step of this kind succeeds. */
  predicate Succeeds(c: Config, s: State, e: Event)
    requires Enabled(c, s, e)
  {
    && (e.Io1? ==> !Failed1(c, s.chunks[s.workers[e.w].k], e.rc))
    && (e.Io2? ==> !Failed2(c, s.chunks[s.workers[e.w].k], e.rc))
  }

  /** Every step of the schedule is the transfer's own, and every I/O in it succeeds. */
  predicate AllSucceed(c: Config, s: State, es: seq<Event>)
    requires Legal(c, s, es)
    decreases |es|
  {
    es == [] || (!es[0].Env? && Succeeds(c, s, es[0]) && AllSucceed(c, Apply(c, s, es[0]), es[1..]))
  }

  lemma AllSucceedCons(c: Config, s: State, e: Event, rest: seq<Event>)
    requires Enabled(c, s, e) && Legal(c, Apply(c, s, e), rest) && Legal(c, s, [e] + rest)
    requires !e.Env? && Succeeds(c, s, e) && AllSucceed(c, Apply(c, s, e), rest)
    ensures AllSucceed(c, s, [e] + rest)
  {
    assert ([e] + rest)[1..] == rest;
  }

  lemma CleanStep(c: Config, s: State, e: Event)
    requires Enabled(c, s, e) && !e.Env? && Clean(s) && Succeeds(c, s, e)
    ensures Clean(Apply(c, s, e)) && |Apply(c, s, e).remote| == |s.remote|
  {}

  /** While nothing has failed, whoever does I/O owns a good chunk with a good buffer. */
  lemma HolderIsGood(c: Config, s: State, w: nat)
    requires Core(c, s) && Data(c, s) && Clean(s) && Reachable(c, s) && IsHeld(s, w)
    ensures var ch := s.chunks[s.workers[w].k];
            && ch.ok && Shaped(c, ch) && RemoteAt(c, ch) + ch.txSize <= |s.remote| && LogAt(c, ch) + ch.size <= |s.log|
            && HolderData(c, s.log, s.remote, s.workers[w], ch)
  {
    var ch := s.chunks[s.workers[w].k];
    assert Shaped(c, ch);
    assert ch.owner == w && ch.status.InFlight?;
  }

  lemma GoodPull(c: Config, s: State, w: nat, data: seq<byte>)
    requires c.op.WRITE? && IsHeld(s, w) && s.workers[w].First?
    requires var ch := s.chunks[s.workers[w].k];
             && ch.txSize <= ch.size == |data| && RemoteAt(c, ch) + ch.txSize <= |s.remote|
             && data[..ch.txSize] == s.remote[RemoteAt(c, ch)..RemoteAt(c, ch) + ch.txSize]
    ensures Enabled(c, s, Io1(w, 0, data)) && Succeeds(c, s, Io1(w, 0, data))
  {}

  lemma GoodPread(c: Config, s: State, w: nat)
    requires c.op.READ? && IsHeld(s, w) && s.workers[w].First?
    requires var ch := s.chunks[s.workers[w].k]; LogAt(c, ch) + ch.size <= |s.log|
    ensures var ch := s.chunks[s.workers[w].k];
            var e := Io1(w, ch.size, s.log[LogAt(c, ch)..LogAt(c, ch) + ch.size]);
            Enabled(c, s, e) && Succeeds(c, s, e)
  {}

  lemma GoodFirst(c: Config, s: State, w: nat) returns (e: Event)
    requires Core(c, s) && Data(c, s) && Clean(s) && Reachable(c, s) && IsHeld(s, w) && s.workers[w].First?
    ensures Enabled(c, s, e) && !e.Env? && Succeeds(c, s, e)
  {
    hide Core, Data, Clean, Enabled, Succeeds, HolderData;
    HolderIsGood(c, s, w);
    var ch := s.chunks[s.workers[w].k];
    if c.op.WRITE? {
      var sent := s.remote[RemoteAt(c, ch)..RemoteAt(c, ch) + ch.txSize];
      var data := sent + seq(ch.size - ch.txSize, _ => 0);
      assert data[..ch.txSize] == sent;
      GoodPull(c, s, w, data);
      e := Io1(w, 0, data);
    } else {
      GoodPread(c, s, w);
      e := Io1(w, ch.size, s.log[LogAt(c, ch)..LogAt(c, ch) + ch.size]);
    }
  }

  lemma GoodPwrite(c: Config, s: State, w: nat)
    requires c.op.WRITE? && IsHeld(s, w) && s.workers[w].Second?
    requires |s.workers[w].buf| == s.chunks[s.workers[w].k].size
    ensures var e := Io2(w, s.chunks[s.workers[w].k].size, s.workers[w].buf); Enabled(c, s, e) && Succeeds(c, s, e)
  {}

  lemma GoodPush(c: Config, s: State, w: nat)
    requires c.op.READ? && IsHeld(s, w) && s.workers[w].Second?
    requires var ch := s.chunks[s.workers[w].k];
             RemoteAt(c, ch) + ch.txSize <= |s.remote| && ch.txSkip + ch.txSize <= |s.workers[w].buf|
    ensures var ch := s.chunks[s.workers[w].k];
            var e := Io2(w, 0, s.workers[w].buf[ch.txSkip..ch.txSkip + ch.txSize]);
            Enabled(c, s, e) && Succeeds(c, s, e)
  {}

  lemma GoodSecond(c: Config, s: State, w: nat) returns (e: Event)
    requires Core(c, s) && Data(c, s) && Clean(s) && Reachable(c, s) && IsHeld(s, w) && s.workers[w].Second?
    ensures Enabled(c, s, e) && !e.Env? && Succeeds(c, s, e)
  {
    hide Core, Data, Clean, Enabled, Succeeds;
    HolderIsGood(c, s, w);
    var ch, buf := s.chunks[s.workers[w].k], s.workers[w].buf;
    if c.op.WRITE? {
      GoodPwrite(c, s, w);
      e := Io2(w, ch.size, buf);
    } else {
      GoodPush(c, s, w);
      e := Io2(w, 0, buf[ch.txSkip..ch.txSkip + ch.txSize]);
    }
  }

  lemma GoodEvent(c: Config, s: State) returns (e: Event)
    requires WellFormed(c) && Inv(c, s) && Clean(s) && Reachable(c, s) && |s.workers| > 0 && s.result.None?
    ensures Enabled(c, s, e) && !e.Env? && Succeeds(c, s, e)
  {
    hide Core, Data, Clean;
    e := SomeoneCanStep(c, s);
    if e.Io1? { e := GoodFirst(c, s, e.w); } else if e.Io2? { e := GoodSecond(c, s, e.w); }
  }

  /** As long as nothing has failed the transfer can return without anything failing. */
  lemma {:induction false} SucceedFrom(c: Config, s: State) returns (es: seq<Event>)
    requires WellFormed(c) && Inv(c, s) && Clean(s) && Reachable(c, s) && |s.workers| > 0
    ensures Legal(c, s, es) && AllSucceed(c, s, es)
    ensures Run(c, s, es).result.Some? && Run(c, s, es).recorded == []
    decreases Measure(c, s)
  {
    hide Ownership, Errors, Data, Lifecycle, Succeeds;
    if s.result.Some? {
      es := [];
    } else {
      var e := GoodEvent(c, s);
      SucceedStep(c, s, e);
      var rest := SucceedFrom(c, Apply(c, s, e));
      RunCons(c, s, e, rest);
      AllSucceedCons(c, s, e, rest);
      es := [e] + rest;
    }
  }

  lemma SucceedStep(c: Config, s: State, e: Event)
    requires WellFormed(c) && Inv(c, s) && Clean(s) && Reachable(c, s) && |s.workers| > 0
    requires Enabled(c, s, e) && !e.Env? && Succeeds(c, s, e)
    ensures var t := Apply(c, s, e);
            Inv(c, t) && Clean(t) && Reachable(c, t) && |t.workers| > 0 && Measure(c, t) < Measure(c, s)
  {
    CleanStep(c, s, e);
    InvStep(c, s, e);
    CrewStays(c, s, e);
    StepShrinks(c, s, e);
  }

  /** Every non-empty transfer between ranges that exist has a schedule that returns 0 with every
      chunk delivered. */
  lemma SomeScheduleSucceeds(c: Config, log: seq<byte>, remote: seq<byte>) returns (es: seq<Event>)
    requires WellFormed(c) && c.logLen > 0 && c.logStart + c.logLen <= |log| && c.remoteStart + c.transmit <= |remote|
    ensures Legal(c, Init(c, log, remote), es) && AllSucceed(c, Init(c, log, remote), es)
    ensures var s := Run(c, Init(c, log, remote), es); s.result == Some(0) && AllDelivered(c, s)
  {
    InitHolds(c, log, remote);
    es := SucceedFrom(c, Init(c, log, remote));
    ReturnCode(c, log, remote, es);
  }
}
