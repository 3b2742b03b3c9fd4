/** What every step of a transfer keeps. */
module TransferInvariant {
  import opened Basics
  import opened Transfer

  // ---------- sums over workers and chunks ----------

  ghost function Total(ws: seq<Worker>, f: Worker -> nat): nat {
    if ws == [] then 0 else Total(ws[..|ws| - 1], f) + f(ws[|ws| - 1])
  }

  lemma {:induction false} TotalUpdate(ws: seq<Worker>, i: nat, x: Worker, f: Worker -> nat)
    requires i < |ws|
    ensures Total(ws[i := x], f) + f(ws[i]) == Total(ws, f) + f(x)
  {
    var n := |ws| - 1;
    if i == n {
      assert ws[i := x][..n] == ws[..n];
    } else {
      assert ws[i := x][..n] == ws[..n][i := x];
      TotalUpdate(ws[..n], i, x, f);
    }
  }

  lemma {:induction false} TotalAtLeast(ws: seq<Worker>, i: nat, f: Worker -> nat)
    requires i < |ws|
    ensures Total(ws, f) >= f(ws[i])
  {
    if i < |ws| - 1 { TotalAtLeast(ws[..|ws| - 1], i, f); }
  }

  lemma {:induction false} TotalZero(ws: seq<Worker>, f: Worker -> nat)
    requires forall i :: 0 <= i < |ws| ==> f(ws[i]) == 0
    ensures Total(ws, f) == 0
  {
    if ws != [] { TotalZero(ws[..|ws| - 1], f); }
  }

  ghost function Bytes(chunks: seq<Chunk>, st: Status): nat {
    if chunks == [] then 0
    else Bytes(chunks[..|chunks| - 1], st)
         + if chunks[|chunks| - 1].status == st then chunks[|chunks| - 1].size else 0
  }

  ghost function Weight(ch: Chunk, st: Status): nat { if ch.status == st then ch.size else 0 }

  lemma {:induction false} BytesUpdate(chunks: seq<Chunk>, k: nat, ch: Chunk, st: Status)
    requires k < |chunks|
    ensures Bytes(chunks[k := ch], st) + Weight(chunks[k], st) == Bytes(chunks, st) + Weight(ch, st)
  {
    var n := |chunks| - 1;
    if k == n {
      assert chunks[k := ch][..n] == chunks[..n];
    } else {
      assert chunks[k := ch][..n] == chunks[..n][k := ch];
      BytesUpdate(chunks[..n], k, ch, st);
    }
  }

  lemma BytesAppend(chunks: seq<Chunk>, ch: Chunk, st: Status)
    ensures Bytes(chunks + [ch], st) == Bytes(chunks, st) + Weight(ch, st)
  {
    assert (chunks + [ch])[..|chunks|] == chunks;
  }

  // ---------- the invariant ----------

  function Undecremented(w: Worker): nat { if Decremented(w) then 0 else 1 }
  function AtLastOut(w: Worker): nat { if w.LastOut? then 1 else 0 }
  function AtSignalling(w: Worker): nat { if w.Signalling? then 1 else 0 }

  /** Workers exist up to `spawned`, ults_active counts those that have not decremented it, and
      the teardown happens once, after the count reached zero. */
  ghost predicate Lifecycle(s: State) {
    && s.spawned <= |s.workers|
    && (forall i :: 0 <= i < |s.workers| ==> (s.workers[i].Unspawned? <==> i >= s.spawned))
    && s.ultsActive == Total(s.workers, Undecremented)
    && (if s.ultsActive > 0 || |s.workers| == 0
        then Total(s.workers, AtLastOut) == 0 && Total(s.workers, AtSignalling) == 0
             && s.mutexFrees == 0 && s.signals == 0
        else Total(s.workers, AtLastOut) + s.mutexFrees == 1
             && Total(s.workers, AtLastOut) + Total(s.workers, AtSignalling) + s.signals == 1)
    && (s.result.Some? ==> s.signals == 1)
  }

  ghost predicate Shaped(c: Config, ch: Chunk) {
    && 0 < ch.size <= c.poolMax
    && ch.off + ch.size <= c.logLen
    && ch.rem == TxPos(c, ch.off)
    && ch.rem + ch.txSize == TxPos(c, ch.off + ch.size)
    && ch.txSkip + ch.txSize <= ch.size
    && (ch.txSize > 0 ==> ch.off + ch.txSkip == c.skip + ch.rem)
  }

  function End(ch: Chunk): nat { ch.off + ch.size }

  function NextOff(s: State, k: nat): nat {
    if k + 1 < |s.chunks| then s.chunks[k + 1].off else s.logIssued
  }

  /** The claims tile the log extent from its start, without gap or overlap. */
  ghost predicate Tiling(c: Config, s: State) {
    && s.logIssued <= c.logLen
    && s.transmitIssued == TxPos(c, s.logIssued)
    && (s.logIssued == 0 || s.logIssued == c.logLen || s.logIssued >= c.poolMax)
    && (forall k :: 0 <= k < |s.chunks| ==> Shaped(c, s.chunks[k]))
    && (forall j, k :: 0 <= j < k < |s.chunks| ==> End(s.chunks[j]) <= s.chunks[k].off)
    && (forall k :: 0 <= k < |s.chunks| ==> End(s.chunks[k]) == NextOff(s, k))
    && (forall k :: 0 <= k < |s.chunks| ==> End(s.chunks[k]) <= s.logIssued)
    && (if |s.chunks| == 0 then s.logIssued == 0 else s.chunks[0].off == 0)
  }

  /** A chunk is in flight exactly while its owner holds it. */
  ghost predicate Ownership(s: State) {
    && (forall i :: 0 <= i < |s.workers| && Holds(s.workers[i]) ==>
          && s.workers[i].k < |s.chunks|
          && s.chunks[s.workers[i].k].owner == i
          && s.chunks[s.workers[i].k].status.InFlight?)
    && (forall k :: 0 <= k < |s.chunks| && s.chunks[k].status.InFlight? ==>
          && s.chunks[k].owner < |s.workers|
          && Holds(s.workers[s.chunks[k].owner])
          && s.workers[s.chunks[k].owner].k == k)
  }

  predicate Pending(w: Worker) {
    (w.Tested1? && w.failed) || (w.Tested2? && w.failed) || w.Storing?
  }

  /** An error is recorded, or still on its way to being tested. */
  ghost predicate Errors(c: Config, s: State) {
    && s.ret == (if s.recorded == [] then 0 else s.recorded[|s.recorded| - 1])
    && (forall k :: 0 <= k < |s.chunks| && !s.chunks[k].ok ==>
          s.recorded != [] || (s.chunks[k].status.InFlight? && s.chunks[k].owner < |s.workers|
                               && Pending(s.workers[s.chunks[k].owner])))
    && (forall k :: 0 <= k < |s.chunks| && s.chunks[k].status.Abandoned? ==>
          s.recorded != [] && !s.chunks[k].ok)
    && (forall i :: 0 <= i < |s.workers| && Pending(s.workers[i]) ==>
          s.workers[i].k < |s.chunks| && !s.chunks[s.workers[i].k].ok)
    && (s.recorded != [] ==> exists k :: 0 <= k < |s.chunks| && !s.chunks[k].ok)
    && (forall i :: 0 <= i < |s.workers| && Departed(s.workers[i]) ==>
          s.logIssued == c.logLen || s.recorded != [])
    && s.logRetired == Bytes(s.chunks, Retired)
    && s.logIssued == Bytes(s.chunks, Retired) + Bytes(s.chunks, InFlight) + Bytes(s.chunks, Abandoned)
  }

  // ---------- steps keep Lifecycle ----------

  ghost predicate SameCounts(s: State, t: State) {
    && t.ultsActive == s.ultsActive && t.mutexFrees == s.mutexFrees && t.signals == s.signals
    && t.spawned == s.spawned && t.result == s.result
  }

  /** A worker moving between states that have not decremented changes no count. */
  lemma LifecycleMove(s: State, t: State, w: nat, x: Worker)
    requires Lifecycle(s) && w < |s.workers| && t.workers == s.workers[w := x] && SameCounts(s, t)
    requires !Decremented(s.workers[w]) && !Decremented(x)
    requires !s.workers[w].Unspawned? && !x.Unspawned?
    ensures Lifecycle(t)
  {
    TotalUpdate(s.workers, w, x, Undecremented);
    TotalUpdate(s.workers, w, x, AtLastOut);
    TotalUpdate(s.workers, w, x, AtSignalling);
  }

  lemma CountsMove(ws: seq<Worker>, w: nat, x: Worker)
    requires w < |ws|
    ensures Total(ws[w := x], Undecremented) + Undecremented(ws[w]) == Total(ws, Undecremented) + Undecremented(x)
    ensures Total(ws[w := x], AtLastOut) + AtLastOut(ws[w]) == Total(ws, AtLastOut) + AtLastOut(x)
    ensures Total(ws[w := x], AtSignalling) + AtSignalling(ws[w]) == Total(ws, AtSignalling) + AtSignalling(x)
    ensures Total(ws, Undecremented) >= Undecremented(ws[w])
    ensures Total(ws, AtLastOut) >= AtLastOut(ws[w])
    ensures Total(ws, AtSignalling) >= AtSignalling(ws[w])
  {
    TotalUpdate(ws, w, x, Undecremented);
    TotalUpdate(ws, w, x, AtLastOut);
    TotalUpdate(ws, w, x, AtSignalling);
    TotalAtLeast(ws, w, Undecremented);
    TotalAtLeast(ws, w, AtLastOut);
    TotalAtLeast(ws, w, AtSignalling);
  }

  lemma LifecycleSpawn(c: Config, s: State)
    requires Lifecycle(s) && Enabled(c, s, Spawn)
    ensures Lifecycle(Apply(c, s, Spawn))
  {
    CountsMove(s.workers, s.spawned, Ready);
  }

  lemma LifecycleLeave(c: Config, s: State, w: nat)
    requires Lifecycle(s) && Enabled(c, s, Leave(w))
    ensures Lifecycle(Apply(c, s, Leave(w)))
  {
    CountsMove(s.workers, w, if s.ultsActive - 1 == 0 then LastOut else Gone);
  }

  lemma LifecycleFree(c: Config, s: State, w: nat)
    requires Lifecycle(s) && Enabled(c, s, FreeMutex(w))
    ensures Lifecycle(Apply(c, s, FreeMutex(w)))
  {
    CountsMove(s.workers, w, Signalling);
  }

  lemma LifecycleSignal(c: Config, s: State, w: nat)
    requires Lifecycle(s) && Enabled(c, s, Signal(w))
    ensures Lifecycle(Apply(c, s, Signal(w)))
  {
    CountsMove(s.workers, w, Gone);
  }

  predicate Working(e: Event) {
    e.Enter? || e.Io1? || e.Test1? || e.Io2? || e.Test2? || e.Store?
  }

  /** Steps inside the worker loop move one worker and touch no lifecycle field. */
  lemma WorkingMove(c: Config, s: State, e: Event) returns (x: Worker)
    requires Enabled(c, s, e) && Working(e)
    ensures e.w < |s.workers| && Apply(c, s, e).workers == s.workers[e.w := x]
    ensures SameCounts(s, Apply(c, s, e))
    ensures (s.workers[e.w].Ready? || Holds(s.workers[e.w])) && (x.Leaving? || Holds(x))
  {
    x := Apply(c, s, e).workers[e.w];
  }

  lemma LifecycleWorking(c: Config, s: State, e: Event)
    requires Lifecycle(s) && Enabled(c, s, e) && Working(e)
    ensures Lifecycle(Apply(c, s, e))
  {
    var x := WorkingMove(c, s, e);
    LifecycleMove(s, Apply(c, s, e), e.w, x);
  }

  lemma LifecycleOutside(c: Config, s: State, e: Event)
    requires Lifecycle(s) && Enabled(c, s, e) && (e.Return? || e.Env?)
    ensures Lifecycle(Apply(c, s, e))
  {}

  lemma LifecycleStep(c: Config, s: State, e: Event)
    requires Lifecycle(s) && Enabled(c, s, e)
    ensures Lifecycle(Apply(c, s, e))
  {
    if Working(e) { LifecycleWorking(c, s, e); }
    else if e.Return? || e.Env? { LifecycleOutside(c, s, e); }
    else if e.Spawn? { LifecycleSpawn(c, s); }
    else if e.Leave? { LifecycleLeave(c, s, e.w); }
    else if e.FreeMutex? { LifecycleFree(c, s, e.w); }
    else { LifecycleSignal(c, s, e.w); }
  }

  // ---------- Enter in two halves ----------

  /** Retiring a finished chunk, with the worker back at the top of its loop. */
  function Retreat(s: State, w: nat): State
    requires IsHeld(s, w) && s.workers[w].Done?
  {
    Move(Retire(s, w), w, Ready)
  }

  predicate CanClaim(c: Config, s: State) {
    s.logIssued < c.logLen && s.ret == 0
      && ThisLogSize(c, s.logIssued) >= 0 && ThisTransmitSize(c, s.logIssued, s.transmitIssued) >= 0
  }

  lemma EnterHalves(c: Config, s: State, w: nat)
    requires Enabled(c, s, Enter(w)) && s.workers[w].Done?
    ensures Apply(c, s, Enter(w)) == ClaimOrLeave(c, Retreat(s, w), w)
  {
    var ws := s.workers;
    assert ws[w := Ready][w := Leaving] == ws[w := Leaving];
    assert ws[w := Ready][w := First(|s.chunks|)] == ws[w := First(|s.chunks|)];
  }

  // ---------- steps keep Tiling ----------

  ghost predicate SameExtent(a: Chunk, b: Chunk) {
    a.off == b.off && a.size == b.size && a.rem == b.rem && a.txSkip == b.txSkip && a.txSize == b.txSize
      && a.owner == b.owner
  }

  ghost predicate SameLayout(s: State, t: State) {
    && t.logIssued == s.logIssued && t.transmitIssued == s.transmitIssued
    && |t.chunks| == |s.chunks|
    && (forall k :: 0 <= k < |s.chunks| ==> SameExtent(t.chunks[k], s.chunks[k]))
  }

  lemma TilingSame(c: Config, s: State, t: State)
    requires Tiling(c, s) && SameLayout(s, t)
    ensures Tiling(c, t)
  {
    forall k | 0 <= k < |t.chunks|
      ensures Shaped(c, t.chunks[k]) && End(t.chunks[k]) == NextOff(t, k) && End(t.chunks[k]) <= t.logIssued
    {
      assert SameExtent(t.chunks[k], s.chunks[k]) && Shaped(c, s.chunks[k]);
      if k + 1 < |t.chunks| { assert SameExtent(t.chunks[k + 1], s.chunks[k + 1]); }
    }
    forall j, k | 0 <= j < k < |t.chunks|
      ensures End(t.chunks[j]) <= t.chunks[k].off
    {
      assert SameExtent(t.chunks[j], s.chunks[j]) && SameExtent(t.chunks[k], s.chunks[k]);
    }
  }

  lemma ClaimShape(c: Config, s: State, w: nat) returns (ch: Chunk)
    requires WellFormed(c) && Tiling(c, s) && w < |s.workers| && CanClaim(c, s)
    ensures Shaped(c, ch) && ch.off == s.logIssued && ch.ok && ch.status.InFlight? && ch.owner == w && ch.sends == 0
    ensures End(ch) == c.logLen || End(ch) >= c.poolMax
    ensures ClaimOrLeave(c, s, w) == s.(workers := s.workers[w := First(|s.chunks|)], chunks := s.chunks + [ch],
                                        logIssued := End(ch), transmitIssued := TxPos(c, End(ch)))
  {
    ClaimArithmetic(c, s.logIssued);
    ch := ClaimOrLeave(c, s, w).chunks[|s.chunks|];
  }

  lemma TilingClaim(c: Config, s: State, t: State, ch: Chunk)
    requires Tiling(c, s) && Shaped(c, ch) && ch.off == s.logIssued
    requires t.chunks == s.chunks + [ch] && t.logIssued == End(ch) && t.transmitIssued == TxPos(c, End(ch))
    requires End(ch) == c.logLen || End(ch) >= c.poolMax
    ensures Tiling(c, t)
  {
    var n := |s.chunks|;
    forall k | 0 <= k < |t.chunks|
      ensures Shaped(c, t.chunks[k]) && End(t.chunks[k]) == NextOff(t, k) && End(t.chunks[k]) <= t.logIssued
    {
      if k < n {
        assert t.chunks[k] == s.chunks[k] && End(s.chunks[k]) == NextOff(s, k);
        if k + 1 < n { assert t.chunks[k + 1] == s.chunks[k + 1]; }
      }
    }
    forall j, k | 0 <= j < k < |t.chunks|
      ensures End(t.chunks[j]) <= t.chunks[k].off
    {
      assert t.chunks[j] == s.chunks[j];
      if k < n { assert t.chunks[k] == s.chunks[k]; }
    }
  }

  // ---------- steps keep Ownership ----------

  /** Worker w, which holds chunk k, becomes x while the chunk becomes ch. */
  ghost predicate Touches(s: State, t: State, w: nat, x: Worker, k: nat, ch: Chunk) {
    && IsHeld(s, w) && s.workers[w].k == k
    && SameExtent(ch, s.chunks[k])
    && t.workers == s.workers[w := x] && t.chunks == s.chunks[k := ch]
  }

  /** The two ways a holder can move: still holding its chunk in flight, or letting go of it. */
  ghost predicate Consistent(x: Worker, k: nat, ch: Chunk) {
    if Holds(x) then x.k == k && ch.status.InFlight? else !ch.status.InFlight?
  }

  lemma OwnershipTouch(s: State, t: State, w: nat, x: Worker, k: nat, ch: Chunk)
    requires Ownership(s) && Touches(s, t, w, x, k, ch) && Consistent(x, k, ch)
    ensures Ownership(t)
  {
    forall i | 0 <= i < |t.workers| && Holds(t.workers[i])
      ensures t.workers[i].k < |t.chunks| && t.chunks[t.workers[i].k].owner == i
              && t.chunks[t.workers[i].k].status.InFlight?
    {
      if i != w { assert Holds(s.workers[i]) && s.chunks[s.workers[i].k].owner == i; }
    }
    forall j | 0 <= j < |t.chunks| && t.chunks[j].status.InFlight?
      ensures t.chunks[j].owner < |t.workers| && Holds(t.workers[t.chunks[j].owner])
              && t.workers[t.chunks[j].owner].k == j
    {
      if j != k { assert s.chunks[j].status.InFlight? && s.workers[s.chunks[j].owner].k == j; }
    }
  }

  lemma OwnershipIdle(s: State, t: State, w: nat, x: Worker)
    requires Ownership(s) && w < |s.workers| && !Holds(s.workers[w]) && !Holds(x)
    requires t.workers == s.workers[w := x] && t.chunks == s.chunks
    ensures Ownership(t)
  {
    forall j | 0 <= j < |t.chunks| && t.chunks[j].status.InFlight?
      ensures t.chunks[j].owner < |t.workers| && Holds(t.workers[t.chunks[j].owner])
              && t.workers[t.chunks[j].owner].k == j
    {
      assert s.chunks[j].status.InFlight?;
    }
  }

  lemma OwnershipClaim(s: State, t: State, w: nat, ch: Chunk)
    requires Ownership(s) && w < |s.workers| && !Holds(s.workers[w])
    requires t.workers == s.workers[w := First(|s.chunks|)] && t.chunks == s.chunks + [ch]
    requires ch.owner == w && ch.status.InFlight?
    ensures Ownership(t)
  {
    forall i | 0 <= i < |t.workers| && Holds(t.workers[i])
      ensures t.workers[i].k < |t.chunks| && t.chunks[t.workers[i].k].owner == i
              && t.chunks[t.workers[i].k].status.InFlight?
    {
      if i != w { assert Holds(s.workers[i]); }
    }
    forall j | 0 <= j < |t.chunks| && t.chunks[j].status.InFlight?
      ensures t.chunks[j].owner < |t.workers| && Holds(t.workers[t.chunks[j].owner])
              && t.workers[t.chunks[j].owner].k == j
    {
      if j < |s.chunks| { assert t.chunks[j] == s.chunks[j]; }
    }
  }

  // ---------- steps keep Errors ----------

  ghost predicate SameErrors(s: State, t: State) {
    t.ret == s.ret && t.recorded == s.recorded && t.logIssued == s.logIssued
  }

  /** Bookkeeping of one chunk changing hands: its bytes move from one account to another. */
  lemma AccountsTouch(s: State, t: State, k: nat, ch: Chunk)
    requires k < |s.chunks| && t.chunks == s.chunks[k := ch] && SameExtent(ch, s.chunks[k])
    requires t.logIssued == s.logIssued
    requires s.logRetired == Bytes(s.chunks, Retired)
    requires s.logIssued == Bytes(s.chunks, Retired) + Bytes(s.chunks, InFlight) + Bytes(s.chunks, Abandoned)
    requires t.logRetired + Weight(s.chunks[k], Retired) == s.logRetired + Weight(ch, Retired)
    ensures t.logRetired == Bytes(t.chunks, Retired)
    ensures t.logIssued == Bytes(t.chunks, Retired) + Bytes(t.chunks, InFlight) + Bytes(t.chunks, Abandoned)
  {
    BytesUpdate(s.chunks, k, ch, Retired);
    BytesUpdate(s.chunks, k, ch, InFlight);
    BytesUpdate(s.chunks, k, ch, Abandoned);
  }

  /** A holder moves on without storing to ret. */
  lemma ErrorsTouch(c: Config, s: State, t: State, w: nat, x: Worker, k: nat, ch: Chunk)
    requires Errors(c, s) && Ownership(s) && Touches(s, t, w, x, k, ch) && SameErrors(s, t)
    requires Consistent(x, k, ch) && !ch.status.Abandoned? && !Departed(x)
    requires t.logRetired + Weight(s.chunks[k], Retired) == s.logRetired + Weight(ch, Retired)
    requires !s.chunks[k].ok ==> !ch.ok
    requires Pending(x) ==> !ch.ok
    requires !ch.ok ==> s.recorded != [] || Pending(x)
    ensures Errors(c, t)
  {
    AccountsTouch(s, t, k, ch);
    forall j | 0 <= j < |t.chunks| && !t.chunks[j].ok
      ensures t.recorded != [] || (t.chunks[j].status.InFlight? && t.chunks[j].owner < |t.workers|
                                   && Pending(t.workers[t.chunks[j].owner]))
    {
      if j != k { assert !s.chunks[j].ok; }
    }
    forall i | 0 <= i < |t.workers| && Pending(t.workers[i])
      ensures t.workers[i].k < |t.chunks| && !t.chunks[t.workers[i].k].ok
    {
      if i != w { assert Pending(s.workers[i]); }
    }
    if s.recorded != [] {
      var j :| 0 <= j < |s.chunks| && !s.chunks[j].ok;
      assert !t.chunks[j].ok;
    }
  }

  lemma ErrorsIdle(c: Config, s: State, t: State, w: nat, x: Worker)
    requires Errors(c, s) && Ownership(s) && w < |s.workers| && !Holds(s.workers[w]) && !Holds(x)
    requires t.workers == s.workers[w := x] && t.chunks == s.chunks && t.logRetired == s.logRetired && SameErrors(s, t)
    requires Departed(x) ==> Departed(s.workers[w]) || s.logIssued == c.logLen || s.recorded != []
    ensures Errors(c, t)
  {
    forall j | 0 <= j < |t.chunks| && !t.chunks[j].ok
      ensures t.recorded != [] || (t.chunks[j].status.InFlight? && t.chunks[j].owner < |t.workers|
                                   && Pending(t.workers[t.chunks[j].owner]))
    {
      assert !s.chunks[j].ok;
    }
    forall i | 0 <= i < |t.workers| && Pending(t.workers[i])
      ensures t.workers[i].k < |t.chunks| && !t.chunks[t.workers[i].k].ok
    {
      assert Pending(s.workers[i]);
    }
  }

  lemma ErrorsClaim(c: Config, s: State, t: State, w: nat, ch: Chunk)
    requires Errors(c, s) && Ownership(s) && w < |s.workers| && !Holds(s.workers[w])
    requires t.workers == s.workers[w := First(|s.chunks|)] && t.chunks == s.chunks + [ch]
    requires ch.ok && ch.status.InFlight? && t.logIssued == s.logIssued + ch.size && s.logIssued < c.logLen
    requires t.ret == s.ret && t.recorded == s.recorded && t.logRetired == s.logRetired
    ensures Errors(c, t)
  {
    BytesAppend(s.chunks, ch, Retired);
    BytesAppend(s.chunks, ch, InFlight);
    BytesAppend(s.chunks, ch, Abandoned);
    forall j | 0 <= j < |t.chunks| && !t.chunks[j].ok
      ensures t.recorded != [] || (t.chunks[j].status.InFlight? && t.chunks[j].owner < |t.workers|
                                   && Pending(t.workers[t.chunks[j].owner]))
    {
      assert t.chunks[j] == s.chunks[j];
    }
    forall i | 0 <= i < |t.workers| && Pending(t.workers[i])
      ensures t.workers[i].k < |t.chunks| && !t.chunks[t.workers[i].k].ok
    {
      assert Pending(s.workers[i]);
    }
    forall i | 0 <= i < |t.workers| && Departed(t.workers[i])
      ensures t.logIssued == c.logLen || t.recorded != []
    {
      assert Departed(s.workers[i]);
    }
    if s.recorded != [] {
      var j :| 0 <= j < |s.chunks| && !s.chunks[j].ok;
      assert !t.chunks[j].ok;
    }
  }

  lemma ErrorsStore(c: Config, s: State, t: State, w: nat, k: nat, ch: Chunk, rc: int)
    requires Errors(c, s) && Ownership(s) && Touches(s, t, w, Leaving, k, ch) && s.workers[w].Storing?
    requires ch == s.chunks[k].(status := Abandoned)
    requires t.ret == rc && t.recorded == s.recorded + [rc] && t.logIssued == s.logIssued && t.logRetired == s.logRetired
    ensures Errors(c, t)
  {
    AccountsTouch(s, t, k, ch);
    assert Pending(s.workers[w]) && !t.chunks[k].ok;
    forall i | 0 <= i < |t.workers| && Pending(t.workers[i])
      ensures t.workers[i].k < |t.chunks| && !t.chunks[t.workers[i].k].ok
    {
      assert Pending(s.workers[i]);
    }
  }

  // ---------- every step keeps all of it ----------

  ghost predicate Core(c: Config, s: State) {
    Lifecycle(s) && Tiling(c, s) && Ownership(s) && Errors(c, s)
  }

  predicate Progressing(e: Event) { e.Io1? || e.Test1? || e.Io2? || e.Test2? }

  /** The I/O and test steps only move a holder and mark its chunk. */
  lemma TouchShape(c: Config, s: State, e: Event) returns (x: Worker, k: nat, ch: Chunk)
    requires Enabled(c, s, e) && Progressing(e)
    ensures Touches(s, Apply(c, s, e), e.w, x, k, ch) && SameErrors(s, Apply(c, s, e))
    ensures Holds(x) && x.k == k && ch.status == s.chunks[k].status && !Departed(x)
    ensures Apply(c, s, e).logRetired == s.logRetired && Apply(c, s, e).transmitIssued == s.transmitIssued
    ensures !s.chunks[k].ok ==> !ch.ok
    ensures (e.Io1? || e.Io2?) && !ch.ok ==> Pending(x) || !s.chunks[k].ok
    ensures (e.Io1? || e.Io2?) && Pending(x) ==> !ch.ok
    ensures (e.Test1? || e.Test2?) ==> ch == s.chunks[k] && (Pending(x) ==> Pending(s.workers[e.w]))
    ensures (e.Test1? || e.Test2?) && Pending(s.workers[e.w]) ==> Pending(x) || s.ret != 0
    ensures (e.Io1? || e.Io2?) ==> !Pending(s.workers[e.w])
  {
    var t := Apply(c, s, e);
    k := s.workers[e.w].k;
    x := t.workers[e.w];
    ch := t.chunks[k];
    assert s.chunks == s.chunks[k := s.chunks[k]];
  }

  lemma ChunkInFlight(s: State, w: nat)
    requires Ownership(s) && IsHeld(s, w)
    ensures s.chunks[s.workers[w].k].status.InFlight? && s.chunks[s.workers[w].k].owner == w
  {}

  lemma PendingTold(c: Config, s: State, w: nat)
    requires Errors(c, s) && Ownership(s) && IsHeld(s, w)
    ensures Pending(s.workers[w]) ==> !s.chunks[s.workers[w].k].ok
    ensures !s.chunks[s.workers[w].k].ok ==> s.recorded != [] || Pending(s.workers[w])
    ensures s.ret != 0 ==> s.recorded != []
  {
    ChunkInFlight(s, w);
  }

  predicate Idling(e: Event) { e.Spawn? || e.Leave? || e.FreeMutex? || e.Signal? }

  lemma IdleShape(c: Config, s: State, e: Event) returns (w: nat, x: Worker)
    requires Enabled(c, s, e) && Idling(e)
    requires e.Spawn? ==> s.workers[s.spawned].Unspawned?
    ensures var t := Apply(c, s, e);
            && w < |s.workers| && t.workers == s.workers[w := x] && t.chunks == s.chunks && SameErrors(s, t)
            && t.logRetired == s.logRetired && t.transmitIssued == s.transmitIssued
            && !Holds(s.workers[w]) && !Holds(x) && (Departed(x) ==> Departed(s.workers[w]))
            && t.log == s.log && t.remote == s.remote
  {
    w := if e.Spawn? then s.spawned else e.w;
    x := Apply(c, s, e).workers[w];
  }


  // Entering: a worker that is Done first retreats, then claims or quits.

  function AtTop(s: State, w: nat): State
    requires w < |s.workers| && (s.workers[w].Ready? || (IsHeld(s, w) && s.workers[w].Done?))
  {
    if s.workers[w].Ready? then s else Retreat(s, w)
  }

  lemma EnterFromTop(c: Config, s: State, w: nat)
    requires Enabled(c, s, Enter(w))
    ensures Apply(c, s, Enter(w)) == ClaimOrLeave(c, AtTop(s, w), w)
  {
    if s.workers[w].Done? { EnterHalves(c, s, w); }
  }

  lemma RetreatShape(s: State, w: nat) returns (k: nat, ch: Chunk)
    requires IsHeld(s, w) && s.workers[w].Done?
    ensures Touches(s, Retreat(s, w), w, Ready, k, ch) && ch == s.chunks[k].(status := Retired)
    ensures SameErrors(s, Retreat(s, w)) && Retreat(s, w).logRetired == s.logRetired + ch.size
    ensures Retreat(s, w).transmitIssued == s.transmitIssued
    ensures Retreat(s, w).log == s.log && Retreat(s, w).remote == s.remote
  {
    k := s.workers[w].k;
    ch := s.chunks[k].(status := Retired);
  }

  lemma QuitShape(c: Config, s: State, w: nat)
    requires WellFormed(c) && Tiling(c, s) && w < |s.workers| && !CanClaim(c, s)
    ensures ClaimOrLeave(c, s, w) == s.(workers := s.workers[w := Leaving])
    ensures s.logIssued == c.logLen || s.ret != 0
  {
    if s.logIssued < c.logLen { ClaimArithmetic(c, s.logIssued); }
  }

  // Tiling

  lemma LayoutStep(c: Config, s: State, e: Event)
    requires Enabled(c, s, e) && !e.Enter?
    ensures SameLayout(s, Apply(c, s, e))
  {}

  lemma TilingTop(c: Config, s: State, w: nat)
    requires Tiling(c, s) && w < |s.workers| && (s.workers[w].Ready? || (IsHeld(s, w) && s.workers[w].Done?))
    ensures Tiling(c, AtTop(s, w))
  {
    TilingSame(c, s, AtTop(s, w));
  }

  lemma TilingEnter(c: Config, s: State, w: nat)
    requires WellFormed(c) && Tiling(c, s) && w < |s.workers|
    ensures Tiling(c, ClaimOrLeave(c, s, w))
  {
    if CanClaim(c, s) {
      var ch := ClaimShape(c, s, w);
      TilingClaim(c, s, ClaimOrLeave(c, s, w), ch);
    } else {
      TilingSame(c, s, ClaimOrLeave(c, s, w));
    }
  }

  lemma TilingStep(c: Config, s: State, e: Event)
    requires WellFormed(c) && Tiling(c, s) && Enabled(c, s, e)
    ensures Tiling(c, Apply(c, s, e))
  {
    if e.Enter? {
      EnterFromTop(c, s, e.w);
      TilingTop(c, s, e.w);
      TilingEnter(c, AtTop(s, e.w), e.w);
    } else {
      LayoutStep(c, s, e);
      TilingSame(c, s, Apply(c, s, e));
    }
  }

  // Ownership

  lemma OwnershipHolder(c: Config, s: State, e: Event)
    requires Ownership(s) && Enabled(c, s, e) && (Progressing(e) || e.Store?)
    ensures Ownership(Apply(c, s, e))
  {
    ChunkInFlight(s, e.w);
    if e.Store? {
      var k := s.workers[e.w].k;
      OwnershipTouch(s, Apply(c, s, e), e.w, Leaving, k, s.chunks[k].(status := Abandoned));
    } else {
      var x, k, ch := TouchShape(c, s, e);
      OwnershipTouch(s, Apply(c, s, e), e.w, x, k, ch);
    }
  }

  lemma OwnershipTop(s: State, w: nat)
    requires Ownership(s) && w < |s.workers| && (s.workers[w].Ready? || (IsHeld(s, w) && s.workers[w].Done?))
    ensures Ownership(AtTop(s, w))
  {
    if s.workers[w].Done? {
      var k, ch := RetreatShape(s, w);
      OwnershipTouch(s, Retreat(s, w), w, Ready, k, ch);
    }
  }

  lemma OwnershipEnter(c: Config, s: State, w: nat)
    requires WellFormed(c) && Tiling(c, s) && Ownership(s) && w < |s.workers| && s.workers[w].Ready?
    ensures Ownership(ClaimOrLeave(c, s, w))
  {
    if CanClaim(c, s) {
      var ch := ClaimShape(c, s, w);
      OwnershipClaim(s, ClaimOrLeave(c, s, w), w, ch);
    } else {
      QuitShape(c, s, w);
      OwnershipIdle(s, ClaimOrLeave(c, s, w), w, Leaving);
    }
  }

  lemma OwnershipStep(c: Config, s: State, e: Event)
    requires WellFormed(c) && Tiling(c, s) && Ownership(s) && Enabled(c, s, e)
    requires e.Spawn? ==> s.workers[s.spawned].Unspawned?
    ensures Ownership(Apply(c, s, e))
  {
    if Progressing(e) || e.Store? {
      OwnershipHolder(c, s, e);
    } else if Idling(e) {
      var w, x := IdleShape(c, s, e);
      OwnershipIdle(s, Apply(c, s, e), w, x);
    } else if e.Enter? {
      EnterFromTop(c, s, e.w);
      TilingTop(c, s, e.w);
      OwnershipTop(s, e.w);
      OwnershipEnter(c, AtTop(s, e.w), e.w);
    }
  }

  // Errors

  lemma ErrorsProgress(c: Config, s: State, e: Event)
    requires Errors(c, s) && Ownership(s) && Enabled(c, s, e) && Progressing(e)
    ensures Errors(c, Apply(c, s, e))
  {
    var x, k, ch := TouchShape(c, s, e);
    ChunkInFlight(s, e.w);
    PendingTold(c, s, e.w);
    ErrorsTouch(c, s, Apply(c, s, e), e.w, x, k, ch);
  }

  lemma ErrorsTop(c: Config, s: State, w: nat)
    requires Errors(c, s) && Ownership(s) && w < |s.workers|
    requires s.workers[w].Ready? || (IsHeld(s, w) && s.workers[w].Done?)
    ensures Errors(c, AtTop(s, w))
  {
    if s.workers[w].Done? {
      var k, ch := RetreatShape(s, w);
      ChunkInFlight(s, w);
      PendingTold(c, s, w);
      ErrorsTouch(c, s, Retreat(s, w), w, Ready, k, ch);
    }
  }

  lemma ErrorsEnter(c: Config, s: State, w: nat)
    requires WellFormed(c) && Tiling(c, s) && Ownership(s) && Errors(c, s)
    requires w < |s.workers| && s.workers[w].Ready?
    ensures Errors(c, ClaimOrLeave(c, s, w))
  {
    hide Tiling;
    if CanClaim(c, s) {
      var ch := ClaimShape(c, s, w);
      ErrorsClaim(c, s, ClaimOrLeave(c, s, w), w, ch);
    } else {
      QuitShape(c, s, w);
      ErrorsIdle(c, s, ClaimOrLeave(c, s, w), w, Leaving);
    }
  }

  lemma ErrorsQuiet(c: Config, s: State, e: Event)
    requires Ownership(s) && Errors(c, s) && Enabled(c, s, e) && (Idling(e) || e.Return? || e.Env?)
    requires e.Spawn? ==> s.workers[s.spawned].Unspawned?
    ensures Errors(c, Apply(c, s, e))
  {
    if Idling(e) {
      var w, x := IdleShape(c, s, e);
      ErrorsIdle(c, s, Apply(c, s, e), w, x);
    }
  }

  lemma ErrorsStored(c: Config, s: State, w: nat)
    requires Ownership(s) && Errors(c, s) && Enabled(c, s, Store(w))
    ensures Errors(c, Apply(c, s, Store(w)))
  {
    var k := s.workers[w].k;
    ErrorsStore(c, s, Apply(c, s, Store(w)), w, k, s.chunks[k].(status := Abandoned), s.workers[w].rc);
  }

  lemma ErrorsEntered(c: Config, s: State, w: nat)
    requires WellFormed(c) && Tiling(c, s) && Ownership(s) && Errors(c, s) && Enabled(c, s, Enter(w))
    ensures Errors(c, Apply(c, s, Enter(w)))
  {
    hide Tiling, Ownership, Errors;
    EnterFromTop(c, s, w);
    var r := AtTop(s, w);
    ReadyAtTop(s, w);
    assert Tiling(c, r) by { TilingTop(c, s, w); }
    assert Ownership(r) by { OwnershipTop(s, w); }
    assert Errors(c, r) by { ErrorsTop(c, s, w); }
    ErrorsEnter(c, r, w);
  }

  lemma ReadyAtTop(s: State, w: nat)
    requires w < |s.workers| && (s.workers[w].Ready? || (IsHeld(s, w) && s.workers[w].Done?))
    ensures |AtTop(s, w).workers| == |s.workers| && AtTop(s, w).workers[w].Ready?
  {}

  lemma ErrorsStep(c: Config, s: State, e: Event)
    requires WellFormed(c) && Tiling(c, s) && Ownership(s) && Errors(c, s) && Enabled(c, s, e)
    requires e.Spawn? ==> s.workers[s.spawned].Unspawned?
    ensures Errors(c, Apply(c, s, e))
  {
    if Progressing(e) { ErrorsProgress(c, s, e); }
    else if e.Store? { ErrorsStored(c, s, e.w); }
    else if e.Enter? { ErrorsEntered(c, s, e.w); }
    else { ErrorsQuiet(c, s, e); }
  }

  /** The protocol invariant survives every step of every schedule. */
  lemma CoreStep(c: Config, s: State, e: Event)
    requires WellFormed(c) && Core(c, s) && Enabled(c, s, e)
    ensures Core(c, Apply(c, s, e))
  {
    LifecycleStep(c, s, e);
    TilingStep(c, s, e);
    OwnershipStep(c, s, e);
    ErrorsStep(c, s, e);
  }
}
