/** The calls of the file backend that run to their end in one thread, with the backend's fields
    updated in place. What an I/O call reports and what it leaves in the file are parameters. Each
    call is proved to be the event of the same name in module FileBackend. */
module FileBackendCalls {
  import opened Basics
  import opened Bits
  import opened FileBackend
  import opened FileBackendTheorems
  import opened Durability
  import T = Transfer
  import TT = TransferTheorems

  /** What pwrite reported, and the bytes the file holds from the given position on afterwards. */
  datatype Written = Written(n: int, left: seq<byte>)

  /** A pwrite that reports the full count has stored the buffer; otherwise it may have stored
      anything, up to the length of the buffer. */
  predicate Plausible(w: Written, buf: seq<byte>) {
    |w.left| <= |buf| && w.n <= |buf| && (w.n == |buf| ==> w.left == buf)
  }

  /** The two events of a create lead from g to h. */
  ghost predicate Creates(g: State, i: nat, size: nat, tail: seq<byte>, ok: bool, h: State) {
    && Enabled(g, Reserve(i, size)) && Enabled(Apply(g, Reserve(i, size)), EndBlock(i, tail, ok))
    && h == Apply(Apply(g, Reserve(i, size)), EndBlock(i, tail, ok))
  }

  /** bake_file_entry_t. `state` is the abstract state the fields stand for, which also knows the
      regions handed out and the bulk transfers in flight; `hist` is what the log has been since it
      was last synced. */
  class Backend {
    const a: nat
    const sync: bool
    var logOffset: nat
    var log: seq<byte>
    ghost var state: State
    ghost var hist: History

    ghost predicate Valid()
      reads this
    {
      && Inv(state) && state.a == a && state.log == log && state.logOffset == logOffset
      && hist != [] && hist[|hist| - 1] == log
    }

    constructor (a: nat, sync: bool, log: seq<byte>, ghost poolMax: nat)
      ensures this.a == a && this.sync == sync && this.log == log && logOffset == |log| && hist == [log]
      ensures state == State(a, poolMax, log, |log|, map[], map[], map[])
      ensures 0 < a <= poolMax && |log| % a == 0 && SUPERBLOCK <= |log| ==> Valid()
    {
      this.a, this.sync, this.log, logOffset := a, sync, log, |log|;
      state := State(a, poolMax, log, |log|, map[], map[], map[]);
      hist := [log];
    }

    /** bake_file_create, both halves. The block is not cleared: `block` is what the fresh buffer holds.
        A create of no bytes stores its block all the same, over whatever lies before it. */
    method Create(size: nat, block: seq<byte>, w: Written, syncRc: int)
      returns (ret: Code, rid: Region, ghost i: nat, ghost tail: seq<byte>)
      requires Valid() && |block| == a && Plausible(w, block)
      modifies this
      ensures rid == Region(old(logOffset), AlignUp(size, a)) && logOffset == EndOf(rid)
      ensures log == Stored(old(log), logOffset - a, w.left)
      ensures ret == (if w.n == a && (sync ==> syncRc == 0) then Success else IoError)
      ensures size == 0 ==> state == old(state)
      ensures size > 0 ==>
                Valid() && Creates(old(state), i, size, tail, ret == Success, state)
      ensures size > 0 && ret == Success ==>
                rid !in old(state).views && rid in state.views && !Busy(state, rid) && size <= rid.size && |log| == EndOf(rid)
      ensures ret == Success && sync ==> forall left :: Survivor(hist, left) ==> left == log
    {
      hide Inv, Apply, Enabled, Stored, Plausible, Survivor, Busy, Creates, AlignUp;
      i, tail := 0, [];
      Positive(state);
      BlockRoom(state, size);
      rid := Region(logOffset, AlignUp(size, a));
      logOffset := EndOf(rid);
      log := Stored(log, logOffset - a, w.left);
      hist := hist + [log];
      if w.n != a || (sync && syncRc != 0) {
        ret := IoError;
      } else {
        if sync { hist := [log]; }
        ret := Success;
      }
      forall left ensures Survivor([log], left) <==> left == log { OnlyNow(log, left); }
      if size > 0 {
        i, tail, state := CreateEvents(state, size, block, w, ret == Success);
      }
    }

    /** What bake_file_write_raw asks of its caller: a region of this backend that nobody is moving. */
    ghost predicate Usable(r: Region)
      reads this
    {
      Valid() && r in state.views && !Busy(state, r)
    }

    /** bake_file_write_raw, through a bounce buffer of which only the first part is the data. */
    method WriteRaw(r: Region, offset: nat, data: seq<byte>, rest: seq<byte>, w: Written) returns (ret: Code)
      requires a > 0 && (data != [] ==> Usable(r))
      requires offset == 0 && |data| <= r.size ==>
                 |data| + |rest| == AlignUp(|data|, a) == |w.left| && Plausible(w, data + rest)
      modifies this`log, this`state, this`hist
      ensures ret == WriteRawCode(a, r, offset, |data|, w.n)
      ensures offset != 0 ==> ret == Unsupported && log == old(log)
      ensures offset == 0 && |data| > r.size ==> ret == OutOfBounds && log == old(log)
      ensures offset == 0 && |data| <= r.size ==> ret == if w.n == a then Success else IoError
      ensures (old(Valid()) ==> Valid()) && (data != [] ==> r in state.views)
      ensures state == if offset != 0 || |data| + offset > r.size || data == [] then old(state)
                       else Apply(old(state), FileBackend.WriteRaw(r, offset, data, w.left, w.n))
      ensures data == [] ==> ret != Success && log == old(log)
      ensures ret == Success && |data| <= a ==> LogHas(log, r, data) && Holds(state.views[r], data)
    {
      hide Inv, Apply, Enabled, Holds, Stored, Plausible, LogHas, Busy;
      if offset != 0 { return Unsupported; }
      if |data| + offset > r.size { return OutOfBounds; }
      var bounce := data + rest;
      log := Stored(log, r.off, w.left);
      hist := hist + [log];
      ret := if w.n != a then IoError else Success;
      if data == [] {
        NothingStored(old(log), r.off, a, data + rest, w);
      } else {
        RawWriteEvent(state, r, data, rest, w);
        state := Apply(state, FileBackend.WriteRaw(r, offset, data, w.left, w.n));
      }
    }

    /** bake_file_read_raw. `base` is where the bounce buffer was allocated, buf what it holds after
        the pread; the caller gets a pointer into it, which read_raw_free takes back. */
    method ReadRaw(r: Region, offset: nat, size: nat, base: nat, buf: seq<byte>, n: int)
      returns (ret: Code, ptr: nat, data: seq<byte>)
      requires Valid() && Enabled(state, FileBackend.ReadRaw(r, offset, size, buf, n)) && base % a == 0
      ensures ret == ReadRawCode(a, r, offset, size, n)
      ensures ret == if offset + size > r.size then OutOfBounds else if n == a then Success else IoError
      ensures ret == Success ==>
                && |data| == size && base <= ptr && ptr - base + size <= |buf| && data == buf[ptr - base..ptr - base + size]
                && AlignDown(ptr, a) == base
                && (|buf| == a ==> r.off + offset + size <= |log| && data == log[r.off + offset..r.off + offset + size]
                                   && Answers(state.views[r], offset, data))
    {
      hide Inv, Answers;
      ret, ptr, data := OutOfBounds, 0, [];
      if size + offset > r.size { return; }
      var naturalStart := r.off + offset;
      var naturalEnd := naturalStart + size;
      var start, end := AlignDown(naturalStart, a), AlignUp(naturalEnd, a);
      if n != a { return IoError, 0, []; }
      RawReadEvent(state, r, offset, size, base, buf, n);
      ptr := base + (naturalStart - start);
      data := buf[ptr - base..ptr - base + size];
      ret := Success;
    }

    /** bake_file_remove: the hole keeps the file's length. The code of the call is returned as it
        comes. */
    method Remove(r: Region, left: seq<byte>, rc: int) returns (ret: int)
      requires Valid() && Enabled(state, FileBackend.Remove(r, left, rc == 0))
      modifies this`log, this`state, this`hist
      ensures Valid() && ret == rc && |log| == |old(log)|
      ensures EndOf(r) <= |log| && forall p :: 0 <= p < |log| && !(r.off <= p < EndOf(r)) ==> log[p] == old(log)[p]
      ensures rc == 0 ==> (forall p :: r.off <= p < EndOf(r) ==> log[p] == 0)
                          && r in state.views && Holds(state.views[r], seq(r.size, _ => 0))
      ensures state == Apply(old(state), FileBackend.Remove(r, left, rc == 0))
    {
      hide Inv, FileBackend.Apply, FileBackend.Enabled, Stored;
      RemoveEvent(state, r, left, rc == 0);
      log := Stored(log, r.off, left);
      hist := hist + [log];
      state := Apply(state, FileBackend.Remove(r, left, rc == 0));
      ret := rc;
    }

    /** write_bulk and read_bulk up to the wait in transfer_data: the checks, in their order, and the start of
        the transfer. */
    method BeginBulk(op: T.Op, ghost x: nat, r: Region, offset: nat, ghost remote: seq<byte>, remoteOffset: nat, size: nat)
      returns (ret: Code)
      requires Valid() && r in state.views && x !in state.transfers && remoteOffset <= size
      requires if op.WRITE? then !Busy(state, r) else !Writing(state, r)
      modifies this`state
      ensures Valid()
      ensures op.WRITE? && offset != 0 ==> ret == Unsupported
      ensures !(op.WRITE? && offset != 0) && offset + size > r.size ==> ret == OutOfBounds
      ensures !(op.WRITE? && offset != 0) && offset + size <= r.size ==> ret == Success
      ensures ret != Success ==> state == old(state)
      ensures ret == Success ==> Began(old(state), StartTransfer(x, r, op, offset, remote, remoteOffset, size), state)
    {
      hide Inv, Apply, Enabled, Busy, Writing;
      if op.WRITE? && offset != 0 { return Unsupported; }
      if size + offset > r.size { return OutOfBounds; }
      BulkBegins(state, x, r, op, offset, remote, remoteOffset, size);
      state := Apply(state, StartTransfer(x, r, op, offset, remote, remoteOffset, size));
      ret := Success;
    }

    /** bake_file_persist. With sync on, success means that a crash now leaves the log as it is. */
    method Persist(rc: int) returns (ret: Code)
      requires Valid()
      modifies this`hist
      ensures Valid()
      ensures ret == PersistCode(sync, rc) == if sync && rc != 0 then IoError else Success
      ensures if sync && ret == Success then forall left :: Survivor(hist, left) <==> left == log else hist == old(hist)
    {
      hide Inv, Survivor;
      if sync {
        if rc != 0 { return IoError; }
        hist := [log];
        forall left ensures Survivor(hist, left) <==> left == log { OnlyNow(log, left); }
      }
      ret := Success;
    }

    /** The handler's default composition for an eager create-write-persist, over this backend: each
        call is made only if the one before succeeded. On success the region is new; for data of at
        most a block the log has the data at its start, and with sync on so has whatever a crash
        leaves. */
    method CreateWritePersist(data: seq<byte>, block: seq<byte>, cw: Written, createRc: int,
                              rest: seq<byte>, ww: Written, persistRc: int)
      returns (ret: Code, rid: Region)
      requires Valid() && |block| == a && Plausible(cw, block)
      requires |data| + |rest| == AlignUp(|data|, a) == |ww.left| && Plausible(ww, data + rest)
      modifies this
      ensures data != [] ==> Valid()
      ensures rid == Region(old(logOffset), AlignUp(|data|, a))
      ensures ret == Success <==>
              data != [] && cw.n == a && ww.n == a && (sync ==> createRc == 0 && persistRc == 0)
      ensures ret == Success ==> rid !in old(state).views && rid in state.views
      ensures ret == Success && |data| <= a ==> LogHas(log, rid, data) && Holds(state.views[rid], data)
      ensures ret == Success && |data| <= a && sync ==> forall left :: Survivor(hist, left) ==> LogHas(left, rid, data)
    {
      hide Inv, Plausible, Holds, Apply, Enabled, Stored, LogHas, Survivor, Busy;
      Positive(state);
      ghost var i, tail;
      ret, rid, i, tail := Create(|data|, block, cw, createRc);
      if ret != Success { return; }
      Rounds(|data|, a);
      ret := WriteRaw(rid, 0, data, rest, ww);
      if ret != Success { return; }
      ret := Persist(persistRc);
    }
  }

  lemma Rounds(n: nat, a: nat)
    requires a > 0
    ensures n <= AlignUp(n, a)
  {
    AlignFacts(n, a);
  }

  lemma BlockRoom(g: State, size: nat)
    requires Inv(g)
    ensures g.a <= g.logOffset + AlignUp(size, g.a)
  {
    hide Sound, Shows;
    MultiplesApart(0, g.logOffset, g.a);
  }

  lemma {:induction false} Above(keys: set<nat>) returns (i: nat)
    ensures forall k :: k in keys ==> k < i
  {
    if keys == {} {
      i := 0;
    } else {
      var k :| k in keys;
      var j := Above(keys - {k});
      assert forall x :: x in keys ==> x == k || x in keys - {k};
      i := if j <= k then k + 1 else j;
    }
  }

  /** The event leads from g to h. */
  ghost predicate Began(g: State, e: Event, h: State) { Enabled(g, e) && h == Apply(g, e) }

  lemma BulkBegins(g: State, x: nat, r: Region, op: T.Op, offset: nat, remote: seq<byte>, remoteOffset: nat, size: nat)
    requires Inv(g) && r in g.views && x !in g.transfers && remoteOffset <= size && size + offset <= r.size
    requires if op.WRITE? then offset == 0 && !Busy(g, r) else !Writing(g, r)
    ensures var e := StartTransfer(x, r, op, offset, remote, remoteOffset, size);
            Enabled(g, e) && Inv(Apply(g, e)) && Apply(g, e).log == g.log && Apply(g, e).a == g.a
            && Apply(g, e).logOffset == g.logOffset
  {
    Positive(g);
    hide Inv;
    TT.SetupFits(op, g.a, g.poolMax, r.off, r.size, offset, remoteOffset, size);
    StepInv(g, StartTransfer(x, r, op, offset, remote, remoteOffset, size));
  }

  lemma BlockFits(size: nat, a: nat)
    requires size > 0 && a > 0
    ensures AlignUp(size, a) >= a
  {
    AlignFacts(size, a);
    MultiplesApart(0, AlignUp(size, a), a);
  }

  /** The end block of a create lands at the end of its extent, past everything in the file. */
  lemma StoredAtEnd(g: State, i: nat, block: seq<byte>, w: Written, ok: bool, tail: seq<byte>)
    requires Inv(g) && i in g.pending && EndOf(g.pending[i]) == g.logOffset && g.a <= g.pending[i].size
    requires |block| == g.a && Plausible(w, block) && (ok ==> w.n == g.a)
    requires var log' := Stored(g.log, g.logOffset - g.a, w.left);
             |log'| >= |g.log| ==> tail == if ok then block else log'[|g.log|..]
    ensures Enabled(g, EndBlock(i, tail, ok))
    ensures Apply(g, EndBlock(i, tail, ok)).log == Stored(g.log, g.logOffset - g.a, w.left)
    ensures |Stored(g.log, g.logOffset - g.a, w.left)| >= |g.log|
  {
    PendingLast(g, i);
    hide Inv;
  }

  /** An undivided create is the two events one after the other. */
  lemma CreateEvents(g: State, size: nat, block: seq<byte>, w: Written, ok: bool)
    returns (i: nat, tail: seq<byte>, h: State)
    requires Inv(g) && size > 0 && |block| == g.a && Plausible(w, block) && (ok ==> w.n == g.a)
    ensures Creates(g, i, size, tail, ok, h)
    ensures var end, r := g.logOffset + AlignUp(size, g.a), Region(g.logOffset, AlignUp(size, g.a));
            && g.a <= end && Inv(h) && h.log == Stored(g.log, end - g.a, w.left) && h.a == g.a && h.logOffset == end
            && (ok ==> r !in g.views && r in h.views && !Busy(h, r) && size <= r.size && |h.log| == end)
  {
    i := Above(g.pending.Keys);
    tail := CreateEnabled(g, i, size, block, w, ok);
    CreateResult(g, i, size, tail, ok);
    h := Apply(Apply(g, Reserve(i, size)), EndBlock(i, tail, ok));
  }

  lemma CreateEnabled(g: State, i: nat, size: nat, block: seq<byte>, w: Written, ok: bool) returns (tail: seq<byte>)
    requires Inv(g) && i !in g.pending && size > 0 && |block| == g.a && Plausible(w, block) && (ok ==> w.n == g.a)
    ensures Enabled(g, Reserve(i, size)) && Enabled(Apply(g, Reserve(i, size)), EndBlock(i, tail, ok))
    ensures var end := g.logOffset + AlignUp(size, g.a);
            g.a <= end &&
            Apply(Apply(g, Reserve(i, size)), EndBlock(i, tail, ok)).log == Stored(g.log, end - g.a, w.left)
  {
    hide Inv, Plausible;
    Positive(g);
    BlockFits(size, g.a);
    StepInv(g, Reserve(i, size));
    var g1 := Apply(g, Reserve(i, size));
    tail := if ok then block else Stored(g1.log, g1.logOffset - g1.a, w.left)[|g1.log|..];
    StoredAtEnd(g1, i, block, w, ok, tail);
  }

  lemma CreateResult(g: State, i: nat, size: nat, tail: seq<byte>, ok: bool)
    requires Inv(g) && Enabled(g, Reserve(i, size)) && Enabled(Apply(g, Reserve(i, size)), EndBlock(i, tail, ok))
    ensures var end, r := g.logOffset + AlignUp(size, g.a), Region(g.logOffset, AlignUp(size, g.a));
            var h := Apply(Apply(g, Reserve(i, size)), EndBlock(i, tail, ok));
            && Inv(h) && h.a == g.a && h.logOffset == end
            && (ok ==> r !in g.views && r in h.views && !Busy(h, r) && size <= r.size && |h.log| == end)
  {
    hide Inv;
    StepInv(g, Reserve(i, size));
    var g1 := Apply(g, Reserve(i, size));
    StepInv(g1, EndBlock(i, tail, ok));
    if ok {
      CreatedRegion(g, i, size, tail);
      ExtendedGrows(g1.log, g1.logOffset, tail);
    }
  }

  lemma NothingStored(log: seq<byte>, at: nat, a: nat, buf: seq<byte>, w: Written)
    requires a > 0 && Plausible(w, buf) && |buf| == AlignUp(0, a)
    ensures Stored(log, at, w.left) == log && w.n != a
  {
    AlignOptimal(0, 0, a);
  }

  /** The pwrite of a raw write is the event, and keeps the data known when it was complete. */
  lemma RawWriteEvent(g: State, r: Region, data: seq<byte>, rest: seq<byte>, w: Written)
    requires Inv(g) && r in g.views && !Busy(g, r) && |data| <= r.size
    requires |data| + |rest| == AlignUp(|data|, g.a) == |w.left| && Plausible(w, data + rest)
    ensures Enabled(g, FileBackend.WriteRaw(r, 0, data, w.left, w.n))
    ensures var h := Apply(g, FileBackend.WriteRaw(r, 0, data, w.left, w.n));
            && Inv(h) && h.log == Stored(g.log, r.off, w.left) && h.a == g.a && h.logOffset == g.logOffset && r in h.views
            && (w.n == g.a && |data| <= g.a ==> Holds(h.views[r], data) && LogHas(h.log, r, data))
  {
    hide Refines, Running, Inv, Holds, FileBackend.Apply, Layout, Stored;
    assert (data + rest)[..|data|] == data;
    Positive(g);
    RawLands(g, r, data, w);
    if w.n == g.a && |data| <= g.a { RawKnown(g, r, data, w); }
    WriteRawKeepsInv(g, r, 0, data, w.left, w.n);
    if w.n == g.a && |data| <= g.a { HeldIsLogged(Apply(g, FileBackend.WriteRaw(r, 0, data, w.left, w.n)), r, data); }
  }

  lemma RawLands(g: State, r: Region, data: seq<byte>, w: Written)
    requires Inv(g) && r in g.views && |data| <= r.size && |w.left| == AlignUp(|data|, g.a)
    requires Enabled(g, FileBackend.WriteRaw(r, 0, data, w.left, w.n))
    ensures |g.views[r]| == r.size
    ensures var h := Apply(g, FileBackend.WriteRaw(r, 0, data, w.left, w.n));
            && h.log == Stored(g.log, r.off, w.left) && h.a == g.a && h.logOffset == g.logOffset && r in h.views
  {
    hide Running;
    RawFits(g.a, |data|, r);
    assert Shows(g.log, r, g.views[r]);
  }

  lemma BlocksOf(n: nat, a: nat)
    requires a > 0
    ensures AlignUp(n, a) == a <==> 0 < n <= a
    ensures AlignUp(n, a) == 0 <==> n == 0
  {
    AlignFacts(n, a);
    AlignOptimal(n, a, a);
    AlignOptimal(n, 0, a);
    if n > 0 { MultiplesApart(0, AlignUp(n, a), a); }
  }

  lemma RawKnown(g: State, r: Region, data: seq<byte>, w: Written)
    requires Enabled(g, FileBackend.WriteRaw(r, 0, data, w.left, w.n)) && |data| <= r.size && |data| <= g.a == w.n
    requires r in g.views && |g.views[r]| == r.size
    requires |w.left| == AlignUp(|data|, g.a)
    ensures Holds(Apply(g, FileBackend.WriteRaw(r, 0, data, w.left, w.n)).views[r], data)
  {
    BlocksOf(|data|, g.a);
  }

  lemma RawReadEvent(g: State, r: Region, offset: nat, size: nat, base: nat, buf: seq<byte>, n: int)
    requires Inv(g) && Enabled(g, FileBackend.ReadRaw(r, offset, size, buf, n)) && base % g.a == 0
    requires size + offset <= r.size && n == g.a
    ensures var lo := AlignDown(r.off + offset, g.a);
            && lo <= r.off + offset && r.off + offset - lo + size <= |buf|
            && AlignDown(base + (r.off + offset - lo), g.a) == base
            && (|buf| == g.a ==>
                  var data := buf[r.off + offset - lo..r.off + offset - lo + size];
                  && r.off + offset + size <= |g.log|
                  && data == g.log[r.off + offset..r.off + offset + size] && Answers(g.views[r], offset, data))
  {
    hide Refines, Running, Answers;
    RawExtent(g, r, offset, size);
    FreeFindsBuffer(g, r, offset, size, base);
    if |buf| == g.a { EagerReadAnswers(g, r, offset, size, buf, n); }
  }

  lemma RemoveEvent(g: State, r: Region, left: seq<byte>, ok: bool)
    requires Inv(g) && Enabled(g, FileBackend.Remove(r, left, ok))
    ensures var h := Apply(g, FileBackend.Remove(r, left, ok));
            && Inv(h) && h.log == Stored(g.log, r.off, left) && |h.log| == |g.log|
            && h.a == g.a && h.logOffset == g.logOffset && EndOf(r) <= |g.log|
            && (forall p :: 0 <= p < |g.log| && !(r.off <= p < EndOf(r)) ==> h.log[p] == g.log[p])
            && (ok ==> (forall p :: r.off <= p < EndOf(r) ==> h.log[p] == 0)
                       && r in h.views && Holds(h.views[r], seq(r.size, _ => 0)))
  {
    hide Running;
    RemoveKeepsInv(g, r, left, ok);
    assert Shows(g.log, r, g.views[r]);
  }

  // ---------- bulk calls ----------

  /** What read_bulk reports as bytes read. */
  function BytesRead(ret: int, size: nat): nat { if ret == 0 then size else 0 }

  /** It is the number of bytes delivered exactly when the bulk offset is zero. */
  lemma BytesReadExact(g: State, x: nat, r: Region, offset: nat, remoteOffset: nat, size: nat)
    requires Inv(g) && ReadDone(g, x) && r in g.views && remoteOffset <= size
    requires TT.Setup(T.READ, g.a, g.poolMax, r.off, r.size, offset, remoteOffset, size) == Some(g.transfers[x].c)
    ensures BytesRead(0, size) == |Payload(g.transfers[x])| <==> remoteOffset == 0
  {
    hide Sound;
    var at, data := BulkReadAnswers(g, x);
  }
}
