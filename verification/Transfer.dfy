/** The chunked transfer of the file backend: transfer_data and its xfer_ult workers, as a state
    machine. A worker is a program counter with its this_* locals; each mutex-protected section
    is one step, and each I/O call, each unlocked test of `ret` and each unlocked store to
    `ret` is a step of its own. Results of I/O calls are chosen by the environment. */
module Transfer {
  import opened Basics
  import opened Bits

  datatype Op = READ | WRITE

  /** The fields of xfer_args that transfer_data sets once. Log positions below are relative to
      logStart, remote positions to remoteStart. */
  datatype Config = Config(
    op: Op,
    logStart: nat,     // log_entry_offset, aligned down
    logLen: nat,       // log_entry_size
    skip: nat,         // transmit_offset_in_log
    transmit: nat,     // transmit_size
    remoteStart: nat,  // remote_offset
    poolMax: nat)      // poolset_max_size

  datatype Status = InFlight | Retired | Abandoned

  /** One claimed extent, kept after its worker is done with it. `ok` says no I/O on it failed,
      `sends` counts its network transmissions. */
  datatype Chunk = Chunk(off: nat, size: nat, rem: nat, txSkip: nat, txSize: nat,
                         owner: nat, ok: bool, sends: nat, status: Status)

  datatype Worker =
    | Unspawned
    | Ready                                                   // before its first lock
    | First(k: nat)                                           // owns chunk k, before its first I/O
    | Tested1(k: nat, rc: int, failed: bool, buf: seq<byte>)  // first I/O returned rc
    | Second(k: nat, buf: seq<byte>)                          // before its second I/O
    | Tested2(k: nat, rc: int, failed: bool)                  // second I/O returned rc
    | Storing(k: nat, rc: int)                                // saw ret == 0, about to store rc
    | Done(k: nat)                                            // I/O over, before locking again
    | Leaving                                                 // at `finished`, before its decrement
    | LastOut                                                 // decremented to zero
    | Signalling                                              // freed the mutex
    | Gone

  datatype State = State(
    logIssued: nat, transmitIssued: nat, logRetired: nat, ret: int, ultsActive: int,
    workers: seq<Worker>, spawned: nat, mutexFrees: nat, signals: nat, result: Option<int>,
    chunks: seq<Chunk>,      // every claim so far, in order
    recorded: seq<int>,      // every value stored to ret, in order
    log: seq<byte>, remote: seq<byte>)

  datatype Event =
    | Spawn
    | Enter(w: nat)                                // lock; retire; claim a chunk or leave the loop
    | Io1(w: nat, rc: int, data: seq<byte>)
    | Test1(w: nat)
    | Io2(w: nat, rc: int, data: seq<byte>)
    | Test2(w: nat)
    | Store(w: nat)
    | Leave(w: nat)                                // lock; decrement ults_active
    | FreeMutex(w: nat)
    | Signal(w: nat)
    | Return                                       // the caller wakes up
    | Env(newLog: seq<byte>)                       // other users of the log

  // ---------- arithmetic of one claim ----------

  ghost predicate WellFormed(c: Config) {
    && 0 < c.poolMax
    && c.skip < c.poolMax
    && c.skip + c.transmit <= c.logLen
    && (c.skip > 0 ==> c.skip < c.logLen)
    && (c.transmit == 0 ==> c.logLen <= c.poolMax)
  }

  /** How many of the transmitted bytes lie before log position p of the extent. */
  function TxPos(c: Config, p: nat): nat {
    if p <= c.skip then 0 else if p - c.skip <= c.transmit then p - c.skip else c.transmit
  }

  function ThisLogSize(c: Config, issued: nat): int {
    if c.logLen - issued > c.poolMax then c.poolMax else c.logLen - issued
  }

  function ThisTransmitOffset(c: Config, transmitIssued: nat): nat {
    if transmitIssued == 0 then c.skip else 0
  }

  function ThisTransmitSize(c: Config, issued: nat, transmitIssued: nat): int {
    var raw := ThisLogSize(c, issued) - ThisTransmitOffset(c, transmitIssued);
    if raw + transmitIssued > c.transmit then c.transmit - transmitIssued else raw
  }

  /** The code's incremental bookkeeping is the closed form: no subtraction goes below zero, the
      piece transmitted fits in the chunk behind the skipped head, and the running total of
      transmitted bytes is min(issued - skip, transmit). */
  lemma ClaimArithmetic(c: Config, issued: nat)
    requires WellFormed(c) && issued < c.logLen
    requires issued == 0 || issued >= c.poolMax
    ensures var size := ThisLogSize(c, issued);
            var tx := TxPos(c, issued);
            && 0 < size <= c.poolMax && issued + size <= c.logLen
            && (issued + size == c.logLen || issued + size >= c.poolMax)
            && 0 <= ThisLogSize(c, issued) - ThisTransmitOffset(c, tx)
            && 0 <= ThisTransmitSize(c, issued, tx)
            && ThisTransmitOffset(c, tx) + ThisTransmitSize(c, issued, tx) <= size
            && tx + ThisTransmitSize(c, issued, tx) == TxPos(c, issued + size)
            && (ThisTransmitSize(c, issued, tx) > 0 ==>
                  issued + ThisTransmitOffset(c, tx) == c.skip + tx)
  {}

  // ---------- steps ----------

  /** data written over s from position `at`; a range outside s leaves it alone. */
  function Splice(s: seq<byte>, at: nat, data: seq<byte>): seq<byte> {
    if at + |data| <= |s| then s[..at] + data + s[at + |data|..] else s
  }

  function LogAt(c: Config, ch: Chunk): nat { c.logStart + ch.off }

  function RemoteAt(c: Config, ch: Chunk): nat { c.remoteStart + ch.rem }

  predicate Holds(w: Worker) {
    w.First? || w.Tested1? || w.Second? || w.Tested2? || w.Storing? || w.Done?
  }

  predicate Departed(w: Worker) { w.Leaving? || w.LastOut? || w.Signalling? || w.Gone? }

  predicate Decremented(w: Worker) { w.LastOut? || w.Signalling? || w.Gone? }

  /** Did an I/O call on a chunk fail? RDMA reports an error code, log I/O a byte count. */
  predicate Failed1(c: Config, ch: Chunk, rc: int) { if c.op.WRITE? then rc != 0 else rc != ch.size }

  predicate Failed2(c: Config, ch: Chunk, rc: int) { if c.op.WRITE? then rc != ch.size else rc != 0 }

  predicate IsHeld(s: State, w: nat) {
    w < |s.workers| && Holds(s.workers[w]) && s.workers[w].k < |s.chunks|
  }

  /** What the environment may answer: a pull that reports 0 and a pread that reports the full count
      fill the buffer with the right bytes, a pwrite that reports the full count and a push that
      reports 0 deliver the buffer; any other call delivers anything, inside the range it was given. Other users of the log stay off this extent. */
  predicate Enabled(c: Config, s: State, e: Event) {
    match e
    case Spawn => s.spawned < |s.workers|
    case Enter(w) => w < |s.workers| && (s.workers[w].Ready? || (IsHeld(s, w) && s.workers[w].Done?))
    case Io1(w, rc, data) =>
      IsHeld(s, w) && s.workers[w].First? &&
      var ch := s.chunks[s.workers[w].k];
      && |data| == ch.size
      && (c.op.WRITE? && rc == 0 ==>
            && RemoteAt(c, ch) + ch.txSize <= |s.remote| && ch.txSize <= |data|
            && data[..ch.txSize] == s.remote[RemoteAt(c, ch)..RemoteAt(c, ch) + ch.txSize])
      && (c.op.READ? && rc == ch.size ==>
            && LogAt(c, ch) + ch.size <= |s.log|
            && data == s.log[LogAt(c, ch)..LogAt(c, ch) + ch.size])
    case Test1(w) => IsHeld(s, w) && s.workers[w].Tested1?
    case Io2(w, rc, data) =>
      IsHeld(s, w) && s.workers[w].Second? &&
      var ch, buf := s.chunks[s.workers[w].k], s.workers[w].buf;
      if c.op.WRITE?
      then |data| == ch.size && (rc == ch.size ==> data == buf)
      else |data| == ch.txSize && (rc == 0 ==>
             RemoteAt(c, ch) + ch.txSize <= |s.remote| && ch.txSkip + ch.txSize <= |buf|
             && data == buf[ch.txSkip..ch.txSkip + ch.txSize])
    case Test2(w) => IsHeld(s, w) && s.workers[w].Tested2?
    case Store(w) => IsHeld(s, w) && s.workers[w].Storing?
    case Leave(w) => w < |s.workers| && s.workers[w].Leaving?
    case FreeMutex(w) => w < |s.workers| && s.workers[w].LastOut?
    case Signal(w) => w < |s.workers| && s.workers[w].Signalling?
    case Return => s.result.None? && s.spawned == |s.workers| && s.signals > 0
    case Env(newLog) =>
      |newLog| >= |s.log| >= c.logStart + c.logLen
      && newLog[c.logStart..c.logStart + c.logLen] == s.log[c.logStart..c.logStart + c.logLen]
  }

  function Move(s: State, w: nat, next: Worker): State
    requires w < |s.workers|
  {
    s.(workers := s.workers[w := next])
  }

  function SetChunk(s: State, k: nat, ch: Chunk): State
    requires k < |s.chunks|
  {
    s.(chunks := s.chunks[k := ch])
  }

  function Retire(s: State, w: nat): State
    requires w < |s.workers| && (s.workers[w].Ready? || (IsHeld(s, w) && s.workers[w].Done?))
  {
    if s.workers[w].Ready? then s else
    var k := s.workers[w].k;
    SetChunk(s, k, s.chunks[k].(status := Retired)).(logRetired := s.logRetired + s.chunks[k].size)
  }

  /** The locked body of the worker loop up to the unlock; `Leaving` when the loop guard fails.
      The sign tests stand for the unsigned arithmetic not wrapping: ClaimArithmetic shows that
      they never decide. */
  function ClaimOrLeave(c: Config, s: State, w: nat): State
    requires w < |s.workers|
  {
    var size := ThisLogSize(c, s.logIssued);
    var tx := ThisTransmitSize(c, s.logIssued, s.transmitIssued);
    if s.logIssued < c.logLen && s.ret == 0 && size >= 0 && tx >= 0 then
      var ch := Chunk(s.logIssued, size, s.transmitIssued, ThisTransmitOffset(c, s.transmitIssued), tx,
                      w, true, 0, InFlight);
      Move(s, w, First(|s.chunks|)).(
        chunks := s.chunks + [ch], logIssued := s.logIssued + size, transmitIssued := s.transmitIssued + tx)
    else
      Move(s, w, Leaving)
  }

  function Sent(ch: Chunk, failed: bool, network: bool): Chunk {
    ch.(ok := ch.ok && !failed, sends := ch.sends + if network then 1 else 0)
  }

  function Apply(c: Config, s: State, e: Event): State
    requires Enabled(c, s, e)
  {
    match e
    case Spawn => Move(s, s.spawned, Ready).(spawned := s.spawned + 1)
    case Enter(w) => ClaimOrLeave(c, Retire(s, w), w)
    case Io1(w, rc, data) =>
      var k := s.workers[w].k;
      var failed := Failed1(c, s.chunks[k], rc);
      SetChunk(Move(s, w, Tested1(k, rc, failed, data)), k, Sent(s.chunks[k], failed, c.op.WRITE?))
    case Test1(w) =>
      var t := s.workers[w];
      Move(s, w, if t.failed && s.ret == 0 then Storing(t.k, t.rc) else Second(t.k, t.buf))
    case Io2(w, rc, data) =>
      var k := s.workers[w].k;
      var ch := s.chunks[k];
      var failed := Failed2(c, ch, rc);
      var s1 := SetChunk(Move(s, w, Tested2(k, rc, failed)), k, Sent(ch, failed, c.op.READ?));
      if c.op.WRITE? then s1.(log := Splice(s.log, LogAt(c, ch), data))
      else s1.(remote := Splice(s.remote, RemoteAt(c, ch), data))
    case Test2(w) =>
      var t := s.workers[w];
      Move(s, w, if t.failed && s.ret == 0 then Storing(t.k, t.rc) else Done(t.k))
    case Store(w) =>
      var t := s.workers[w];
      SetChunk(Move(s, w, Leaving), t.k, s.chunks[t.k].(status := Abandoned)).(
        ret := t.rc, recorded := s.recorded + [t.rc])
    case Leave(w) =>
      Move(s, w, if s.ultsActive - 1 == 0 then LastOut else Gone).(ultsActive := s.ultsActive - 1)
    case FreeMutex(w) => Move(s, w, Signalling).(mutexFrees := s.mutexFrees + 1)
    case Signal(w) => Move(s, w, Gone).(signals := s.signals + 1)
    case Return => s.(result := Some(s.ret))
    case Env(newLog) => s.(log := newLog)
  }

  // ---------- runs ----------

  predicate Legal(c: Config, s: State, es: seq<Event>)
    decreases |es|
  {
    es == [] || (Enabled(c, s, es[0]) && Legal(c, Apply(c, s, es[0]), es[1..]))
  }

  function Run(c: Config, s: State, es: seq<Event>): State
    requires Legal(c, s, es)
    decreases |es|
  {
    if es == [] then s else Run(c, Apply(c, s, es[0]), es[1..])
  }
}
