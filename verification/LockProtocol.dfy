/** The provider under its reader-writer lock: RPC handlers, target migration, attach, detach,
    detach-all and listing as threads whose steps interleave in any order. */
module LockProtocol {
  import HI = HashItems
  import R = Registry

  type Id = HI.Key

  /** The RPCs served with the lock held for reading. `combined` says that the backend offers the
      combined operation itself. */
  datatype Rpc =
    | Create | Write | EagerWrite | Persist | GetSize | GetData | Read | EagerRead | Remove | MigrateRegion
    | CreateWritePersist(combined: bool)
    | EagerCreateWritePersist(combined: bool)

  predicate NeedsAddress(rpc: Rpc) { rpc.Write? || rpc.Read? || rpc.CreateWritePersist? }

  /** How many backend calls are made if all succeed. */
  function BackendCalls(rpc: Rpc): nat {
    if (rpc.CreateWritePersist? || rpc.EagerCreateWritePersist?) && !rpc.combined then 3 else 1
  }

  datatype Task =
    | Handle(rpc: Rpc, id: Id)
    | MigrateTarget(id: Id, removeSrc: bool)
    | Attach(id: Id)
    | Detach(id: Id)
    | DetachAll
    | Examine

  datatype Pc =
    // handlers, up to LOCK_PROVIDER and from FIND_TARGET on
    | FindProvider | GetInput | ReadLock | FindTarget | Address | Call(left: nat)
    // migrate target
    | MigrateLock | HasClient | MigrateFind | Reach | Fileset | Ship | MigrateUnlock | Relock
    // detach, alone or inside a migration
    | DetachLock | DetachDo | DetachUnlock
    // attach
    | Initialize | AttachLock | Insert | AttachUnlock
    // detach all
    | AllLock | AllLoop | AllUnlock
    // count and list
    | ExamineLock | ExamineDo | ExamineUnlock
    // the finish label, and what follows it
    | Finish | Done

  datatype Mode = Idle | Reading | Writing

  /** locked: the local `lock` is not null. target: the entry the local `target` points to. What a
      thread holds, and how often it took and released the lock, is recorded beside it. */
  datatype Thread = Thread(task: Task, pc: Pc, locked: bool, target: nat, holds: Mode, taken: nat, released: nat)

  /** The lock as Argobots keeps it; the registry from ids to entries, and its insertion order; the
      counter; the entries finalized, and their ids in the order that happened; and the next unused
      entry. */
  datatype State = State(threads: seq<Thread>, readers: int, writing: bool,
                         registry: map<Id, nat>, order: seq<Id>, num: nat,
                         finalized: set<nat>, dropped: seq<Id>, next: nat)

  /** Thread `who` moves; ok is how whatever it asks of the outside turns out. */
  datatype Event = Event(who: nat, ok: bool)

  // ---------- steps ----------

  function Put(s: State, i: nat, t: Thread): State
    requires i < |s.threads|
  {
    s.(threads := s.threads[i := t])
  }

  function Goto(s: State, i: nat, pc: Pc): State
    requires i < |s.threads|
  {
    Put(s, i, s.threads[i].(pc := pc))
  }

  function RdLock(s: State, i: nat, pc: Pc): State
    requires i < |s.threads|
  {
    var t := s.threads[i];
    Put(s, i, t.(pc := pc, locked := true, holds := Reading, taken := t.taken + 1)).(readers := s.readers + 1)
  }

  function WrLock(s: State, i: nat, pc: Pc): State
    requires i < |s.threads|
  {
    var t := s.threads[i];
    Put(s, i, t.(pc := pc, locked := true, holds := Writing, taken := t.taken + 1)).(writing := true)
  }

  /** ABT_rwlock_unlock does not know who calls it: it ends the write if there is one, and counts
      a reader less otherwise. */
  function Unlock(s: State, i: nat, pc: Pc): State
    requires i < |s.threads|
  {
    var t := s.threads[i];
    var u := Put(s, i, t.(pc := pc, holds := Idle, released := t.released + 1));
    if s.writing then u.(writing := false) else u.(readers := s.readers - 1)
  }

  /** UNLOCK_PROVIDER. */
  function UnlockProvider(s: State, i: nat, pc: Pc): State
    requires i < |s.threads|
  {
    if s.threads[i].locked then Unlock(s, i, pc) else Goto(s, i, pc)
  }

  function Else(ok: bool, pc: Pc): Pc { if ok then pc else Finish }

  /** FIND_TARGET. */
  function Find(s: State, i: nat, id: Id, pc: Pc): State
    requires i < |s.threads|
  {
    if id in s.registry then Put(s, i, s.threads[i].(pc := pc, target := s.registry[id])) else Goto(s, i, Finish)
  }

  /** HASH_DEL and _finalize. */
  function Drop(s: State, id: Id): State {
    if id in s.registry
    then s.(registry := s.registry - {id}, order := R.Remove(s.order, id),
            finalized := s.finalized + {s.registry[id]}, dropped := s.dropped + [id])
    else s
  }

  /** HASH_ADD, and counting the target. */
  function Inserted(s: State, id: Id): State {
    s.(registry := s.registry[id := s.next], order := s.order + [id], num := s.num + 1, next := s.next + 1)
  }

  function HandlerStep(s: State, i: nat, rpc: Rpc, id: Id, ok: bool): State
    requires i < |s.threads|
  {
    match s.threads[i].pc
    case FindProvider => Goto(s, i, Else(ok, GetInput))
    case GetInput => Goto(s, i, Else(ok, ReadLock))
    case ReadLock => RdLock(s, i, FindTarget)
    case FindTarget => Find(s, i, id, if NeedsAddress(rpc) then Address else Call(BackendCalls(rpc)))
    case Address => Goto(s, i, Else(ok, Call(BackendCalls(rpc))))
    case Call(left) => Goto(s, i, Else(ok && left > 1, Call(if left > 1 then left - 1 else 0)))
    case _ => UnlockProvider(s, i, Done)
  }

  /** After the migration the target is detached by its own call, without the lock; the lock is
      then taken again, for reading, only to be released at the end. */
  function MigrateStep(s: State, i: nat, id: Id, removeSrc: bool, ok: bool): State
    requires i < |s.threads|
  {
    match s.threads[i].pc
    case FindProvider => Goto(s, i, Else(ok, GetInput))
    case GetInput => Goto(s, i, Else(ok, MigrateLock))
    case MigrateLock => WrLock(s, i, HasClient)
    case HasClient => Goto(s, i, Else(ok, MigrateFind))
    case MigrateFind => Find(s, i, id, Reach)
    case Reach => Goto(s, i, Else(ok, Fileset))
    case Fileset => Goto(s, i, Else(ok, Ship))
    case Ship => Goto(s, i, Else(ok, MigrateUnlock))
    case MigrateUnlock => UnlockProvider(s, i, if removeSrc then DetachLock else Relock)
    case DetachLock => WrLock(s, i, DetachDo)
    case DetachDo => Goto(Drop(s, id), i, DetachUnlock)
    case DetachUnlock => Unlock(s, i, Relock)
    case Relock => RdLock(s, i, Finish)
    case _ => UnlockProvider(s, i, Done)
  }

  function DetachStep(s: State, i: nat, id: Id): State
    requires i < |s.threads|
  {
    match s.threads[i].pc
    case DetachLock => WrLock(s, i, DetachDo)
    case DetachDo => Goto(Drop(s, id), i, DetachUnlock)
    case _ => Unlock(s, i, Done)
  }

  function AttachStep(s: State, i: nat, id: Id, ok: bool): State
    requires i < |s.threads|
  {
    match s.threads[i].pc
    case Initialize => Goto(s, i, if ok then AttachLock else Done)
    case AttachLock => WrLock(s, i, Insert)
    case Insert => Goto(Inserted(s, id), i, AttachUnlock)
    case _ => Unlock(s, i, Done)
  }

  /** HASH_ITER with the element deleted in the body: always the first one left. */
  function DetachAllStep(s: State, i: nat): State
    requires i < |s.threads|
  {
    match s.threads[i].pc
    case AllLock => WrLock(s, i, AllLoop)
    case AllLoop => if s.order != [] then Drop(s, s.order[0]) else Goto(s.(num := 0), i, AllUnlock)
    case _ => Unlock(s, i, Done)
  }

  function ExamineStep(s: State, i: nat): State
    requires i < |s.threads|
  {
    match s.threads[i].pc
    case ExamineLock => RdLock(s, i, ExamineDo)
    case ExamineDo => Goto(s, i, ExamineUnlock)
    case _ => Unlock(s, i, Done)
  }

  function Apply(s: State, e: Event): State
    requires e.who < |s.threads|
  {
    match s.threads[e.who].task
    case Handle(rpc, id) => HandlerStep(s, e.who, rpc, id, e.ok)
    case MigrateTarget(id, removeSrc) => MigrateStep(s, e.who, id, removeSrc, e.ok)
    case Attach(id) => AttachStep(s, e.who, id, e.ok)
    case Detach(id) => DetachStep(s, e.who, id)
    case DetachAll => DetachAllStep(s, e.who)
    case Examine => ExamineStep(s, e.who)
  }

  predicate WaitsToRead(pc: Pc) { pc.ReadLock? || pc.Relock? || pc.ExamineLock? }

  predicate WaitsToWrite(pc: Pc) { pc.MigrateLock? || pc.DetachLock? || pc.AttachLock? || pc.AllLock? }

  /** A thread waits for the lock as ABT_rwlock does; target ids are taken to be distinct. */
  predicate Enabled(s: State, e: Event) {
    e.who < |s.threads| &&
    var t := s.threads[e.who];
    && !t.pc.Done?
    && (WaitsToRead(t.pc) ==> !s.writing)
    && (WaitsToWrite(t.pc) ==> !s.writing && s.readers == 0)
    && (t.pc.Insert? && t.task.Attach? ==> t.task.id !in s.registry)
  }

  function Run(s: State, es: seq<Event>): State
    requires Legal(s, es)
    decreases |es|
  {
    if es == [] then s else Run(Apply(s, es[0]), es[1..])
  }

  predicate Legal(s: State, es: seq<Event>)
    decreases |es|
  {
    es == [] || (Enabled(s, es[0]) && Legal(Apply(s, es[0]), es[1..]))
  }

  // ---------- the invariant ----------

  /** Where a task can be, by its kind. */
  predicate Fits(task: Task, pc: Pc) {
    || pc.Done?
    || (task.Handle? && (pc.FindProvider? || pc.GetInput? || pc.ReadLock? || pc.FindTarget? || pc.Address?
                         || pc.Finish? || (pc.Call? && 0 < pc.left <= BackendCalls(task.rpc))))
    || (task.MigrateTarget? && (pc.FindProvider? || pc.GetInput? || pc.MigrateLock? || pc.HasClient?
                                || pc.MigrateFind? || pc.Reach? || pc.Fileset? || pc.Ship? || pc.MigrateUnlock?
                                || pc.DetachLock? || pc.DetachDo? || pc.DetachUnlock? || pc.Relock? || pc.Finish?))
    || (task.Attach? && (pc.Initialize? || pc.AttachLock? || pc.Insert? || pc.AttachUnlock?))
    || (task.Detach? && (pc.DetachLock? || pc.DetachDo? || pc.DetachUnlock?))
    || (task.DetachAll? && (pc.AllLock? || pc.AllLoop? || pc.AllUnlock?))
    || (task.Examine? && (pc.ExamineLock? || pc.ExamineDo? || pc.ExamineUnlock?))
  }

  predicate InReadSection(pc: Pc) {
    pc.FindTarget? || pc.Address? || pc.Call? || pc.ExamineDo? || pc.ExamineUnlock?
  }

  predicate InWriteSection(pc: Pc) {
    || pc.HasClient? || pc.MigrateFind? || pc.Reach? || pc.Fileset? || pc.Ship? || pc.MigrateUnlock?
    || pc.DetachDo? || pc.DetachUnlock? || pc.Insert? || pc.AttachUnlock? || pc.AllLoop? || pc.AllUnlock?
  }

  /** The thread holds the lock exactly where the program says so, and at the finish label exactly
      if its local `lock` is set. */
  predicate HoldsRight(t: Thread) {
    if InReadSection(t.pc) then t.holds == Reading && t.locked
    else if InWriteSection(t.pc) then t.holds == Writing && t.locked
    else if t.pc.Finish? then (t.holds != Idle <==> t.locked)
    else t.holds == Idle && (t.pc.FindProvider? || t.pc.GetInput? ==> !t.locked)
  }

  predicate Balanced(t: Thread) { t.taken == t.released + if t.holds == Idle then 0 else 1 }

  /** From FIND_TARGET to the unlock the target is used: for backend calls and for its backend's name. */
  predicate UsesTarget(pc: Pc) {
    pc.Address? || pc.Call? || pc.Reach? || pc.Fileset? || pc.Ship? || pc.MigrateUnlock?
  }

  function Owner(t: Thread): Id { if t.task.DetachAll? || t.task.Examine? then [] else t.task.id }

  predicate TargetLive(registry: map<Id, nat>, t: Thread) {
    UsesTarget(t.pc) ==> Owner(t) in registry && registry[Owner(t)] == t.target
  }

  predicate ThreadOk(registry: map<Id, nat>, t: Thread) {
    Fits(t.task, t.pc) && HoldsRight(t) && Balanced(t) && TargetLive(registry, t)
  }

  ghost predicate ThreadsOk(registry: map<Id, nat>, ts: seq<Thread>) {
    forall i :: 0 <= i < |ts| ==> ThreadOk(registry, ts[i])
  }

  /** A writer is alone inside. */
  ghost predicate Exclusive(ts: seq<Thread>) {
    forall i, j :: 0 <= i < |ts| && 0 <= j < |ts| && i != j && ts[i].holds == Writing ==> ts[j].holds == Idle
  }

  function Count(ts: seq<Thread>, mode: Mode): nat {
    if ts == [] then 0 else (if ts[0].holds == mode then 1 else 0) + Count(ts[1..], mode)
  }

  /** The lock's two fields say exactly who is inside. */
  ghost predicate LockOk(ts: seq<Thread>, readers: int, writing: bool) {
    readers == Count(ts, Reading) && (if writing then 1 else 0) == Count(ts, Writing)
  }

  /** Every entry made so far is registered under one id or has been finalized, never both; the
      counter is no less than the number of registered targets. */
  ghost predicate RegistryOk(registry: map<Id, nat>, num: nat, finalized: set<nat>, next: nat) {
    && (forall id :: id in registry ==> registry[id] < next && registry[id] !in finalized)
    && (forall id, jd :: id in registry && jd in registry && registry[id] == registry[jd] ==> id == jd)
    && (forall x :: x in finalized ==> x < next)
    && (forall x: nat :: x < next ==> x in registry.Values || x in finalized)
    && |registry| <= num
  }

  /** The insertion order holds every registered id once. */
  ghost predicate InOrder(registry: map<Id, nat>, order: seq<Id>) {
    && |order| == |registry| && (forall i, j :: 0 <= i < j < |order| ==> order[i] != order[j])
    && (forall id :: id in registry <==> id in order)
  }

  ghost predicate Inv(s: State) {
    && ThreadsOk(s.registry, s.threads) && Exclusive(s.threads) && LockOk(s.threads, s.readers, s.writing)
    && RegistryOk(s.registry, s.num, s.finalized, s.next) && InOrder(s.registry, s.order)
  }
}
