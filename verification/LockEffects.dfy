/** What each task has done by the time it ends: how many backend calls it made, and what it did to the
    registry. */
module LockEffects {
  import opened Basics
  import opened LockProtocol
  import opened LockInvariant
  import opened LockTheorems
  import R = Registry

  // ---------- runs, as one thread sees them ----------

  /** What the thread asks of the outside in this step goes wrong, or the target is not there. */
  predicate Trouble(s: State, e: Event)
    requires e.who < |s.threads|
  {
    var t := s.threads[e.who];
    if t.pc.FindTarget? || t.pc.MigrateFind? then Owner(t) !in s.registry
    else !e.ok && (t.pc.FindProvider? || t.pc.GetInput? || t.pc.Address? || t.pc.Call? || t.pc.HasClient?
                   || t.pc.Reach? || t.pc.Fileset? || t.pc.Ship? || t.pc.Initialize?)
  }

  predicate Troubled(s: State, es: seq<Event>, i: nat)
    requires Legal(s, es)
    decreases |es|
  {
    es != [] && ((es[0].who == i && Trouble(s, es[0])) || Troubled(Apply(s, es[0]), es[1..], i))
  }

  /** Backend calls thread i makes in the run. */
  function Calls(s: State, es: seq<Event>, i: nat): nat
    requires Legal(s, es)
    decreases |es|
  {
    if es == [] then 0
    else (if es[0].who == i && s.threads[i].pc.Call? then 1 else 0) + Calls(Apply(s, es[0]), es[1..], i)
  }

  /** What thread i does to the registry in the run. */
  function Effects(s: State, es: seq<Event>, i: nat): seq<R.Event>
    requires Legal(s, es)
    decreases |es|
  {
    if es == [] then []
    else
      var first := if es[0].who == i then Told(s, es[0]) else None;
      (if first.Some? then [first.value] else []) + Effects(Apply(s, es[0]), es[1..], i)
  }

  /** A step moves one thread and leaves every thread its task. */
  lemma OneThreadMoves(s: State, e: Event)
    requires Inv(s) && Enabled(s, e)
    ensures var u := Apply(s, e).threads;
            && |u| == |s.threads| && u[e.who].task == s.threads[e.who].task
            && forall j :: 0 <= j < |u| && j != e.who ==> u[j] == s.threads[j]
  {
    hide Inv, Apply;
    StepPays(s, e);
  }

  // ---------- one step ----------

  /** Calls a handler still makes if nothing goes wrong. */
  function CallsLeft(rpc: Rpc, pc: Pc): nat {
    if pc.Call? then pc.left
    else if pc.FindProvider? || pc.GetInput? || pc.ReadLock? || pc.FindTarget? || pc.Address? then BackendCalls(rpc)
    else 0
  }

  lemma HandlerMoves(s: State, i: nat, rpc: Rpc, id: Id, ok: bool)
    requires i < |s.threads| && s.threads[i].task == Handle(rpc, id) && Fits(Handle(rpc, id), s.threads[i].pc)
    requires s.threads[i].pc != Done
    ensures var u, pc := HandlerStep(s, i, rpc, id, ok), s.threads[i].pc;
            i < |u.threads| &&
            if Trouble(s, Event(i, ok)) then CallsLeft(rpc, u.threads[i].pc) == 0 && (pc.Call? ==> CallsLeft(rpc, pc) >= 1)
            else CallsLeft(rpc, u.threads[i].pc) + (if pc.Call? then 1 else 0) == CallsLeft(rpc, pc)
  {
    hide HandlerStep, Trouble, BackendCalls;
    if s.threads[i].pc.Call? { CallMoves(s, i, rpc, id, ok); } else { QuietMoves(s, i, rpc, id, ok); }
  }

  lemma CallMoves(s: State, i: nat, rpc: Rpc, id: Id, ok: bool)
    requires i < |s.threads| && s.threads[i].pc.Call? && s.threads[i].pc.left > 0
    ensures i < |HandlerStep(s, i, rpc, id, ok).threads|
    ensures var left, pc := s.threads[i].pc.left, HandlerStep(s, i, rpc, id, ok).threads[i].pc;
            && pc == (if ok && left > 1 then Call(left - 1) else Finish)
            && (Trouble(s, Event(i, ok)) <==> !ok)
  {}

  lemma QuietMoves(s: State, i: nat, rpc: Rpc, id: Id, ok: bool)
    requires i < |s.threads| && s.threads[i].task == Handle(rpc, id) && Fits(Handle(rpc, id), s.threads[i].pc)
    requires s.threads[i].pc != Done && !s.threads[i].pc.Call?
    ensures i < |HandlerStep(s, i, rpc, id, ok).threads|
    ensures var left, pc := CallsLeft(rpc, s.threads[i].pc), HandlerStep(s, i, rpc, id, ok).threads[i].pc;
            CallsLeft(rpc, pc) == if Trouble(s, Event(i, ok)) then 0 else left
  {
    hide BackendCalls;
  }

  /** Whether a thread still owes the registry something, if nothing goes wrong. */
  function Due(task: Task, pc: Pc): bool {
    match task
    case MigrateTarget(_, removeSrc) =>
      removeSrc && !(pc.DetachUnlock? || pc.Relock? || pc.Finish? || pc.Done?)
    case Attach(_) => pc.Initialize? || pc.AttachLock? || pc.Insert?
    case Detach(_) => pc.DetachLock? || pc.DetachDo?
    case DetachAll => pc.AllLock? || pc.AllLoop?
    case _ => false
  }

  /** From here on nothing can go wrong any more. */
  predicate Calm(pc: Pc) {
    !(pc.FindProvider? || pc.GetInput? || pc.ReadLock? || pc.FindTarget? || pc.Address? || pc.Call? || pc.MigrateLock?
      || pc.HasClient? || pc.MigrateFind? || pc.Reach? || pc.Fileset? || pc.Ship? || pc.Initialize?)
  }

  /** A migration detaches only what it was asked to remove. */
  predicate InPlace(t: Thread) {
    t.task.MigrateTarget? && !t.task.removeSrc ==> !t.pc.DetachLock? && !t.pc.DetachDo? && !t.pc.DetachUnlock?
  }

  /** What a step of thread i does to its own account. */
  predicate Accounted(s: State, u: State, i: nat, trouble: bool, tells: bool)
    requires i < |s.threads|
  {
    i < |u.threads| &&
    var t, v := s.threads[i], u.threads[i];
    && InPlace(v)
    && (Calm(t.pc) ==> Calm(v.pc) && !trouble)
    && (trouble ==> !tells && !Due(t.task, v.pc))
    && (tells ==> Due(t.task, t.pc) && Calm(t.pc) && !Due(t.task, v.pc))
    && (!trouble && !tells ==> Due(t.task, v.pc) == Due(t.task, t.pc))
  }

  lemma HandlerAccounted(s: State, i: nat, rpc: Rpc, id: Id, ok: bool)
    requires i < |s.threads| && s.threads[i].task == Handle(rpc, id) && Fits(Handle(rpc, id), s.threads[i].pc)
    requires s.threads[i].pc != Done
    ensures Accounted(s, HandlerStep(s, i, rpc, id, ok), i, Trouble(s, Event(i, ok)), false)
  {}

  lemma MigrateAccounted(s: State, i: nat, id: Id, removeSrc: bool, ok: bool)
    requires i < |s.threads| && s.threads[i].task == MigrateTarget(id, removeSrc)
    requires Fits(MigrateTarget(id, removeSrc), s.threads[i].pc) && s.threads[i].pc != Done && InPlace(s.threads[i])
    ensures Accounted(s, MigrateStep(s, i, id, removeSrc, ok), i, Trouble(s, Event(i, ok)), s.threads[i].pc.DetachDo?)
  {
    hide Accounted, Fits, Trouble;
    if Calm(s.threads[i].pc) { CalmMigration(s, i, id, removeSrc, ok); } else { EarlyMigration(s, i, id, removeSrc, ok); }
  }

  lemma CalmMigration(s: State, i: nat, id: Id, removeSrc: bool, ok: bool)
    requires i < |s.threads| && s.threads[i].task == MigrateTarget(id, removeSrc)
    requires Fits(MigrateTarget(id, removeSrc), s.threads[i].pc) && s.threads[i].pc != Done && InPlace(s.threads[i])
    requires Calm(s.threads[i].pc)
    ensures Accounted(s, MigrateStep(s, i, id, removeSrc, ok), i, Trouble(s, Event(i, ok)), s.threads[i].pc.DetachDo?)
  {
    hide Drop;
    DropShrinks(s, id);
  }

  lemma EarlyMigration(s: State, i: nat, id: Id, removeSrc: bool, ok: bool)
    requires i < |s.threads| && s.threads[i].task == MigrateTarget(id, removeSrc)
    requires Fits(MigrateTarget(id, removeSrc), s.threads[i].pc) && !Calm(s.threads[i].pc)
    ensures Accounted(s, MigrateStep(s, i, id, removeSrc, ok), i, Trouble(s, Event(i, ok)), s.threads[i].pc.DetachDo?)
  {
    hide Drop;
  }

  lemma AttachAccounted(s: State, i: nat, id: Id, ok: bool)
    requires i < |s.threads| && s.threads[i].task == Attach(id) && Fits(Attach(id), s.threads[i].pc)
    requires s.threads[i].pc != Done
    ensures Accounted(s, AttachStep(s, i, id, ok), i, Trouble(s, Event(i, ok)), s.threads[i].pc.Insert?)
  {}

  lemma DetachAccounted(s: State, i: nat, id: Id, ok: bool)
    requires i < |s.threads| && s.threads[i].task == Detach(id) && Fits(Detach(id), s.threads[i].pc)
    requires s.threads[i].pc != Done
    ensures Accounted(s, DetachStep(s, i, id), i, Trouble(s, Event(i, ok)), s.threads[i].pc.DetachDo?)
  {
    hide Drop;
    DropShrinks(s, id);
  }

  lemma DetachAllAccounted(s: State, i: nat, ok: bool)
    requires i < |s.threads| && s.threads[i].task == DetachAll && Fits(DetachAll, s.threads[i].pc)
    requires s.threads[i].pc != Done
    ensures Accounted(s, DetachAllStep(s, i), i, Trouble(s, Event(i, ok)), s.threads[i].pc.AllLoop? && s.order == [])
  {
    hide Drop;
    if s.order != [] { DropShrinks(s, s.order[0]); }
  }

  lemma ExamineAccounted(s: State, i: nat, ok: bool)
    requires i < |s.threads| && s.threads[i].task == Examine && Fits(Examine, s.threads[i].pc) && s.threads[i].pc != Done
    ensures Accounted(s, ExamineStep(s, i), i, Trouble(s, Event(i, ok)), false)
  {}

  lemma StepAccounted(s: State, e: Event)
    requires Inv(s) && Enabled(s, e) && InPlace(s.threads[e.who])
    ensures Accounted(s, Apply(s, e), e.who, Trouble(s, e), Told(s, e).Some?)
  {
    hide Inv, Accounted, HandlerStep, MigrateStep, AttachStep, DetachStep, DetachAllStep, ExamineStep, Fits, Trouble;
    var i, task := e.who, s.threads[e.who].task;
    assert e == Event(i, e.ok);
    ThreadIn(s, i);
    PlaceFits(s.threads[i]);
    if task.Handle? { HandlerAccounted(s, i, task.rpc, task.id, e.ok); }
    else if task.MigrateTarget? { MigrateAccounted(s, i, task.id, task.removeSrc, e.ok); }
    else if task.Attach? { AttachAccounted(s, i, task.id, e.ok); }
    else if task.Detach? { DetachAccounted(s, i, task.id, e.ok); }
    else if task.DetachAll? { DetachAllAccounted(s, i, e.ok); }
    else { ExamineAccounted(s, i, e.ok); }
  }

  lemma PlaceFits(t: Thread)
    requires Fits(t.task, t.pc)
    ensures t.pc.Insert? ==> t.task.Attach?
    ensures t.pc.DetachDo? ==> t.task.Detach? || t.task.MigrateTarget?
    ensures t.pc.AllLoop? ==> t.task.DetachAll?
  {}

  // ---------- over whole runs ----------

  ghost predicate AllInPlace(s: State) { forall i :: 0 <= i < |s.threads| ==> InPlace(s.threads[i]) }

  lemma PlaceStep(s: State, e: Event)
    requires Inv(s) && Enabled(s, e) && AllInPlace(s)
    ensures AllInPlace(Apply(s, e))
  {
    hide Inv, Apply, InPlace;
    StepAccounted(s, e);
    OneThreadMoves(s, e);
  }

  lemma {:induction false} PlaceRun(s: State, es: seq<Event>)
    requires Inv(s) && AllInPlace(s) && Legal(s, es)
    ensures Inv(Run(s, es)) && AllInPlace(Run(s, es))
    decreases |es|
  {
    if es != [] {
      hide Inv, Apply, AllInPlace;
      PlaceStep(s, es[0]);
      InvStep(s, es[0]);
      PlaceRun(Apply(s, es[0]), es[1..]);
    }
  }

  lemma SetupPlace(s: State)
    requires Setup(s)
    ensures Inv(s) && AllInPlace(s)
  {
    SetupInv(s);
  }

  /** A migration that is not to remove its source leaves the registry alone in every step, in every
      interleaving. */
  lemma KeptSourceStays(s: State, es: seq<Event>, e: Event, id: Id)
    requires Setup(s) && Legal(s, es) && Enabled(Run(s, es), e)
    requires Run(s, es).threads[e.who].task == MigrateTarget(id, false)
    ensures Seen(Apply(Run(s, es), e)) == Seen(Run(s, es))
  {
    hide Inv, Apply, Setup, InPlace;
    SetupPlace(s);
    PlaceRun(s, es);
    var u := Run(s, es);
    FollowsRegistry(u, e);
    assert InPlace(u.threads[e.who]);
    KeptTellsNothing(u, e, id);
  }

  lemma KeptTellsNothing(u: State, e: Event, id: Id)
    requires e.who < |u.threads| && u.threads[e.who].task == MigrateTarget(id, false) && InPlace(u.threads[e.who])
    ensures Told(u, e) == None && !InDetachAll(u, e)
  {}

  /** What a task may do to the registry. */
  predicate IsEffect(task: Task, re: R.Event) {
    match task
    case MigrateTarget(id, _) => re == R.Detached(id) || re == R.DetachUnknown(id)
    case Detach(id) => re == R.Detached(id) || re == R.DetachUnknown(id)
    case Attach(id) => re == R.Attached(id)
    case DetachAll => re == R.DetachedAll
    case _ => false
  }

  lemma ToldIsEffect(s: State, e: Event)
    requires e.who < |s.threads| && Told(s, e).Some?
    ensures IsEffect(s.threads[e.who].task, Told(s, e).value)
  {}

  /** What the run has to come to for a thread that ends: one effect of its own kind if it still owed one
      and nothing went wrong, and none otherwise. */
  ghost predicate Settles(t: Thread, troubled: bool, res: seq<R.Event>) {
    if Due(t.task, t.pc) && !troubled then |res| == 1 && IsEffect(t.task, res[0]) else res == []
  }

  lemma {:induction false} EffectsOf(s: State, es: seq<Event>, i: nat)
    requires Inv(s) && AllInPlace(s) && Legal(s, es) && i < |s.threads|
    requires i < |Run(s, es).threads| && Run(s, es).threads[i].pc == Done
    ensures Settles(s.threads[i], Troubled(s, es, i), Effects(s, es, i))
    ensures Calm(s.threads[i].pc) ==> !Troubled(s, es, i)
    decreases |es|
  {
    hide Inv, Apply, AllInPlace, Calm, Due, InPlace, Told, Trouble, IsEffect;
    if es == [] {
      DoneOwesNothing(s.threads[i].task);
    } else {
      var e, u := es[0], Apply(s, es[0]);
      PlaceOf(s, e.who);
      StepAccounted(s, e);
      OneThreadMoves(s, e);
      PlaceStep(s, e);
      InvStep(s, e);
      EffectsOf(u, es[1..], i);
      if e.who == i && Told(s, e).Some? { ToldIsEffect(s, e); }
    }
  }

  lemma PlaceOf(s: State, i: nat)
    requires AllInPlace(s) && i < |s.threads|
    ensures InPlace(s.threads[i])
  {}

  lemma DoneOwesNothing(task: Task)
    ensures !Due(task, Done)
  {}

  // ---------- task by task ----------

  lemma EffectsFromStart(s: State, es: seq<Event>, i: nat)
    requires Setup(s) && Legal(s, es) && i < |s.threads|
    requires i < |Run(s, es).threads| && Run(s, es).threads[i].pc == Done
    ensures s.threads[i].pc == Entry(s.threads[i].task) && Settles(s.threads[i], Troubled(s, es, i), Effects(s, es, i))
    ensures Calm(s.threads[i].pc) ==> !Troubled(s, es, i)
  {
    SetupPlace(s);
    EffectsOf(s, es, i);
  }

  /** A migration that is to remove its source has, when it ends, detached that target once, by its own
      detach call, if nothing went wrong before; and touched nothing otherwise. */
  lemma MigrationDetaches(s: State, es: seq<Event>, i: nat, id: Id)
    requires Setup(s) && Legal(s, es) && i < |s.threads| && s.threads[i].task == MigrateTarget(id, true)
    requires i < |Run(s, es).threads| && Run(s, es).threads[i].pc == Done
    ensures Troubled(s, es, i) ==> Effects(s, es, i) == []
    ensures !Troubled(s, es, i) ==>
              Effects(s, es, i) == [R.Detached(id)] || Effects(s, es, i) == [R.DetachUnknown(id)]
  {
    hide Setup;
    EffectsFromStart(s, es, i);
  }

  /** An attach has, when it ends, attached its target once if the backend could be initialized, and
      nothing otherwise. */
  lemma AttachAttaches(s: State, es: seq<Event>, i: nat, id: Id)
    requires Setup(s) && Legal(s, es) && i < |s.threads| && s.threads[i].task == Attach(id)
    requires i < |Run(s, es).threads| && Run(s, es).threads[i].pc == Done
    ensures Effects(s, es, i) == if Troubled(s, es, i) then [] else [R.Attached(id)]
  {
    hide Setup;
    EffectsFromStart(s, es, i);
  }

  /** Detach and detach-all have each done their one thing, and handlers and listings nothing. */
  lemma OthersEffects(s: State, es: seq<Event>, i: nat)
    requires Setup(s) && Legal(s, es) && i < |s.threads|
    requires i < |Run(s, es).threads| && Run(s, es).threads[i].pc == Done
    ensures match s.threads[i].task
            case Detach(id) => Effects(s, es, i) == [R.Detached(id)] || Effects(s, es, i) == [R.DetachUnknown(id)]
            case DetachAll => Effects(s, es, i) == [R.DetachedAll]
            case Handle(_, _) => Effects(s, es, i) == []
            case Examine => Effects(s, es, i) == []
            case _ => true
  {
    hide Setup;
    EffectsFromStart(s, es, i);
  }

  // ---------- backend calls ----------

  lemma CallsStep(s: State, e: Event)
    requires Inv(s) && Enabled(s, e) && s.threads[e.who].task.Handle?
    ensures e.who < |Apply(s, e).threads|
    ensures var t, v := s.threads[e.who], Apply(s, e).threads[e.who];
            var rpc := t.task.rpc;
            if Trouble(s, e) then CallsLeft(rpc, v.pc) == 0 && (t.pc.Call? ==> CallsLeft(rpc, t.pc) >= 1)
            else CallsLeft(rpc, v.pc) + (if t.pc.Call? then 1 else 0) == CallsLeft(rpc, t.pc)
  {
    hide Inv, HandlerStep, Fits, Trouble, CallsLeft;
    var i, task := e.who, s.threads[e.who].task;
    assert e == Event(i, e.ok);
    ThreadIn(s, i);
    HandlerMoves(s, i, task.rpc, task.id, e.ok);
  }

  lemma {:induction false} CallsOf(s: State, es: seq<Event>, i: nat)
    requires Inv(s) && Legal(s, es) && i < |s.threads| && s.threads[i].task.Handle?
    ensures var rpc := s.threads[i].task.rpc;
            && Calls(s, es, i) <= CallsLeft(rpc, s.threads[i].pc)
            && (i < |Run(s, es).threads| && Run(s, es).threads[i].pc == Done && !Troubled(s, es, i) ==>
                  Calls(s, es, i) == CallsLeft(rpc, s.threads[i].pc))
    decreases |es|
  {
    hide Inv, Apply, CallsLeft, Trouble;
    if es == [] {
      NoCallsWhenDone(s.threads[i]);
    } else {
      var e := es[0];
      if e.who == i { CallsStep(s, e); }
      OneThreadMoves(s, e);
      InvStep(s, e);
      CallsOf(Apply(s, e), es[1..], i);
    }
  }

  lemma NoCallsWhenDone(t: Thread)
    requires t.task.Handle?
    ensures t.pc == Done ==> CallsLeft(t.task.rpc, t.pc) == 0
  {}

  /** A handler whose every step turns out well has made one backend call when it ends, or three if it
      had to compose create, write and persist itself. */
  lemma HandlerCalls(s: State, es: seq<Event>, i: nat)
    requires Setup(s) && Legal(s, es) && i < |s.threads| && s.threads[i].task.Handle?
    requires i < |Run(s, es).threads| && Run(s, es).threads[i].pc == Done && !Troubled(s, es, i)
    ensures Calls(s, es, i) == match s.threads[i].task.rpc
                               case CreateWritePersist(combined) => if combined then 1 else 3
                               case EagerCreateWritePersist(combined) => if combined then 1 else 3
                               case _ => 1
  {
    SetupInv(s);
    hide Setup, Inv;
    CallsOf(s, es, i);
    assert s.threads[i].pc == FindProvider by { EntryOf(s, i); }
  }

  lemma EntryOf(s: State, i: nat)
    requires Setup(s) && i < |s.threads|
    ensures s.threads[i].pc == Entry(s.threads[i].task)
  {}

  /** After a backend call that failed a handler makes no other, whatever happens. */
  lemma FailedCallIsLast(s: State, e: Event, es: seq<Event>)
    requires Inv(s) && Enabled(s, e) && s.threads[e.who].task.Handle? && s.threads[e.who].pc.Call? && !e.ok
    requires Legal(Apply(s, e), es)
    ensures Calls(Apply(s, e), es, e.who) == 0
  {
    assert Trouble(s, e);
    hide Inv, Trouble, CallsLeft;
    CallsStep(s, e);
    OneThreadMoves(s, e);
    InvStep(s, e);
    CallsOf(Apply(s, e), es, e.who);
  }

  /** Handlers take the lock for reading: however many of them are inside, one more gets in at once, and
      nobody is disturbed. */
  lemma HandlersShare(s: State, e: Event)
    requires Inv(s) && e.who < |s.threads| && s.threads[e.who].task.Handle? && s.threads[e.who].pc.ReadLock?
    requires forall i :: 0 <= i < |s.threads| ==> s.threads[i].holds != Writing
    ensures Enabled(s, e) && e.who < |Apply(s, e).threads| && Apply(s, e).threads[e.who].holds == Reading
    ensures forall i :: 0 <= i < |s.threads| && i != e.who ==> i < |Apply(s, e).threads| && Apply(s, e).threads[i] == s.threads[i]
  {
    hide ThreadsOk, Exclusive, RegistryOk, InOrder;
    CountNone(s.threads, Writing);
  }

  /** How each task takes the lock: handlers and listings for reading, whatever changes the registry for
      writing, and a migration that comes back after its detach for reading. */
  lemma LockModes(s: State, e: Event)
    requires Inv(s) && Enabled(s, e)
    ensures e.who < |Apply(s, e).threads|
    ensures var pc, t := s.threads[e.who].pc, Apply(s, e).threads[e.who];
            && (pc.ReadLock? || pc.ExamineLock? || pc.Relock? ==> t.holds == Reading)
            && (pc.MigrateLock? || pc.DetachLock? || pc.AttachLock? || pc.AllLock? ==> t.holds == Writing)
  {
    hide Inv;
    ThreadIn(s, e.who);
    OneThreadMoves(s, e);
  }
}
