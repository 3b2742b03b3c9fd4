/** What the lock protocol guarantees in every interleaving. */
module LockTheorems {
  import opened LockProtocol
  import opened LockInvariant
  import opened Basics
  import R = Registry

  // ---------- where runs start ----------

  function Entry(task: Task): Pc {
    match task
    case Handle(_, _) => FindProvider
    case MigrateTarget(_, _) => FindProvider
    case Attach(_) => Initialize
    case Detach(_) => DetachLock
    case DetachAll => AllLock
    case Examine => ExamineLock
  }

  /** Any number of tasks of any kind about to start, the lock free, any targets attached. */
  ghost predicate Setup(s: State) {
    && (forall i :: 0 <= i < |s.threads| ==>
          s.threads[i] == Thread(s.threads[i].task, Entry(s.threads[i].task), false, s.threads[i].target, Idle, 0, 0))
    && s.readers == 0 && !s.writing && RegistryOk(s.registry, s.num, s.finalized, s.next)
    && InOrder(s.registry, s.order)
  }

  lemma SetupInv(s: State)
    requires Setup(s)
    ensures Inv(s)
  {
    hide RegistryOk, InOrder;
    CountNone(s.threads, Reading);
    CountNone(s.threads, Writing);
  }

  // ---------- safety ----------

  /** In every interleaving, a thread that may be inside a backend call works on a target that is
      registered under the id it was asked for and has not been finalized. */
  lemma BackendCallsAreLive(s: State, es: seq<Event>, i: nat)
    requires Setup(s) && Legal(s, es)
    requires i < |Run(s, es).threads| && UsesTarget(Run(s, es).threads[i].pc)
    ensures var u, t := Run(s, es), Run(s, es).threads[i];
            && Owner(t) in u.registry && u.registry[Owner(t)] == t.target
            && t.target !in u.finalized && t.holds != Idle
  {
    SetupInv(s);
    InvRun(s, es);
    ThreadIn(Run(s, es), i);
  }

  /** Every path of every task has released the lock as often as it took it when it ends, and at no
      time holds it twice. */
  lemma LockBalanced(s: State, es: seq<Event>, i: nat)
    requires Setup(s) && Legal(s, es) && i < |Run(s, es).threads|
    ensures var t := Run(s, es).threads[i];
            t.released <= t.taken <= t.released + 1 && (t.pc == Done ==> t.taken == t.released)
  {
    SetupInv(s);
    InvRun(s, es);
    ThreadIn(Run(s, es), i);
  }

  /** The step calls ABT_rwlock_unlock. */
  predicate Unlocks(s: State, e: Event)
    requires e.who < |s.threads|
  {
    var after := Apply(s, e).threads;
    e.who < |after| && after[e.who].released != s.threads[e.who].released
  }

  /** An unlock is only ever done by a thread that holds the lock, and gives up what that thread
      took: a writer ends the write, a reader takes one off a positive count. */
  lemma UnlocksOwnHold(s: State, es: seq<Event>, e: Event)
    requires Setup(s) && Legal(s, es) && Enabled(Run(s, es), e)
    requires Unlocks(Run(s, es), e)
    ensures var u, t := Run(s, es), Run(s, es).threads[e.who];
            (t.holds == Writing && u.writing) || (t.holds == Reading && !u.writing && u.readers > 0)
  {
    SetupInv(s);
    InvRun(s, es);
    var u := Run(s, es);
    hide Apply, Run, Setup, Unlocks;
    ThreadIn(u, e.who);
    WriterAlone(u, e.who);
    UnlockHolds(u, e);
  }

  lemma UnlockHolds(u: State, e: Event)
    requires e.who < |u.threads| && Unlocks(u, e)
    requires !u.threads[e.who].pc.Done? && ThreadOk(u.registry, u.threads[e.who])
    ensures u.threads[e.who].holds != Idle
  {}

  /** A target is finalized only by the writer, while it is registered, and leaves the registry in
      the same step; so no target is finalized twice. */
  lemma FinalizedOnce(s: State, es: seq<Event>, e: Event, x: nat)
    requires Setup(s) && Legal(s, es) && Enabled(Run(s, es), e)
    requires var u := Run(s, es); x !in u.finalized && x in Apply(u, e).finalized
    ensures var u := Run(s, es);
            && u.threads[e.who].holds == Writing
            && x in u.registry.Values && x !in Apply(u, e).registry.Values
  {
    SetupInv(s);
    InvRun(s, es);
    var u := Run(s, es);
    ThreadIn(u, e.who);
    InvStep(u, e);
    FinalizeStep(u, e, x);
    RegisteredNotFinalized(Apply(u, e), x);
  }

  lemma FinalizeStep(u: State, e: Event, x: nat)
    requires Enabled(u, e) && ThreadOk(u.registry, u.threads[e.who])
    requires x !in u.finalized && x in Apply(u, e).finalized
    ensures u.threads[e.who].holds == Writing && x in u.registry.Values
  {
    var i, task := e.who, u.threads[e.who].task;
    hide HandlerStep, MigrateStep, AttachStep, DetachStep, DetachAllStep, ExamineStep, Fits, TargetLive, Balanced;
    if task.Handle? || task.Attach? || task.Examine? {
      OthersFinalizeNothing(u, i, task, e.ok);
    } else if task.MigrateTarget? {
      MigrateFinalizes(u, i, task.id, task.removeSrc, e.ok);
    } else {
      DetachFinalizes(u, i, task);
    }
  }

  lemma OthersFinalizeNothing(u: State, i: nat, task: Task, ok: bool)
    requires i < |u.threads|
    ensures task.Handle? ==> HandlerStep(u, i, task.rpc, task.id, ok).finalized == u.finalized
    ensures task.Attach? ==> AttachStep(u, i, task.id, ok).finalized == u.finalized
    ensures task.Examine? ==> ExamineStep(u, i).finalized == u.finalized
  {}

  lemma MigrateFinalizes(u: State, i: nat, id: Id, removeSrc: bool, ok: bool)
    requires i < |u.threads|
    ensures MigrateStep(u, i, id, removeSrc, ok).finalized ==
              if u.threads[i].pc.DetachDo? then Drop(u, id).finalized else u.finalized
  {
    hide Drop;
  }

  lemma DetachFinalizes(u: State, i: nat, task: Task)
    requires i < |u.threads| && Fits(task, u.threads[i].pc)
    ensures task.Detach? ==>
              DetachStep(u, i, task.id).finalized ==
              (if u.threads[i].pc.DetachDo? then Drop(u, task.id).finalized else u.finalized)
    ensures task.DetachAll? ==>
              DetachAllStep(u, i).finalized ==
              (if u.threads[i].pc.AllLoop? && u.order != [] then Drop(u, u.order[0]).finalized else u.finalized)
  {
    hide Drop;
  }

  lemma RegisteredNotFinalized(s: State, x: nat)
    requires Inv(s) && x in s.finalized
    ensures x !in s.registry.Values
  {}

  // ---------- every schedule ends ----------

  /** Steps still ahead of a thread, at most; an attach pays for the target it adds. */
  function Weight(pc: Pc): nat {
    match pc
    case Done => 0
    case Finish => 1
    case Call(left) => 1 + left
    case Address => 5
    case FindTarget => 6
    case ReadLock => 7
    case Relock => 2
    case DetachUnlock => 3
    case DetachDo => 4
    case DetachLock => 5
    case MigrateUnlock => 6
    case Ship => 7
    case Fileset => 8
    case Reach => 9
    case MigrateFind => 10
    case HasClient => 11
    case MigrateLock => 12
    case GetInput => 13
    case FindProvider => 14
    case AttachUnlock => 1
    case Insert => 3
    case AttachLock => 4
    case Initialize => 5
    case AllUnlock => 1
    case AllLoop => 2
    case AllLock => 3
    case ExamineUnlock => 1
    case ExamineDo => 2
    case ExamineLock => 3
  }

  function Weights(ts: seq<Thread>): nat {
    if ts == [] then 0 else Weight(ts[0].pc) + Weights(ts[1..])
  }

  function Measure(s: State): nat { Weights(s.threads) + |s.registry| }

  lemma {:induction false} WeightsPut(ts: seq<Thread>, i: nat, t: Thread)
    requires i < |ts|
    ensures Weights(ts[i := t]) + Weight(ts[i].pc) == Weights(ts) + Weight(t.pc)
  {
    if i == 0 {
      assert ts[i := t][1..] == ts[1..];
    } else {
      assert ts[i := t][1..] == ts[1..][i - 1 := t];
      WeightsPut(ts[1..], i - 1, t);
    }
  }

  /** The step of thread i changes that thread only, and what it adds to the registry it has paid for. */
  predicate Pays(s: State, u: State, i: nat)
    requires i < |s.threads|
  {
    && |u.threads| == |s.threads| && u.threads == s.threads[i := u.threads[i]]
    && u.threads[i].task == s.threads[i].task
    && Weight(u.threads[i].pc) + |u.registry| < Weight(s.threads[i].pc) + |s.registry|
  }

  lemma HandlerWeights()
    ensures Weight(Done) == 0 && Weight(Finish) == 1 && Weight(Address) == 5 && Weight(FindTarget) == 6
    ensures Weight(ReadLock) == 7 && Weight(GetInput) == 13 && Weight(FindProvider) == 14
    ensures forall left: nat :: Weight(Call(left)) == 1 + left
  {}

  lemma DetachWeights()
    ensures Weight(Done) == 0 && Weight(DetachUnlock) == 3 && Weight(DetachDo) == 4 && Weight(DetachLock) == 5
    ensures Weight(AllUnlock) == 1 && Weight(AllLoop) == 2 && Weight(AllLock) == 3
  {}

  lemma MigrateWeights()
    ensures Weight(Finish) == 1 && Weight(Relock) == 2 && Weight(MigrateUnlock) == 6 && Weight(Ship) == 7
    ensures Weight(Fileset) == 8 && Weight(Reach) == 9 && Weight(MigrateFind) == 10 && Weight(HasClient) == 11
    ensures Weight(MigrateLock) == 12 && Weight(GetInput) == 13 && Weight(FindProvider) == 14
  {}

  lemma OtherWeights()
    ensures Weight(Done) == 0
    ensures Weight(AttachUnlock) == 1 && Weight(Insert) == 3 && Weight(AttachLock) == 4 && Weight(Initialize) == 5
    ensures Weight(ExamineUnlock) == 1 && Weight(ExamineDo) == 2 && Weight(ExamineLock) == 3
  {}

  lemma HandlerPays(s: State, i: nat, rpc: Rpc, id: Id, ok: bool)
    requires i < |s.threads| && Fits(Handle(rpc, id), s.threads[i].pc) && s.threads[i].pc != Done
    ensures Pays(s, HandlerStep(s, i, rpc, id, ok), i)
  {
    hide Weight;
    HandlerWeights();
  }

  lemma MigratePays(s: State, i: nat, id: Id, removeSrc: bool, ok: bool)
    requires i < |s.threads| && Fits(MigrateTarget(id, removeSrc), s.threads[i].pc) && s.threads[i].pc != Done
    ensures Pays(s, MigrateStep(s, i, id, removeSrc, ok), i)
  {
    hide Weight, Drop;
    MigrateWeights();
    DetachWeights();
    DropShrinks(s, id);
  }

  lemma DropShrinks(s: State, id: Id)
    ensures Drop(s, id).threads == s.threads
    ensures |Drop(s, id).registry| == |s.registry| - if id in s.registry then 1 else 0
  {
    if id in s.registry { assert |s.registry - {id}| == |s.registry| - 1; }
  }

  lemma AttachPays(s: State, i: nat, id: Id, ok: bool)
    requires i < |s.threads| && Fits(Attach(id), s.threads[i].pc) && s.threads[i].pc != Done
    ensures Pays(s, AttachStep(s, i, id, ok), i)
  {
    hide Weight;
    OtherWeights();
  }

  lemma DetachPays(s: State, i: nat, id: Id)
    requires i < |s.threads| && Fits(Detach(id), s.threads[i].pc) && s.threads[i].pc != Done
    ensures Pays(s, DetachStep(s, i, id), i)
  {
    hide Weight, Drop;
    DetachWeights();
    DropShrinks(s, id);
  }

  lemma DetachAllPays(s: State, i: nat)
    requires i < |s.threads| && Fits(DetachAll, s.threads[i].pc) && s.threads[i].pc != Done
    requires s.order != [] ==> s.order[0] in s.registry
    ensures Pays(s, DetachAllStep(s, i), i)
  {
    hide Weight, Drop;
    DetachWeights();
    if s.order != [] { DropShrinks(s, s.order[0]); }
  }

  lemma ExaminePays(s: State, i: nat)
    requires i < |s.threads| && Fits(Examine, s.threads[i].pc) && s.threads[i].pc != Done
    ensures Pays(s, ExamineStep(s, i), i)
  {
    hide Weight;
    OtherWeights();
  }

  lemma StepPays(s: State, e: Event)
    requires Inv(s) && Enabled(s, e)
    ensures Pays(s, Apply(s, e), e.who)
  {
    hide Inv, Pays, HandlerStep, MigrateStep, AttachStep, DetachStep, DetachAllStep, ExamineStep, Fits;
    var i, task := e.who, s.threads[e.who].task;
    ThreadIn(s, i);
    if task.Handle? { HandlerPays(s, i, task.rpc, task.id, e.ok); }
    else if task.MigrateTarget? { MigratePays(s, i, task.id, task.removeSrc, e.ok); }
    else if task.Attach? { AttachPays(s, i, task.id, e.ok); }
    else if task.Detach? { DetachPays(s, i, task.id); }
    else if task.DetachAll? { FirstRegistered(s); DetachAllPays(s, i); }
    else { ExaminePays(s, i); }
  }

  /** Every step of every thread brings the end nearer. */
  lemma MeasureDrops(s: State, e: Event)
    requires Inv(s) && Enabled(s, e)
    ensures Measure(Apply(s, e)) < Measure(s)
  {
    hide Inv, Apply, Pays;
    StepPays(s, e);
    PaidFor(s, Apply(s, e), e.who);
  }

  lemma FirstRegistered(s: State)
    requires Inv(s)
    ensures s.order != [] ==> s.order[0] in s.registry
  {
    hide ThreadsOk, Exclusive, LockOk, RegistryOk;
  }

  lemma PaidFor(s: State, u: State, i: nat)
    requires i < |s.threads| && Pays(s, u, i)
    ensures Measure(u) < Measure(s)
  {
    WeightsPut(s.threads, i, u.threads[i]);
  }

  /** No schedule goes on for longer than the measure of its start. */
  lemma {:induction false} RunsEnd(s: State, es: seq<Event>)
    requires Inv(s) && Legal(s, es)
    ensures |es| + Measure(Run(s, es)) <= Measure(s)
    decreases |es|
  {
    if es != [] {
      MeasureDrops(s, es[0]);
      InvStep(s, es[0]);
      RunsEnd(Apply(s, es[0]), es[1..]);
    }
  }

  // ---------- no schedule gets stuck ----------

  /** Nobody is about to attach a target under an id in use. */
  ghost predicate NoClash(s: State) {
    forall i :: 0 <= i < |s.threads| && s.threads[i].task.Attach? && s.threads[i].pc.Insert? ==>
      s.threads[i].task.id !in s.registry
  }

  lemma NobodyInside(s: State)
    requires Inv(s) && forall i :: 0 <= i < |s.threads| ==> s.threads[i].holds == Idle
    ensures s.readers == 0 && !s.writing
  {
    CountNone(s.threads, Reading);
    CountNone(s.threads, Writing);
  }

  lemma HolderGoesOn(registry: map<Id, nat>, t: Thread)
    requires ThreadOk(registry, t) && t.holds != Idle
    ensures t.pc != Done && !WaitsToRead(t.pc) && !WaitsToWrite(t.pc)
  {}

  /** Whoever holds the lock can go on, and once nobody holds it everybody can. */
  lemma SomeoneCanStep(s: State, i: nat) returns (e: Event)
    requires Inv(s) && NoClash(s) && i < |s.threads| && s.threads[i].pc != Done
    ensures Enabled(s, e)
  {
    hide Inv, Fits, Balanced, TargetLive;
    var who := i;
    if j :| 0 <= j < |s.threads| && s.threads[j].holds != Idle {
      who := j;
    } else {
      NobodyInside(s);
    }
    ThreadIn(s, who);
    if s.threads[who].holds != Idle { HolderGoesOn(s.registry, s.threads[who]); }
    hide ThreadOk;
    e := Event(who, true);
  }

  /** A run that cannot go on is over: every task has ended, and the lock is free. */
  lemma StuckMeansDone(s: State, es: seq<Event>)
    requires Setup(s) && Legal(s, es) && NoClash(Run(s, es))
    requires forall e :: !Enabled(Run(s, es), e)
    ensures var u := Run(s, es);
            u.readers == 0 && !u.writing && forall i :: 0 <= i < |u.threads| ==> u.threads[i].pc == Done
  {
    SetupInv(s);
    InvRun(s, es);
    var u := Run(s, es);
    forall i | 0 <= i < |u.threads| ensures u.threads[i].pc == Done && u.threads[i].holds == Idle {
      if u.threads[i].pc != Done {
        var e := SomeoneCanStep(u, i);
      }
      ThreadIn(u, i);
    }
    NobodyInside(u);
  }

  // ---------- the registry's own meaning ----------

  /** The registry as module Registry means it. */
  function Seen(s: State): R.State { R.State(s.order, s.num, s.dropped) }

  /** What the step does to the registry, as an event there; None if nothing, or one round of a
      detach-all. */
  function Told(s: State, e: Event): Option<R.Event>
    requires e.who < |s.threads|
  {
    var t := s.threads[e.who];
    if t.task.Attach? && t.pc.Insert? then Some(R.Attached(t.task.id))
    else if (t.task.Detach? || t.task.MigrateTarget?) && t.pc.DetachDo? then
      Some(if t.task.id in s.registry then R.Detached(t.task.id) else R.DetachUnknown(t.task.id))
    else if t.task.DetachAll? && t.pc.AllLoop? && s.order == [] then Some(R.DetachedAll)
    else None
  }

  predicate InDetachAll(s: State, e: Event)
    requires e.who < |s.threads|
  {
    s.threads[e.who].task.DetachAll? && s.threads[e.who].pc.AllLoop? && s.order != []
  }

  /** In every interleaving the shared registry behaves as the sequential one: attaching, detaching and
      the end of a detach-all are its events, legal ones; each earlier round of a detach-all finalizes
      the first target left, which leaves the outcome of detaching all as it was; and no other step
      touches it. */
  lemma FollowsRegistry(s: State, e: Event)
    requires Inv(s) && Enabled(s, e)
    ensures match Told(s, e)
            case Some(re) => R.Legal(Seen(s), re) && Seen(Apply(s, e)) == R.Apply(Seen(s), re)
            case None =>
              if InDetachAll(s, e)
              then Seen(Apply(s, e)) == R.State(s.order[1..], s.num, s.dropped + [s.order[0]])
                   && R.Apply(Seen(Apply(s, e)), R.DetachedAll) == R.Apply(Seen(s), R.DetachedAll)
              else Seen(Apply(s, e)) == Seen(s)
  {
    hide Inv, HandlerStep, MigrateStep, AttachStep, DetachStep, DetachAllStep, ExamineStep, Drop, R.Remove;
    hide HoldsRight, Balanced, TargetLive;
    var i, task := e.who, s.threads[e.who].task;
    ThreadIn(s, i);
    RegisteredInOrder(s);
    if task.Handle? || task.Examine? { ReadersLeaveIt(s, i, task, e.ok); }
    else if task.MigrateTarget? { MigrateFollows(s, i, task.id, task.removeSrc, e.ok); SeenDrop(s, task.id); }
    else if task.Detach? { DetachFollows(s, i, task.id); SeenDrop(s, task.id); }
    else if task.Attach? { AttachFollows(s, i, task.id, e.ok); }
    else { DetachAllFollows(s, i); }
  }

  lemma SeenDrop(s: State, id: Id)
    ensures Seen(Drop(s, id)) == if id in s.registry then R.Apply(Seen(s), R.Detached(id)) else Seen(s)
  {}

  lemma DetachFollows(s: State, i: nat, id: Id)
    requires i < |s.threads|
    ensures Seen(DetachStep(s, i, id)) == if s.threads[i].pc.DetachDo? then Seen(Drop(s, id)) else Seen(s)
  {
    hide Drop;
  }

  lemma AttachFollows(s: State, i: nat, id: Id, ok: bool)
    requires i < |s.threads|
    ensures Seen(AttachStep(s, i, id, ok)) ==
              if s.threads[i].pc.Insert? then R.Apply(Seen(s), R.Attached(id)) else Seen(s)
  {}

  lemma RegisteredInOrder(s: State)
    requires Inv(s)
    ensures forall id :: id in s.registry <==> id in s.order
  {
    hide ThreadsOk, Exclusive, LockOk, RegistryOk;
  }

  lemma ReadersLeaveIt(s: State, i: nat, task: Task, ok: bool)
    requires i < |s.threads|
    ensures task.Handle? ==> Seen(HandlerStep(s, i, task.rpc, task.id, ok)) == Seen(s)
    ensures task.Examine? ==> Seen(ExamineStep(s, i)) == Seen(s)
  {}

  lemma MigrateFollows(s: State, i: nat, id: Id, removeSrc: bool, ok: bool)
    requires i < |s.threads|
    ensures Seen(MigrateStep(s, i, id, removeSrc, ok)) == if s.threads[i].pc.DetachDo? then Seen(Drop(s, id)) else Seen(s)
  {
    hide Drop;
  }

  lemma DetachAllFollows(s: State, i: nat)
    requires i < |s.threads| && Fits(DetachAll, s.threads[i].pc) && s.threads[i].pc != Done
    requires forall id :: id in s.registry <==> id in s.order
    ensures Seen(DetachAllStep(s, i)) ==
              if !s.threads[i].pc.AllLoop? then Seen(s)
              else if s.order == [] then R.State([], 0, s.dropped)
              else R.State(s.order[1..], s.num, s.dropped + [s.order[0]])
  {}
}
