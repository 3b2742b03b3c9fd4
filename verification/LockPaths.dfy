/** The way each task goes when nothing goes wrong, step by step, whatever the others do in between. */
module LockPaths {
  import opened Basics
  import opened LockProtocol
  import opened LockInvariant
  import opened LockTheorems
  import opened LockEffects

  /** Where thread i stands at each of its own steps. */
  function Visits(s: State, es: seq<Event>, i: nat): seq<Pc>
    requires Legal(s, es)
    decreases |es|
  {
    if es == [] then []
    else (if es[0].who == i && i < |s.threads| then [s.threads[i].pc] else []) + Visits(Apply(s, es[0]), es[1..], i)
  }

  /** The whole way of a task. A detach-all goes round its loop once for each target. */
  function Path(task: Task): seq<Pc> {
    match task
    case Handle(rpc, _) =>
      [FindProvider, GetInput, ReadLock, FindTarget]
      + (if rpc.Write? || rpc.Read? || rpc.CreateWritePersist? then [Address] else [])
      + (if rpc == CreateWritePersist(false) || rpc == EagerCreateWritePersist(false)
         then [Call(3), Call(2), Call(1)] else [Call(1)])
      + [Finish]
    case MigrateTarget(_, removeSrc) =>
      [FindProvider, GetInput, MigrateLock, HasClient, MigrateFind, Reach, Fileset, Ship, MigrateUnlock]
      + (if removeSrc then [DetachLock, DetachDo, DetachUnlock] else [])
      + [Relock, Finish]
    case Attach(_) => [Initialize, AttachLock, Insert, AttachUnlock]
    case Detach(_) => [DetachLock, DetachDo, DetachUnlock]
    case DetachAll => [AllLock, AllLoop, AllUnlock]
    case Examine => [ExamineLock, ExamineDo, ExamineUnlock]
  }

  /** What is left of a path from a place on. */
  function From(path: seq<Pc>, pc: Pc): seq<Pc> {
    if path == [] || path[0] == pc then path else From(path[1..], pc)
  }

  /** The place after this one on the path, and the end after the last. */
  function After(path: seq<Pc>, pc: Pc): Pc {
    var rest := From(path, pc);
    if |rest| <= 1 then Done else rest[1]
  }

  ghost predicate NoRepeats(path: seq<Pc>) {
    Done !in path && forall i, j :: 0 <= i < j < |path| ==> path[i] != path[j]
  }

  lemma {:induction false} FromSuffix(path: seq<Pc>, pc: Pc)
    requires NoRepeats(path) && pc in path
    ensures From(path, pc) != [] && From(path, pc)[0] == pc
    ensures From(path, pc) == [pc] + From(path, After(path, pc))
  {
    if path[0] == pc {
      FromFirst(path);
    } else {
      assert path == [path[0]] + path[1..];
      FromSuffix(path[1..], pc);
      LaterPlace(path, pc);
    }
  }

  lemma FromFirst(path: seq<Pc>)
    requires NoRepeats(path) && path != []
    ensures From(path, After(path, path[0])) == path[1..]
  {
    if |path| == 1 {
      NotThere(path, Done);
    } else {
      assert path[1..][0] == path[1];
    }
  }

  lemma {:induction false} NotThere(path: seq<Pc>, pc: Pc)
    requires pc !in path
    ensures From(path, pc) == []
  {
    if path != [] { NotThere(path[1..], pc); }
  }

  lemma LaterPlace(path: seq<Pc>, pc: Pc)
    requires NoRepeats(path) && pc in path && path[0] != pc
    requires From(path[1..], pc) == [pc] + From(path[1..], After(path[1..], pc))
    ensures From(path, After(path, pc)) == From(path[1..], After(path[1..], pc))
  {
    hide From;
    Skip(path, pc);
    var next := After(path[1..], pc);
    AfterOnWay(path[1..], pc);
    assert next != path[0];
    Skip(path, next);
  }

  lemma Skip(path: seq<Pc>, pc: Pc)
    requires path != [] && path[0] != pc
    ensures From(path, pc) == From(path[1..], pc)
  {}

  lemma {:induction false} InSuffix(path: seq<Pc>, pc: Pc)
    ensures forall x :: x in From(path, pc) ==> x in path
  {
    if path != [] && path[0] != pc { InSuffix(path[1..], pc); }
  }

  /** On the path, or at its end. */
  ghost predicate OnWay(path: seq<Pc>, pc: Pc) { pc == Done || pc in path }

  lemma AfterOnWay(path: seq<Pc>, pc: Pc)
    ensures OnWay(path, After(path, pc))
  {
    InSuffix(path, pc);
  }

  lemma {:induction false} AfterAt(path: seq<Pc>, k: nat)
    requires NoRepeats(path) && k < |path|
    ensures After(path, path[k]) == if k + 1 < |path| then path[k + 1] else Done
  {
    if k > 0 {
      AfterAt(path[1..], k - 1);
    }
  }

  // ---------- the paths are the code's ----------

  lemma HandlerPath(rpc: Rpc, id: Id)
    ensures NoRepeats(Path(Handle(rpc, id)))
  {}

  lemma MigratePath(id: Id, removeSrc: bool)
    ensures NoRepeats(Path(MigrateTarget(id, removeSrc)))
  {
    var first := [FindProvider, GetInput, MigrateLock, HasClient, MigrateFind, Reach, Fileset, Ship, MigrateUnlock];
    var second := if removeSrc then [DetachLock, DetachDo, DetachUnlock] else [];
    Joined(second, [Relock, Finish]);
    Joined(first, second + [Relock, Finish]);
    assert Path(MigrateTarget(id, removeSrc)) == first + (second + [Relock, Finish]);
  }

  lemma Joined(first: seq<Pc>, second: seq<Pc>)
    requires NoRepeats(first) && NoRepeats(second) && forall x :: x in second ==> x !in first
    ensures NoRepeats(first + second)
  {
    var all := first + second;
    forall i, j | 0 <= i < j < |all| ensures all[i] != all[j] {
      if i < |first| <= j { assert all[j] in second; }
    }
  }

  lemma OtherPaths(task: Task)
    requires !task.Handle? && !task.MigrateTarget?
    ensures NoRepeats(Path(task))
  {}

  lemma PathsNoRepeats(task: Task)
    ensures NoRepeats(Path(task))
  {
    hide Path, NoRepeats;
    if task.Handle? { HandlerPath(task.rpc, task.id); }
    else if task.MigrateTarget? { MigratePath(task.id, task.removeSrc); }
    else { OtherPaths(task); }
  }

  /** Nothing went wrong, and this is not a round of a detach-all. */
  predicate Smooth(s: State, e: Event)
    requires e.who < |s.threads|
  {
    !Trouble(s, e) && !InDetachAll(s, e)
  }

  /** The handlers' path, place by place. */
  lemma HandlerTable(rpc: Rpc, id: Id)
    ensures var p, n, a := Path(Handle(rpc, id)), BackendCalls(rpc), NeedsAddress(rpc);
            && After(p, FindProvider) == GetInput && After(p, GetInput) == ReadLock && After(p, ReadLock) == FindTarget
            && After(p, FindTarget) == (if a then Address else Call(n)) && (a ==> After(p, Address) == Call(n))
            && (n == 3 ==> After(p, Call(3)) == Call(2) && After(p, Call(2)) == Call(1))
            && (n == 1 || n == 3) && After(p, Call(1)) == Finish && After(p, Finish) == Done
            && forall pc :: pc in p ==>
                 pc == FindProvider || pc == GetInput || pc == ReadLock || pc == FindTarget || (a && pc == Address)
                 || pc == Call(1) || (n == 3 && (pc == Call(2) || pc == Call(3))) || pc == Finish
  {
    hide After, From, NoRepeats;
    var p := Path(Handle(rpc, id));
    HandlerPath(rpc, id);
    var k := if NeedsAddress(rpc) then 5 else 4;
    AfterAt(p, 0);
    AfterAt(p, 1);
    AfterAt(p, 2);
    AfterAt(p, 3);
    AfterAt(p, 4);
    AfterAt(p, k);
    AfterAt(p, k + 1);
    if BackendCalls(rpc) == 3 {
      AfterAt(p, k + 2);
      AfterAt(p, k + 3);
    }
  }

  lemma HandlerWay(s: State, i: nat, rpc: Rpc, id: Id, ok: bool)
    requires i < |s.threads| && s.threads[i].task == Handle(rpc, id) && s.threads[i].pc in Path(Handle(rpc, id))
    requires !Trouble(s, Event(i, ok))
    ensures i < |HandlerStep(s, i, rpc, id, ok).threads|
    ensures HandlerStep(s, i, rpc, id, ok).threads[i].pc == After(Path(Handle(rpc, id)), s.threads[i].pc)
  {
    hide Path, After, BackendCalls, NeedsAddress, HandlerStep, Trouble;
    HandlerTable(rpc, id);
    if s.threads[i].pc.Call? { CallMoves(s, i, rpc, id, ok); } else { HandlerSteps(s, i, rpc, id, ok); }
  }

  lemma HandlerSteps(s: State, i: nat, rpc: Rpc, id: Id, ok: bool)
    requires i < |s.threads| && s.threads[i].task == Handle(rpc, id) && !Trouble(s, Event(i, ok))
    ensures var u, pc := HandlerStep(s, i, rpc, id, ok).threads, s.threads[i].pc;
            && (pc == FindProvider ==> i < |u| && u[i].pc == GetInput)
            && (pc == GetInput ==> i < |u| && u[i].pc == ReadLock)
            && (pc == ReadLock ==> i < |u| && u[i].pc == FindTarget)
            && (pc == FindTarget ==> i < |u| && u[i].pc == if NeedsAddress(rpc) then Address else Call(BackendCalls(rpc)))
            && (pc == Address ==> i < |u| && u[i].pc == Call(BackendCalls(rpc)))
            && (pc == Finish ==> i < |u| && u[i].pc == Done)
  {
    hide NeedsAddress, BackendCalls;
  }

  /** The migration's path, place by place. */
  lemma MigrateStart(id: Id, removeSrc: bool)
    ensures var p := Path(MigrateTarget(id, removeSrc));
            && After(p, FindProvider) == GetInput && After(p, GetInput) == MigrateLock && After(p, MigrateLock) == HasClient
            && After(p, HasClient) == MigrateFind && After(p, MigrateFind) == Reach && After(p, Reach) == Fileset
            && After(p, Fileset) == Ship && After(p, Ship) == MigrateUnlock
  {
    hide After, From, NoRepeats;
    var p := Path(MigrateTarget(id, removeSrc));
    MigratePath(id, removeSrc);
    AfterAt(p, 0);
    AfterAt(p, 1);
    AfterAt(p, 2);
    AfterAt(p, 3);
    AfterAt(p, 4);
    AfterAt(p, 5);
    AfterAt(p, 6);
    AfterAt(p, 7);
  }

  lemma MigrateEnd(id: Id, removeSrc: bool)
    ensures var p := Path(MigrateTarget(id, removeSrc));
            && After(p, MigrateUnlock) == (if removeSrc then DetachLock else Relock)
            && (removeSrc ==> After(p, DetachLock) == DetachDo && After(p, DetachDo) == DetachUnlock
                              && After(p, DetachUnlock) == Relock)
            && After(p, Relock) == Finish && After(p, Finish) == Done
  {
    hide After, From, NoRepeats;
    var p := Path(MigrateTarget(id, removeSrc));
    MigratePath(id, removeSrc);
    AfterAt(p, 8);
    AfterAt(p, 9);
    AfterAt(p, 10);
    if removeSrc {
      AfterAt(p, 11);
      AfterAt(p, 12);
      AfterAt(p, 13);
    }
  }

  lemma MigratePlaces(id: Id, removeSrc: bool, pc: Pc)
    requires pc in Path(MigrateTarget(id, removeSrc))
    ensures pc == FindProvider || pc == GetInput || pc == MigrateLock || pc == HasClient || pc == MigrateFind
            || pc == Reach || pc == Fileset || pc == Ship || pc == MigrateUnlock || pc == Relock || pc == Finish
            || (removeSrc && (pc == DetachLock || pc == DetachDo || pc == DetachUnlock))
  {}

  lemma MigrateWay(s: State, i: nat, id: Id, removeSrc: bool, ok: bool)
    requires i < |s.threads| && s.threads[i].task == MigrateTarget(id, removeSrc)
    requires s.threads[i].pc in Path(MigrateTarget(id, removeSrc)) && !Trouble(s, Event(i, ok))
    ensures i < |MigrateStep(s, i, id, removeSrc, ok).threads|
    ensures MigrateStep(s, i, id, removeSrc, ok).threads[i].pc == After(Path(MigrateTarget(id, removeSrc)), s.threads[i].pc)
  {
    hide Path, After, MigrateStep, Trouble;
    MigratePlaces(id, removeSrc, s.threads[i].pc);
    MigrateStart(id, removeSrc);
    MigrateEnd(id, removeSrc);
    if Calm(s.threads[i].pc) { LateSteps(s, i, id, removeSrc, ok); } else { EarlySteps(s, i, id, removeSrc, ok); }
  }

  lemma EarlySteps(s: State, i: nat, id: Id, removeSrc: bool, ok: bool)
    requires i < |s.threads| && s.threads[i].task == MigrateTarget(id, removeSrc) && !Trouble(s, Event(i, ok))
    ensures var u, pc := MigrateStep(s, i, id, removeSrc, ok).threads, s.threads[i].pc;
            && (pc == FindProvider ==> i < |u| && u[i].pc == GetInput)
            && (pc == GetInput ==> i < |u| && u[i].pc == MigrateLock)
            && (pc == MigrateLock ==> i < |u| && u[i].pc == HasClient)
            && (pc == HasClient ==> i < |u| && u[i].pc == MigrateFind)
            && (pc == MigrateFind ==> i < |u| && u[i].pc == Reach)
            && (pc == Reach ==> i < |u| && u[i].pc == Fileset)
            && (pc == Fileset ==> i < |u| && u[i].pc == Ship)
            && (pc == Ship ==> i < |u| && u[i].pc == MigrateUnlock)
  {
    hide Drop;
  }

  lemma LateSteps(s: State, i: nat, id: Id, removeSrc: bool, ok: bool)
    requires i < |s.threads|
    ensures var u, pc := MigrateStep(s, i, id, removeSrc, ok).threads, s.threads[i].pc;
            && (pc == MigrateUnlock ==> i < |u| && u[i].pc == if removeSrc then DetachLock else Relock)
            && (pc == DetachLock ==> i < |u| && u[i].pc == DetachDo)
            && (pc == DetachDo ==> i < |u| && u[i].pc == DetachUnlock)
            && (pc == DetachUnlock ==> i < |u| && u[i].pc == Relock)
            && (pc == Relock ==> i < |u| && u[i].pc == Finish)
            && (pc == Finish ==> i < |u| && u[i].pc == Done)
  {
    hide Drop;
    DropShrinks(s, id);
  }

  /** The short paths, place by place. */
  lemma ShortTable(task: Task, a: Pc, b: Pc, c: Pc)
    requires Path(task) == [a, b, c] && NoRepeats([a, b, c])
    ensures After(Path(task), a) == b && After(Path(task), b) == c && After(Path(task), c) == Done
  {
    hide After, Path;
    AfterAt([a, b, c], 0);
    AfterAt([a, b, c], 1);
    AfterAt([a, b, c], 2);
  }

  lemma AttachTable(id: Id)
    ensures var p := Path(Attach(id));
            && After(p, Initialize) == AttachLock && After(p, AttachLock) == Insert && After(p, Insert) == AttachUnlock
            && After(p, AttachUnlock) == Done
            && forall pc :: pc in p ==> pc == Initialize || pc == AttachLock || pc == Insert || pc == AttachUnlock
  {
    hide After, NoRepeats;
    var p := [Initialize, AttachLock, Insert, AttachUnlock];
    assert Path(Attach(id)) == p;
    OtherPaths(Attach(id));
    AfterAt(p, 0);
    AfterAt(p, 1);
    AfterAt(p, 2);
    AfterAt(p, 3);
  }

  lemma AttachWay(s: State, i: nat, id: Id, ok: bool)
    requires i < |s.threads| && s.threads[i].task == Attach(id) && s.threads[i].pc in Path(Attach(id))
    requires !Trouble(s, Event(i, ok))
    ensures i < |AttachStep(s, i, id, ok).threads|
    ensures AttachStep(s, i, id, ok).threads[i].pc == After(Path(Attach(id)), s.threads[i].pc)
  {
    hide After, Path;
    AttachTable(id);
  }

  lemma DetachWay(s: State, i: nat, id: Id)
    requires i < |s.threads| && s.threads[i].task == Detach(id) && s.threads[i].pc in Path(Detach(id))
    ensures i < |DetachStep(s, i, id).threads|
    ensures DetachStep(s, i, id).threads[i].pc == After(Path(Detach(id)), s.threads[i].pc)
  {
    hide After, Drop;
    DropShrinks(s, id);
    OtherPaths(Detach(id));
    ShortTable(Detach(id), DetachLock, DetachDo, DetachUnlock);
  }

  lemma DetachAllWay(s: State, i: nat)
    requires i < |s.threads| && s.threads[i].task == DetachAll && s.threads[i].pc in Path(DetachAll)
    requires !(s.threads[i].pc.AllLoop? && s.order != [])
    ensures i < |DetachAllStep(s, i).threads|
    ensures DetachAllStep(s, i).threads[i].pc == After(Path(DetachAll), s.threads[i].pc)
  {
    hide After;
    OtherPaths(DetachAll);
    ShortTable(DetachAll, AllLock, AllLoop, AllUnlock);
  }

  lemma ExamineWay(s: State, i: nat)
    requires i < |s.threads| && s.threads[i].task == Examine && s.threads[i].pc in Path(Examine)
    ensures i < |ExamineStep(s, i).threads|
    ensures ExamineStep(s, i).threads[i].pc == After(Path(Examine), s.threads[i].pc)
  {
    hide After;
    OtherPaths(Examine);
    ShortTable(Examine, ExamineLock, ExamineDo, ExamineUnlock);
  }

  // ---------- over whole runs ----------

  lemma StepOnWay(s: State, e: Event)
    requires Inv(s) && Enabled(s, e) && Smooth(s, e) && s.threads[e.who].pc in Path(s.threads[e.who].task)
    ensures e.who < |Apply(s, e).threads|
    ensures Apply(s, e).threads[e.who].pc == After(Path(s.threads[e.who].task), s.threads[e.who].pc)
  {
    hide Inv, HandlerStep, MigrateStep, AttachStep, DetachStep, DetachAllStep, ExamineStep, Trouble, Path, After;
    var i, task := e.who, s.threads[e.who].task;
    assert e == Event(i, e.ok);
    if task.Handle? { HandlerWay(s, i, task.rpc, task.id, e.ok); }
    else if task.MigrateTarget? { MigrateWay(s, i, task.id, task.removeSrc, e.ok); }
    else if task.Attach? { AttachWay(s, i, task.id, e.ok); }
    else if task.Detach? { DetachWay(s, i, task.id); }
    else if task.DetachAll? { DetachAllWay(s, i); }
    else { ExamineWay(s, i); }
  }

  lemma {:induction false} VisitsFrom(s: State, es: seq<Event>, i: nat)
    requires Inv(s) && Legal(s, es) && i < |s.threads| && !s.threads[i].task.DetachAll? && !Troubled(s, es, i)
    requires OnWay(Path(s.threads[i].task), s.threads[i].pc)
    requires i < |Run(s, es).threads| && Run(s, es).threads[i].pc == Done
    ensures Visits(s, es, i) == From(Path(s.threads[i].task), s.threads[i].pc)
    decreases |es|
  {
    hide Inv, Apply, Path, From, After, Trouble, NoRepeats;
    var path, pc := Path(s.threads[i].task), s.threads[i].pc;
    PathsNoRepeats(s.threads[i].task);
    if es == [] {
      NoDone(path);
    } else {
      var e := es[0];
      OneThreadMoves(s, e);
      InvStep(s, e);
      if e.who == i {
        StepOnWay(s, e);
        AfterOnWay(path, pc);
        FromSuffix(path, pc);
      }
      VisitsFrom(Apply(s, e), es[1..], i);
    }
  }

  lemma NoDone(path: seq<Pc>)
    requires NoRepeats(path)
    ensures From(path, Done) == []
  {
    NotThere(path, Done);
  }

  /** From the start to its end a task other than detach-all goes exactly its path, whatever the others
      do in between, if nothing goes wrong for it. */
  lemma PathTaken(s: State, es: seq<Event>, i: nat)
    requires Setup(s) && Legal(s, es) && i < |s.threads| && !s.threads[i].task.DetachAll? && !Troubled(s, es, i)
    requires i < |Run(s, es).threads| && Run(s, es).threads[i].pc == Done
    ensures Visits(s, es, i) == Path(s.threads[i].task)
  {
    SetupInv(s);
    EntryOf(s, i);
    hide Setup, Inv;
    StartsAtEntry(s.threads[i].task);
    VisitsFrom(s, es, i);
  }

  lemma StartsAtEntry(task: Task)
    ensures Path(task) != [] && Path(task)[0] == Entry(task) && From(Path(task), Entry(task)) == Path(task)
  {}
}
