/** Every step of every thread keeps the invariant of the lock protocol. */
module LockInvariant {
  import opened LockProtocol
  import R = Registry

  // ---------- counting threads ----------

  lemma {:induction false} CountPut(ts: seq<Thread>, i: nat, t: Thread, mode: Mode)
    requires i < |ts|
    ensures Count(ts[i := t], mode) + (if ts[i].holds == mode then 1 else 0)
         == Count(ts, mode) + if t.holds == mode then 1 else 0
  {
    if i == 0 {
      assert ts[i := t][1..] == ts[1..];
    } else {
      assert ts[i := t][1..] == ts[1..][i - 1 := t];
      CountPut(ts[1..], i - 1, t, mode);
    }
  }

  lemma {:induction false} CountNone(ts: seq<Thread>, mode: Mode)
    ensures Count(ts, mode) == 0 <==> forall i :: 0 <= i < |ts| ==> ts[i].holds != mode
  {
    if ts != [] {
      CountNone(ts[1..], mode);
      assert forall i :: 0 < i < |ts| ==> ts[i] == ts[1..][i - 1];
    }
  }

  lemma WriterAlone(s: State, i: nat)
    requires Exclusive(s.threads) && LockOk(s.threads, s.readers, s.writing) && i < |s.threads|
    ensures s.threads[i].holds == Writing ==> s.writing
    ensures s.threads[i].holds == Reading ==> !s.writing && s.readers > 0
  {
    CountNone(s.threads, Writing);
    CountNone(s.threads, Reading);
  }

  // ---------- one kind of step at a time ----------

  lemma PutKeeps(s: State, i: nat, t: Thread)
    requires i < |s.threads| && Inv(s) && ThreadOk(s.registry, t) && t.holds == s.threads[i].holds
    ensures Inv(Put(s, i, t))
  {
    hide ThreadOk, RegistryOk, InOrder, Count;
    CountPut(s.threads, i, t, Reading);
    CountPut(s.threads, i, t, Writing);
  }

  lemma RdLockKeeps(s: State, i: nat, pc: Pc)
    requires i < |s.threads| && Inv(s) && !s.writing && s.threads[i].holds == Idle
    requires ThreadOk(s.registry, RdLock(s, i, pc).threads[i])
    ensures Inv(RdLock(s, i, pc))
  {
    hide ThreadOk, RegistryOk, InOrder, Count;
    var t := RdLock(s, i, pc).threads[i];
    CountPut(s.threads, i, t, Reading);
    CountPut(s.threads, i, t, Writing);
    CountNone(s.threads, Writing);
  }

  lemma WrLockKeeps(s: State, i: nat, pc: Pc)
    requires i < |s.threads| && Inv(s) && !s.writing && s.readers == 0 && s.threads[i].holds == Idle
    requires ThreadOk(s.registry, WrLock(s, i, pc).threads[i])
    ensures Inv(WrLock(s, i, pc))
  {
    hide ThreadOk, RegistryOk, InOrder, Count;
    var t := WrLock(s, i, pc).threads[i];
    CountPut(s.threads, i, t, Reading);
    CountPut(s.threads, i, t, Writing);
    CountNone(s.threads, Writing);
    CountNone(s.threads, Reading);
  }

  /** The unlock undoes what this thread did, whichever way it took the lock. */
  lemma UnlockKeeps(s: State, i: nat, pc: Pc)
    requires i < |s.threads| && Inv(s) && s.threads[i].holds != Idle
    requires ThreadOk(s.registry, Unlock(s, i, pc).threads[i])
    ensures Inv(Unlock(s, i, pc))
  {
    hide ThreadOk, RegistryOk, InOrder, Count;
    var t := Unlock(s, i, pc).threads[i];
    WriterAlone(s, i);
    CountPut(s.threads, i, t, Reading);
    CountPut(s.threads, i, t, Writing);
  }

  /** Only the writer changes the registry, and while it does nobody uses a target. */
  lemma RegistryChange(s: State, i: nat, registry: map<Id, nat>)
    requires i < |s.threads| && Inv(s) && s.threads[i].holds == Writing && !UsesTarget(s.threads[i].pc)
    ensures ThreadsOk(registry, s.threads)
  {
    forall j | 0 <= j < |s.threads| ensures ThreadOk(registry, s.threads[j]) {
      assert ThreadOk(s.registry, s.threads[j]);
      assert j != i ==> s.threads[j].holds == Idle;
    }
  }

  lemma DropKeeps(s: State, i: nat, id: Id)
    requires i < |s.threads| && Inv(s) && s.threads[i].holds == Writing && !UsesTarget(s.threads[i].pc)
    ensures Inv(Drop(s, id))
  {
    hide ThreadsOk, Exclusive, LockOk, InOrder, R.Remove;
    RegistryChange(s, i, Drop(s, id).registry);
    if id in s.registry {
      DropInOrder(s.registry, s.order, id);
      var u := Drop(s, id);
      assert |u.registry| == |s.registry| - 1;
      forall x: nat | x < u.next ensures x in u.registry.Values || x in u.finalized {
        if x != s.registry[id] && x !in s.finalized {
          var k :| k in s.registry && s.registry[k] == x;
          assert k in u.registry && u.registry[k] == x;
        }
      }
    }
  }

  lemma {:induction false} RemoveOne(order: seq<Id>, id: Id)
    requires id in order && forall i, j :: 0 <= i < j < |order| ==> order[i] != order[j]
    ensures var rest := R.Remove(order, id);
            && |rest| == |order| - 1 && (forall i, j :: 0 <= i < j < |rest| ==> rest[i] != rest[j])
            && forall x :: x in rest <==> x in order && x != id
  {
    assert order == [order[0]] + order[1..];
    if order[0] != id {
      RemoveOne(order[1..], id);
      ConsDistinct(order[0], R.Remove(order[1..], id));
    }
  }

  lemma ConsDistinct(x: Id, rest: seq<Id>)
    requires x !in rest && forall i, j :: 0 <= i < j < |rest| ==> rest[i] != rest[j]
    ensures var all := [x] + rest; forall i, j :: 0 <= i < j < |all| ==> all[i] != all[j]
  {}

  lemma DropInOrder(registry: map<Id, nat>, order: seq<Id>, id: Id)
    requires InOrder(registry, order) && id in registry
    ensures InOrder(registry - {id}, R.Remove(order, id))
  {
    RemoveOne(order, id);
    assert |registry - {id}| == |registry| - 1;
  }

  lemma InsertInOrder(registry: map<Id, nat>, order: seq<Id>, id: Id, x: nat)
    requires InOrder(registry, order) && id !in registry
    ensures InOrder(registry[id := x], order + [id])
  {
    assert |registry[id := x]| == |registry| + 1;
  }

  lemma InsertKeeps(s: State, i: nat, id: Id)
    requires i < |s.threads| && Inv(s) && s.threads[i].holds == Writing && !UsesTarget(s.threads[i].pc)
    requires id !in s.registry
    ensures Inv(Inserted(s, id))
  {
    hide ThreadsOk, Exclusive, LockOk, InOrder;
    RegistryChange(s, i, s.registry[id := s.next]);
    InsertInOrder(s.registry, s.order, id, s.next);
    var u := Inserted(s, id);
    forall x: nat | x < u.next ensures x in u.registry.Values || x in u.finalized {
      if x == s.next {
        assert u.registry[id] == x;
      } else if x !in s.finalized {
        var k :| k in s.registry && s.registry[k] == x;
        assert u.registry[k] == x;
      }
    }
  }

  lemma ResetKeeps(s: State)
    requires Inv(s) && s.order == []
    ensures Inv(s.(num := 0))
  {
    hide Exclusive, LockOk, ThreadsOk;
  }

  // ---------- task by task ----------

  lemma ThreadIn(s: State, i: nat)
    requires i < |s.threads| && Inv(s)
    ensures ThreadOk(s.registry, s.threads[i])
  {}

  lemma GotoKeeps(s: State, i: nat, pc: Pc)
    requires i < |s.threads| && Inv(s) && ThreadOk(s.registry, s.threads[i].(pc := pc))
    ensures Inv(Goto(s, i, pc))
  {
    hide Inv, ThreadOk;
    PutKeeps(s, i, s.threads[i].(pc := pc));
  }

  lemma FindKeeps(s: State, i: nat, id: Id, pc: Pc)
    requires i < |s.threads| && Inv(s)
    requires id in s.registry ==> ThreadOk(s.registry, s.threads[i].(pc := pc, target := s.registry[id]))
    requires id !in s.registry ==> ThreadOk(s.registry, s.threads[i].(pc := Finish))
    ensures Inv(Find(s, i, id, pc))
  {
    hide Inv, ThreadOk;
    if id in s.registry {
      PutKeeps(s, i, s.threads[i].(pc := pc, target := s.registry[id]));
    } else {
      PutKeeps(s, i, s.threads[i].(pc := Finish));
    }
  }

  /** The finish label of a handler. */
  lemma FinishKeeps(s: State, i: nat)
    requires i < |s.threads| && Inv(s) && s.threads[i].pc == Finish
    ensures Inv(UnlockProvider(s, i, Done))
  {
    hide Inv;
    ThreadIn(s, i);
    if s.threads[i].locked {
      UnlockKeeps(s, i, Done);
    } else {
      PutKeeps(s, i, s.threads[i].(pc := Done));
    }
  }

  /** What a step may take for granted about the lock and its own thread. */
  predicate MayStep(s: State, i: nat) {
    i < |s.threads| &&
    var t := s.threads[i];
    && !t.pc.Done?
    && (WaitsToRead(t.pc) ==> !s.writing)
    && (WaitsToWrite(t.pc) ==> !s.writing && s.readers == 0)
  }

  lemma HandlerKeeps(s: State, i: nat, rpc: Rpc, id: Id, ok: bool)
    requires Inv(s) && MayStep(s, i) && s.threads[i].task == Handle(rpc, id)
    ensures Inv(HandlerStep(s, i, rpc, id, ok))
  {
    hide Inv;
    ThreadIn(s, i);
    var pc := s.threads[i].pc;
    if pc.ReadLock? {
      RdLockKeeps(s, i, FindTarget);
    } else if pc.FindTarget? {
      FindKeeps(s, i, id, if NeedsAddress(rpc) then Address else Call(BackendCalls(rpc)));
    } else if pc.Finish? {
      FinishKeeps(s, i);
    } else {
      GotoKeeps(s, i, HandlerStep(s, i, rpc, id, ok).threads[i].pc);
    }
  }

  lemma MigrateKeeps(s: State, i: nat, id: Id, removeSrc: bool, ok: bool)
    requires Inv(s) && MayStep(s, i) && s.threads[i].task == MigrateTarget(id, removeSrc)
    ensures Inv(MigrateStep(s, i, id, removeSrc, ok))
  {
    hide Inv;
    ThreadIn(s, i);
    var pc := s.threads[i].pc;
    if pc.MigrateLock? || pc.DetachLock? || pc.Relock? {
      MigrateLocks(s, i, id, removeSrc, ok);
    } else if pc.MigrateUnlock? || pc.DetachUnlock? || pc.Finish? {
      MigrateUnlocks(s, i, id, removeSrc, ok);
    } else if pc.MigrateFind? {
      FindKeeps(s, i, id, Reach);
    } else if pc.DetachDo? {
      DetachKeeps(s, i, id);
    } else {
      GotoKeeps(s, i, MigrateStep(s, i, id, removeSrc, ok).threads[i].pc);
    }
  }

  lemma MigrateLocks(s: State, i: nat, id: Id, removeSrc: bool, ok: bool)
    requires Inv(s) && MayStep(s, i) && s.threads[i].task == MigrateTarget(id, removeSrc)
    requires var pc := s.threads[i].pc; pc.MigrateLock? || pc.DetachLock? || pc.Relock?
    ensures Inv(MigrateStep(s, i, id, removeSrc, ok))
  {
    hide Inv;
    ThreadIn(s, i);
    var pc := s.threads[i].pc;
    if pc.MigrateLock? {
      WrLockKeeps(s, i, HasClient);
    } else if pc.DetachLock? {
      WrLockKeeps(s, i, DetachDo);
    } else {
      RdLockKeeps(s, i, Finish);
    }
  }

  lemma MigrateUnlocks(s: State, i: nat, id: Id, removeSrc: bool, ok: bool)
    requires Inv(s) && MayStep(s, i) && s.threads[i].task == MigrateTarget(id, removeSrc)
    requires var pc := s.threads[i].pc; pc.MigrateUnlock? || pc.DetachUnlock? || pc.Finish?
    ensures Inv(MigrateStep(s, i, id, removeSrc, ok))
  {
    hide Inv;
    ThreadIn(s, i);
    var pc := s.threads[i].pc;
    if pc.Finish? {
      FinishKeeps(s, i);
    } else if pc.MigrateUnlock? {
      UnlockKeeps(s, i, if removeSrc then DetachLock else Relock);
    } else {
      UnlockKeeps(s, i, Relock);
    }
  }

  lemma DetachKeeps(s: State, i: nat, id: Id)
    requires i < |s.threads| && Inv(s) && s.threads[i].pc == DetachDo
    ensures Inv(Goto(Drop(s, id), i, DetachUnlock))
  {
    hide Inv;
    ThreadIn(s, i);
    DropKeeps(s, i, id);
    PutKeeps(Drop(s, id), i, s.threads[i].(pc := DetachUnlock));
  }

  lemma AttachKeeps(s: State, i: nat, id: Id, ok: bool)
    requires Inv(s) && MayStep(s, i) && s.threads[i].task == Attach(id)
    requires s.threads[i].pc.Insert? ==> id !in s.registry
    ensures Inv(AttachStep(s, i, id, ok))
  {
    hide Inv;
    ThreadIn(s, i);
    var pc := s.threads[i].pc;
    if pc.AttachLock? {
      WrLockKeeps(s, i, Insert);
    } else if pc.Insert? {
      InsertKeeps(s, i, id);
      GotoKeeps(Inserted(s, id), i, AttachUnlock);
    } else if pc.AttachUnlock? {
      UnlockKeeps(s, i, Done);
    } else {
      GotoKeeps(s, i, if ok then AttachLock else Done);
    }
  }

  lemma DetachStepKeeps(s: State, i: nat, id: Id)
    requires Inv(s) && MayStep(s, i) && s.threads[i].task == Detach(id)
    ensures Inv(DetachStep(s, i, id))
  {
    hide Inv;
    ThreadIn(s, i);
    var pc := s.threads[i].pc;
    if pc.DetachLock? {
      WrLockKeeps(s, i, DetachDo);
    } else if pc.DetachDo? {
      DetachKeeps(s, i, id);
    } else {
      UnlockKeeps(s, i, Done);
    }
  }

  lemma DetachAllKeeps(s: State, i: nat)
    requires Inv(s) && MayStep(s, i) && s.threads[i].task == DetachAll
    ensures Inv(DetachAllStep(s, i))
  {
    hide Inv;
    ThreadIn(s, i);
    var pc := s.threads[i].pc;
    if pc.AllLock? {
      WrLockKeeps(s, i, AllLoop);
    } else if pc.AllUnlock? {
      UnlockKeeps(s, i, Done);
    } else if s.order != [] {
      DropKeeps(s, i, s.order[0]);
    } else {
      ResetKeeps(s);
      GotoKeeps(s.(num := 0), i, AllUnlock);
    }
  }

  lemma ExamineKeeps(s: State, i: nat)
    requires Inv(s) && MayStep(s, i) && s.threads[i].task == Examine
    ensures Inv(ExamineStep(s, i))
  {
    hide Inv;
    ThreadIn(s, i);
    var pc := s.threads[i].pc;
    if pc.ExamineLock? {
      RdLockKeeps(s, i, ExamineDo);
    } else if pc.ExamineUnlock? {
      UnlockKeeps(s, i, Done);
    } else {
      GotoKeeps(s, i, ExamineUnlock);
    }
  }

  /** Every step of every thread keeps the invariant. */
  lemma InvStep(s: State, e: Event)
    requires Inv(s) && Enabled(s, e)
    ensures Inv(Apply(s, e))
  {
    hide Inv, HandlerStep, MigrateStep, AttachStep, DetachStep, DetachAllStep, ExamineStep;
    var i, task := e.who, s.threads[e.who].task;
    if task.Handle? { HandlerKeeps(s, i, task.rpc, task.id, e.ok); }
    else if task.MigrateTarget? { MigrateKeeps(s, i, task.id, task.removeSrc, e.ok); }
    else if task.Attach? { AttachKeeps(s, i, task.id, e.ok); }
    else if task.Detach? { DetachStepKeeps(s, i, task.id); }
    else if task.DetachAll? { DetachAllKeeps(s, i); }
    else { ExamineKeeps(s, i); }
  }

  lemma {:induction false} InvRun(s: State, es: seq<Event>)
    requires Inv(s) && Legal(s, es)
    ensures Inv(Run(s, es))
    decreases |es|
  {
    if es != [] {
      InvStep(s, es[0]);
      InvRun(Apply(s, es[0]), es[1..]);
    }
  }
}
