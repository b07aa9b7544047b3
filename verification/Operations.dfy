/** The two layers agree: an operation that no other thread interrupts between
    its database calls does to the database what the whole operation says. */
module Operations {
  import opened Tables
  import opened TaskRules
  import opened TaskLifecycle
  import opened SqliteDb
  import opened TaskServiceModule
  import opened HeartbeatModule
  import opened Interleaving

  function StepOf(op: Op, healthy: set<string>): Step {
    match op
    case OpCreate(t, warehouse) => StepCreate(t, warehouse)
    case OpCancel(task) => StepCancel(task)
    case OpApply(req) => StepApply(req)
    case OpReport(e) => StepReport(e)
    case OpBeat(active) => StepHeartbeat(Ids(active), healthy)
  }

  // How many calls an operation can still make.
  function CallsLeft(pc: Pc): nat {
    match pc
    case Creating(_) => 1
    case Cancelling(_, _) => 1
    case Applying(req, _, next) => if next < |req.goods| then |req.goods| - next + 1 else 1
    case Recorded(_) => 4
    case Accepting(_) => 1
    case Settled(_) => 3
    case Found(_) => 2
    case Finishing(_) => 1
    case Beating(active, next) => if next < |active| then |active| - next + 1 else 1
  }

  lemma CallsRunOut(db: Db, pc: Pc, healthy: set<string>)
    ensures var after := Continue(db, pc, healthy).1;
      after.Some? ==> CallsLeft(after.value) < CallsLeft(pc)
  {
    hide AllDone, CanApprove, CanCarry, AllAbnormal;
  }

  // The database when the operation ends, if nothing else runs meanwhile.
  ghost function Rest(db: Db, pc: Option<Pc>, healthy: set<string>): Db
    decreases if pc.None? then 0 else CallsLeft(pc.value) + 1
  {
    if pc.None? then db
    else
      CallsRunOut(db, pc.value, healthy);
      var (d, after) := Continue(db, pc.value, healthy);
      Rest(d, after, healthy)
  }

  lemma {:induction false} RestOfApply(
    db: Db, req: ApplyRequest, seen: TaskRow, next: nat, healthy: set<string>)
    requires next <= |req.goods|
    ensures var (d, all) := ApproveGoods(db, req.request, req.task, req.robot, req.goods[next..]);
      Rest(db, Some(Applying(req, seen, next)), healthy)
      == if all && (seen.state.Pending? || seen.state.Accepted?)
         then SetStateLogged(d, req.task, Running, "first goods approved", "EDGE") else d
    decreases |req.goods| - next
  {
    hide Approve, CanApprove, SetStateLogged;
    if next < |req.goods| {
      assert req.goods[next..][1..] == req.goods[next + 1..];
      var key := GoodsKey(req.task, req.goods[next].goodsId);
      if CanApprove(db, req.request, key, req.robot, req.goods[next].quantity) {
        var d := Approve(db, req.request, key, req.robot, req.goods[next].quantity);
        RestOfApply(d, req, seen, next + 1, healthy);
      }
    }
  }

  lemma {:induction false} RestOfBeat(db: Db, active: seq<ActiveTask>, next: nat, healthy: set<string>)
    requires next <= |active| && StillActive(db, active, next)
    requires forall i, j | 0 <= i < j < |active| :: active[i].taskId != active[j].taskId
    ensures Rest(db, Some(Beating(active, next)), healthy) == Heartbeat(db, Ids(active)[next..], healthy)
    decreases |active| - next
  {
    if next < |active| {
      var ids := Ids(active);
      assert ids[next..][0] == active[next].taskId && ids[next..][1..] == ids[next + 1..];
      var d := if AllAbnormal(active[next].robotIds, healthy) then Interrupt(db, active[next].taskId) else db;
      assert StillActive(d, active, next + 1);
      hide AllAbnormal, Interrupt, StillActive;
      RestOfBeat(d, active, next + 1, healthy);
    }
  }

  lemma RestOfReport(db: Db, e: AmrEvent, healthy: set<string>)
    ensures var (d, pc) := Begin(db, OpReport(e)); Rest(d, pc, healthy) == Report(db, e)
  {
    var d := RecordReport(db, e);
    hide RecordReport, AllDone, SetStateLogged;
    if IsCarry(e) && e.request != "" {
      hide CanSettle;
      UnsettledUnchanged(d, e.request, e.robot, Outcome(e));
      var s := Settle(d, e.request, e.robot, Outcome(e));
      if CanCarry(d, e) && e.eventType.CarryCompleted? {
        RestOfSettled(s, e.task, healthy);
      }
    } else if !IsCarry(e) && e.eventType.Status? && e.taskState == "ACCEPTED" {
      RestOfAccept(d, e, healthy);
    }
  }

  lemma RestOfSettled(db: Db, task: string, healthy: set<string>)
    ensures Rest(db, Some(Settled(task)), healthy) == Finish(db, task)
  {
    hide AllDone, SetStateLogged;
    if task in db.tasks {
      assert Rest(db, Some(Settled(task)), healthy) == Rest(db, Some(Found(task)), healthy);
      if AllDone(db.status, task) {
        assert Rest(db, Some(Found(task)), healthy) == Rest(db, Some(Finishing(task)), healthy);
        var d := SetStateLogged(db, task, Succeeded, "all goods completed", "AMR");
        assert Rest(db, Some(Finishing(task)), healthy) == Rest(d, None, healthy);
      }
    }
  }

  lemma RestOfAccept(db: Db, e: AmrEvent, healthy: set<string>)
    requires !IsCarry(e)
    ensures Rest(db, Some(Recorded(e)), healthy) == AcceptTask(db, e.task)
  {
    hide SetStateLogged;
    if e.task in db.tasks && db.tasks[e.task].state.Pending? {
      var d := SetStateLogged(db, e.task, Accepted, "first AMR accepted", "AMR");
      assert Rest(db, Some(Recorded(e)), healthy) == Rest(db, Some(Accepting(e.task)), healthy);
      assert Rest(db, Some(Accepting(e.task)), healthy) == Rest(d, None, healthy);
    }
  }

  lemma RestOfCreate(db: Db, t: TransportTask, warehouse: string, healthy: set<string>)
    ensures var (d, pc) := Begin(db, OpCreate(t, warehouse)); Rest(d, pc, healthy) == Create(db, t, warehouse)
  {
    assert CreateCode(db, t) == 0 <==> WellFormed(t) && t.taskId !in db.tasks && DistinctGoods(t.goods);
    assert CanCreate(db, Prepared(t, warehouse)) ==> DistinctGoods(t.goods);
  }

  /** An operation run alone from its first call to its last leaves exactly the
      database of the corresponding whole step. */
  lemma OperationAloneIsStep(db: Db, op: Op, healthy: set<string>)
    requires op.OpBeat? ==> ListsActive(db, op.active)
    ensures var (d, pc) := Begin(db, op); Rest(d, pc, healthy) == Do(db, StepOf(op, healthy))
  {
    match op
    case OpCreate(t, warehouse) => RestOfCreate(db, t, warehouse, healthy);
    case OpCancel(task) =>
    case OpApply(req) =>
      if ApplyRefusal(db, req).None? {
        RestOfApply(db, req, db.tasks[req.task], 0, healthy);
        assert req.goods[0..] == req.goods;
      }
    case OpReport(e) => RestOfReport(db, e, healthy);
    case OpBeat(active) =>
      RestOfBeat(db, active, 0, healthy);
      assert Ids(active)[0..] == Ids(active);
  }

  // ---- As a run of the threaded system -----------------------------------------

  // Every action is of this thread: it is not interrupted.
  predicate Uninterrupted(actions: seq<Action>, tid: nat) {
    forall i | 0 <= i < |actions| :: !actions[i].Restart? && actions[i].tid == tid
  }

  lemma {:induction false} DriveToEnd(s: Sys, tid: nat, healthy: set<string>) returns (actions: seq<Action>)
    ensures Uninterrupted(actions, tid)
    ensures Run(s, actions) == if tid !in s.threads then s
                               else Sys(Rest(s.db, Some(s.threads[tid]), healthy), s.threads - {tid})
    decreases if tid !in s.threads then 0 else CallsLeft(s.threads[tid]) + 1
  {
    hide Continue;
    actions := [];
    if tid in s.threads {
      var a := Advance(tid, healthy);
      var n := Next(s, a);
      CallsRunOut(s.db, s.threads[tid], healthy);
      var rest := DriveToEnd(n, tid, healthy);
      RunStep(s, a, rest);
      actions := [a] + rest;
      assert n.threads - {tid} == s.threads - {tid};
      if tid !in n.threads {
        assert n.threads == s.threads - {tid};
      }
    }
  }

  /** So the threaded system can do every whole operation in one uninterrupted
      stretch, leaving the other threads where they were. */
  lemma StepIsUninterruptedRun(s: Sys, op: Op, tid: nat, healthy: set<string>) returns (actions: seq<Action>)
    requires tid !in s.threads && (op.OpBeat? ==> ListsActive(s.db, op.active))
    ensures Uninterrupted(actions, tid)
    ensures Run(s, actions) == Sys(Do(s.db, StepOf(op, healthy)), s.threads)
  {
    hide Begin, Do, ListsActive, StepOf;
    var a := Start(tid, op);
    var n := Next(s, a);
    var rest := DriveToEnd(n, tid, healthy);
    RunStep(s, a, rest);
    actions := [a] + rest;
    OperationAloneIsStep(s.db, op, healthy);
    assert n.threads - {tid} == s.threads;
    if tid !in n.threads {
      assert n.threads == s.threads;
    }
  }
}
