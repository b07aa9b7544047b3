/** Runs of whole TaskService operations: the state of a task only climbs, and
    SUCCEEDED means exactly that every unit is completed. */
module TaskLifecycle {
  import opened Tables
  import opened Ledger
  import opened TaskRules

  datatype Step =
    | StepCreate(t: TransportTask, warehouse: string)
    | StepCancel(task: string)
    | StepApply(req: ApplyRequest)
    | StepReport(e: AmrEvent)
    | StepHeartbeat(order: seq<string>, healthy: set<string>)

  ghost function Do(db: Db, s: Step): Db {
    match s
    case StepCreate(t, warehouse) => Create(db, t, warehouse)
    case StepCancel(task) => Cancel(db, task)
    case StepApply(req) => Apply(db, req).0
    case StepReport(e) => Report(db, e)
    case StepHeartbeat(order, healthy) => Heartbeat(db, order, healthy)
  }

  ghost function DoAll(db: Db, steps: seq<Step>): Db
    decreases |steps|
  {
    if steps == [] then db else DoAll(Do(db, steps[0]), steps[1..])
  }

  // ---- A task's state only climbs -----------------------------------------

  function Rank(state: TaskState): nat {
    match state
    case Pending => 0
    case Accepted => 1
    case Running => 2
    case OtherState(_) => 2
    case Cancelled => 3
    case Interrupted => 3
    case Failed => 3
    case Succeeded => 4
  }

  predicate Climbs(from: TaskState, to: TaskState) { from == to || Rank(from) < Rank(to) }

  ghost predicate AllClimb(a: Db, b: Db) {
    forall t | t in a.tasks :: t in b.tasks && Climbs(a.tasks[t].state, b.tasks[t].state)
  }

  // ---- Each operation, as the calls it makes ------------------------------

  lemma {:induction false} ApproveGoodsKeeps(
    db: Db, request: string, task: string, robot: string, goods: seq<TaskGoods>)
    requires Safe(db) && task in db.tasks && robot in db.tasks[task].robotIds
    ensures var d := ApproveGoods(db, request, task, robot, goods).0;
      Safe(d) && d.tasks == db.tasks && d.log == db.log
    decreases |goods|
  {
    if goods != [] {
      var key := GoodsKey(task, goods[0].goodsId);
      if CanApprove(db, request, key, robot, goods[0].quantity) {
        CallKeepsSafe(db, CallApprove(request, key, robot, goods[0].quantity));
        ApproveGoodsKeeps(Approve(db, request, key, robot, goods[0].quantity), request, task, robot, goods[1..]);
      }
    }
  }

  lemma ApplyKeeps(db: Db, req: ApplyRequest)
    requires Safe(db)
    ensures Safe(Apply(db, req).0) && AllClimb(db, Apply(db, req).0)
  {
    hide Safe;
    if ApplyRefusal(db, req).None? {
      ApproveGoodsKeeps(db, req.request, req.task, req.robot, req.goods);
      var d := ApproveGoods(db, req.request, req.task, req.robot, req.goods).0;
      CallKeepsSafe(d, CallSetStateLogged(req.task, Running, "first goods approved", "EDGE"));
    }
  }

  lemma CarryKeeps(db: Db, e: AmrEvent)
    requires Safe(db) && CanCarry(db, e)
    ensures Safe(React(db, e)) && AllClimb(db, React(db, e))
  {
    hide Safe, AllDone, CanSettle;
    CallKeepsSafe(db, CallSettle(e.request, e.robot, Outcome(e)));
    var s := Settle(db, e.request, e.robot, Outcome(e));
    assert s.tasks == db.tasks;
    hide Settle;
    if AllDone(s.status, e.task) {
      CallKeepsSafe(s, CallSetStateLogged(e.task, Succeeded, "all goods completed", "AMR"));
    }
  }

  lemma ReportKeeps(db: Db, e: AmrEvent)
    requires Safe(db)
    ensures Safe(Report(db, e)) && AllClimb(db, Report(db, e))
  {
    hide Safe, CanSettle, Settle, Finish;
    CallKeepsSafe(db, CallRecord(e));
    var d := RecordReport(db, e);
    assert d.tasks == db.tasks;
    hide RecordReport;
    if CanCarry(d, e) {
      CarryKeeps(d, e);
    } else if !IsCarry(e) {
      CallKeepsSafe(d, CallSetStateLogged(e.task, Accepted, "first AMR accepted", "AMR"));
    }
  }

  lemma {:induction false} HeartbeatKeeps(db: Db, order: seq<string>, healthy: set<string>)
    requires Safe(db)
    ensures Safe(Heartbeat(db, order, healthy)) && AllClimb(db, Heartbeat(db, order, healthy))
    decreases |order|
  {
    hide Safe;
    if order != [] {
      var d := if ShouldInterrupt(db, order[0], healthy) then Interrupt(db, order[0]) else db;
      CallKeepsSafe(db, CallSetStateLogged(order[0], Interrupted, "ALL_AMRS_ABNORMAL", "TIMEOUT"));
      HeartbeatKeeps(d, order[1..], healthy);
    }
  }

  /** Every operation keeps the safety invariant, and moves no task's state down
      or sideways. */
  lemma StepKeeps(db: Db, s: Step)
    requires Safe(db)
    ensures Safe(Do(db, s)) && AllClimb(db, Do(db, s))
  {
    hide Safe;
    match s
    case StepCreate(t, warehouse) =>
      if CreateCode(db, t) == 0 { CallKeepsSafe(db, CallCreate(Prepared(t, warehouse))); }
    case StepCancel(task) => CallKeepsSafe(db, CallSetState(task, Cancelled, CANCELLED_BY_API));
    case StepApply(req) => ApplyKeeps(db, req);
    case StepReport(e) => ReportKeeps(db, e);
    case StepHeartbeat(order, healthy) => HeartbeatKeeps(db, order, healthy);
  }

  lemma EmptyIsSafe()
    ensures Safe(EMPTY)
  {
  }

  lemma {:induction false} RunKeeps(db: Db, steps: seq<Step>)
    requires Safe(db)
    ensures Safe(DoAll(db, steps)) && AllClimb(db, DoAll(db, steps))
    decreases |steps|
  {
    hide Safe, Do;
    if steps != [] {
      StepKeeps(db, steps[0]);
      RunKeeps(Do(db, steps[0]), steps[1..]);
    }
  }

  // How often the state of `task` changes along a run.
  ghost function Changes(db: Db, steps: seq<Step>, task: string): nat
    decreases |steps|
  {
    if steps == [] then 0
    else
      var d := Do(db, steps[0]);
      (if task in db.tasks && task in d.tasks && d.tasks[task].state != db.tasks[task].state then 1 else 0)
      + Changes(d, steps[1..], task)
  }

  lemma {:induction false} ChangesClimb(db: Db, steps: seq<Step>, task: string)
    requires Safe(db) && task in db.tasks
    ensures var d := DoAll(db, steps);
      task in d.tasks && Changes(db, steps, task) + Rank(db.tasks[task].state) <= Rank(d.tasks[task].state)
    decreases |steps|
  {
    hide Safe, Do;
    if steps != [] {
      StepKeeps(db, steps[0]);
      ChangesClimb(Do(db, steps[0]), steps[1..], task);
    }
  }

  lemma {:induction false} ChangesBeforeCreation(db: Db, steps: seq<Step>, task: string)
    requires Safe(db)
    ensures Changes(db, steps, task) <= 4
    decreases |steps|
  {
    hide Safe, Do;
    if task in db.tasks {
      ChangesClimb(db, steps, task);
    } else if steps != [] {
      StepKeeps(db, steps[0]);
      ChangesBeforeCreation(Do(db, steps[0]), steps[1..], task);
    }
  }

  /** A task changes state at most four times in any run from the empty
      database, and once SUCCEEDED it stays SUCCEEDED. */
  lemma AtMostFourChanges(before: seq<Step>, after: seq<Step>, task: string)
    ensures Changes(EMPTY, before, task) <= 4
    ensures var d := DoAll(EMPTY, before);
      task in d.tasks && d.tasks[task].state.Succeeded? ==>
        task in DoAll(d, after).tasks && DoAll(d, after).tasks[task].state.Succeeded?
  {
    EmptyIsSafe();
    hide Safe, Do, DoAll, Changes;
    ChangesBeforeCreation(EMPTY, before, task);
    RunKeeps(EMPTY, before);
    RunKeeps(DoAll(EMPTY, before), after);
  }

  /** The audit log explains the state: in every state a run of operations
      reaches, a task is in the state last logged for it, unless the API
      cancelled it, which is not logged. */
  lemma AuditLogExplainsStates(steps: seq<Step>, task: string)
    ensures var d := DoAll(EMPTY, steps);
      task in d.tasks ==>
        || LastLogged(d.log, task) == Some(d.tasks[task].state)
        || (d.tasks[task].state.Cancelled? && d.tasks[task].reason == CANCELLED_BY_API)
  {
    RunKeeps(EMPTY, steps);
    var d := DoAll(EMPTY, steps);
    assert task in d.tasks ==> Explained(d, task);
  }

  // ---- SUCCEEDED exactly when everything is completed ----------------------

  ghost predicate EveryUnitCompleted(db: Db, task: string) {
    forall k | k in db.status && k.task == task :: db.status[k].completed == db.status[k].total
  }

  lemma DoneMeansCompleted(db: Db, task: string)
    requires Safe(db) && task in db.tasks
    ensures AllDone(db.status, task) <==> EveryUnitCompleted(db, task)
  {
    forall k | k in db.status && k.task == task
      ensures db.status[k].completed == db.status[k].total
              <==> db.status[k].pending <= 0 && db.status[k].inProgress <= 0
    {
      assert Balanced(db, k);
    }
  }

  ghost predicate DoneSucceeded(db: Db) {
    forall t | t in db.tasks && AllDone(db.status, t) :: db.tasks[t].state.Succeeded?
  }

  // Nothing of a's task is outstanding but the units a holds.
  ghost predicate HoldsLastUnits(status: map<GoodsKey, StatusRow>, a: Allocation) {
    forall k | k in status && k.task == a.task ::
      status[k].pending == 0 && status[k].inProgress == (if k == KeyOf(a) then a.quantity else 0)
  }

  // The report completes the last units of a task it does not name.
  ghost predicate FinishesElsewhere(db: Db, e: AmrEvent) {
    && e.eventType.CarryCompleted? && e.request != "" && HasOpen(db.allocs, e.request, e.robot)
    && var a := db.allocs[FindOpen(db.allocs, e.request, e.robot)];
       a.task != e.task && HoldsLastUnits(db.status, a)
  }

  lemma SettleFinishes(db: Db, request: string, robot: string, state: AllocState, task: string)
    requires LedgerInv(db) && CanSettle(db, request, robot, state)
    ensures var a := db.allocs[FindOpen(db.allocs, request, robot)];
      var d := Settle(db, request, robot, state);
      && (task != a.task ==> (AllDone(d.status, task) <==> AllDone(db.status, task)))
      && (task == a.task ==> (AllDone(d.status, task) <==> state.Completed? && HoldsLastUnits(db.status, a)))
      && (task == a.task ==> !AllDone(db.status, task) && a.task in db.tasks)
  {
    var i := FindOpen(db.allocs, request, robot);
    AllocFacts(db, i);
    forall k | k in db.status ensures StatusCheck(db.status[k]) {
      RowFacts(db, k);
    }
    SettledIs(db, request, robot, state);
    hide LedgerInv, FindOpen, HasOpen, CanSettle, Settle;
    RowsFinish(db.status, db.allocs[i], state, task);
  }

  // Settling the units of one row, as rows of the task see it.
  lemma RowsFinish(status: map<GoodsKey, StatusRow>, a: Allocation, state: AllocState, task: string)
    requires KeyOf(a) in status && a.quantity > 0 && status[KeyOf(a)].inProgress >= a.quantity
    requires (state.Completed? || state.Aborted?) && forall k | k in status :: StatusCheck(status[k])
    ensures var after := status[KeyOf(a) := SettledRow(status[KeyOf(a)], a.quantity, state)];
      && (task != a.task ==> (AllDone(after, task) <==> AllDone(status, task)))
      && (task == a.task ==> (AllDone(after, task) <==> state.Completed? && HoldsLastUnits(status, a)))
      && (task == a.task ==> !AllDone(status, task))
  {
    var after := status[KeyOf(a) := SettledRow(status[KeyOf(a)], a.quantity, state)];
    assert after.Keys == status.Keys && KeyOf(a) in after;
    assert forall k | k in status && k != KeyOf(a) :: after[k] == status[k];
    if task != a.task {
      assert forall k | k in status && k.task == task :: after[k] == status[k];
    }
  }

  /** A carry report keeps "all done means SUCCEEDED" exactly when it does not
      complete the last units of a task other than the one it names. */
  lemma ReportKeepsDoneExactly(db: Db, e: AmrEvent)
    requires Safe(db) && DoneSucceeded(db)
    ensures DoneSucceeded(Report(db, e)) <==> !FinishesElsewhere(db, e)
  {
    var d := RecordReport(db, e);
    hide Safe, AllDone;
    CallKeepsSafe(db, CallRecord(e));
    SafeParts(d);
    SettleNeverRollsBack(d, e.request, e.robot, Outcome(e));
    hide LedgerInv, CanSettle;
    if CanCarry(d, e) {
      CarryKeepsDoneExactly(d, e);
    } else {
      NoCarryKeepsDone(d, e);
    }
  }

  lemma NoCarryKeepsDone(db: Db, e: AmrEvent)
    requires DoneSucceeded(db) && !CanCarry(db, e)
    ensures DoneSucceeded(React(db, e))
  {
    var f := React(db, e);
    hide AllDone;
    forall t | t in f.tasks && AllDone(f.status, t) ensures f.tasks[t].state.Succeeded? {
      assert AllDone(db.status, t);
    }
  }

  lemma SafeParts(db: Db)
    requires Safe(db)
    ensures LedgerInv(db) && AllocsAssigned(db) && SucceededSound(db)
  {
  }

  lemma SettleFinishesOnly(db: Db, request: string, robot: string, state: AllocState)
    requires LedgerInv(db) && CanSettle(db, request, robot, state)
    ensures var a := db.allocs[FindOpen(db.allocs, request, robot)];
      var s := Settle(db, request, robot, state);
      && s.tasks == db.tasks && a.task in db.tasks && !AllDone(db.status, a.task)
      && (AllDone(s.status, a.task) <==> state.Completed? && HoldsLastUnits(db.status, a))
      && (forall t | t != a.task :: AllDone(s.status, t) <==> AllDone(db.status, t))
  {
    hide LedgerInv, AllDone, HoldsLastUnits, StatusCheck;
    var a := db.allocs[FindOpen(db.allocs, request, robot)];
    SettleFinishes(db, request, robot, state, a.task);
    forall t | t != a.task
      ensures AllDone(Settle(db, request, robot, state).status, t) <==> AllDone(db.status, t)
    {
      SettleFinishes(db, request, robot, state, t);
    }
  }

  // Only `last` may have become done; writing SUCCEEDED for `task` answers it
  // when they are the same task.
  lemma FinishAnswers(db: Db, s: Db, task: string, last: string, completed: bool)
    requires DoneSucceeded(db) && SucceededSound(db)
    requires s.tasks == db.tasks && last in db.tasks && !AllDone(db.status, last)
    requires forall t | t != last :: AllDone(s.status, t) <==> AllDone(db.status, t)
    ensures var f := if completed then Finish(s, task) else s;
      DoneSucceeded(f) <==> (AllDone(s.status, last) ==> completed && task == last)
  {
    var f := if completed then Finish(s, task) else s;
    hide AllDone;
    if AllDone(s.status, last) && !(completed && task == last) {
      assert AllDone(f.status, last) && f.tasks[last] == db.tasks[last];
    }
  }

  lemma CarryKeepsDoneExactly(db: Db, e: AmrEvent)
    requires LedgerInv(db) && DoneSucceeded(db) && SucceededSound(db) && CanCarry(db, e)
    ensures var s := Settle(db, e.request, e.robot, Outcome(e));
      DoneSucceeded(if e.eventType.CarryCompleted? then Finish(s, e.task) else s) <==> !FinishesElsewhere(db, e)
  {
    hide LedgerInv, AllDone, HoldsLastUnits, StatusCheck, DoneSucceeded, SucceededSound, Finish, Settle;
    var a := db.allocs[FindOpen(db.allocs, e.request, e.robot)];
    SettleFinishesOnly(db, e.request, e.robot, Outcome(e));
    FinishAnswers(db, Settle(db, e.request, e.robot, Outcome(e)), e.task, a.task, e.eventType.CarryCompleted?);
  }

  // A carry report names the task its allocation belongs to.
  ghost predicate NamesOwnTask(db: Db, s: Step) {
    s.StepReport? && IsCarry(s.e) && HasOpen(db.allocs, s.e.request, s.e.robot) ==>
      db.allocs[FindOpen(db.allocs, s.e.request, s.e.robot)].task == s.e.task
  }

  ghost predicate AllNameOwnTask(db: Db, steps: seq<Step>)
    decreases |steps|
  {
    steps == [] || (NamesOwnTask(db, steps[0]) && AllNameOwnTask(Do(db, steps[0]), steps[1..]))
  }

  lemma ApproveNeverFinishes(db: Db, request: string, key: GoodsKey, robot: string, quantity: int, t: string)
    requires LedgerInv(db) && AllDone(Approve(db, request, key, robot, quantity).status, t)
    ensures AllDone(db.status, t)
  {
    if CanApprove(db, request, key, robot, quantity) {
      var d := Approve(db, request, key, robot, quantity);
      RowFacts(db, key);
      assert d.status[key].inProgress > 0;
      var k :| k in d.status && k.task == t;
      assert k in db.status;
      assert forall k | k in db.status && k.task == t :: d.status[k] == db.status[k];
    }
  }

  lemma {:induction false} ApproveGoodsNeverFinishes(
    db: Db, request: string, task: string, robot: string, goods: seq<TaskGoods>, t: string)
    requires LedgerInv(db) && AllDone(ApproveGoods(db, request, task, robot, goods).0.status, t)
    ensures AllDone(db.status, t)
    decreases |goods|
  {
    hide LedgerInv, AllDone;
    if goods != [] {
      var key := GoodsKey(task, goods[0].goodsId);
      if CanApprove(db, request, key, robot, goods[0].quantity) {
        ApproveKeepsLedger(db, request, key, robot, goods[0].quantity);
        ApproveGoodsNeverFinishes(
          Approve(db, request, key, robot, goods[0].quantity), request, task, robot, goods[1..], t);
        ApproveNeverFinishes(db, request, key, robot, goods[0].quantity, t);
      }
    }
  }

  lemma ApplyKeepsDone(db: Db, req: ApplyRequest)
    requires Safe(db) && DoneSucceeded(db)
    ensures DoneSucceeded(Apply(db, req).0)
  {
    hide Safe;
    SafeParts(db);
    ApplyKeeps(db, req);
    if ApplyRefusal(db, req).None? {
      var d := ApproveGoods(db, req.request, req.task, req.robot, req.goods).0;
      ApproveGoodsKeeps(db, req.request, req.task, req.robot, req.goods);
      var f := Apply(db, req).0;
      hide LedgerInv, AllDone;
      forall t | t in f.tasks && AllDone(f.status, t) ensures f.tasks[t].state.Succeeded? {
        ApproveGoodsNeverFinishes(db, req.request, req.task, req.robot, req.goods, t);
      }
    }
  }

  lemma CreateNeverFinishes(db: Db, t: TransportTask, task: string)
    requires LedgerInv(db) && CanCreate(db, t) && t.goods != [] && ValidGoods(t.goods)
    requires AllDone(CreateTask(db, t).status, task)
    ensures task != t.taskId && AllDone(db.status, task)
  {
    var after := CreateTask(db, t).status;
    CreateOpensLedger(db, t);
    assert after[GoodsKey(t.taskId, t.goods[0].goodsId)].pending > 0;
    assert forall k | k in db.status :: k in after && k.task != t.taskId && after[k] == db.status[k];
    assert forall k | k in after && k.task != t.taskId :: k in db.status;
    hide LedgerInv, Tables.CreateTask, CanCreate;
  }

  lemma CreateKeepsDoneSucceeded(db: Db, t: TransportTask, warehouse: string)
    requires Safe(db) && DoneSucceeded(db)
    ensures DoneSucceeded(Create(db, t, warehouse))
  {
    SafeParts(db);
    var p := Prepared(t, warehouse);
    hide Safe, LedgerInv, AllDone;
    if CreateCode(db, t) == 0 && CanCreate(db, p) {
      var d := CreateTask(db, p);
      forall u | u in d.tasks && AllDone(d.status, u) ensures d.tasks[u].state.Succeeded? {
        CreateNeverFinishes(db, p, u);
      }
    }
  }

  lemma {:induction false} HeartbeatKeepsStatus(db: Db, order: seq<string>, healthy: set<string>)
    ensures Heartbeat(db, order, healthy).status == db.status
    ensures Heartbeat(db, order, healthy).allocs == db.allocs
    ensures Heartbeat(db, order, healthy).goods == db.goods && Heartbeat(db, order, healthy).reports == db.reports
    ensures Heartbeat(db, order, healthy).tasks.Keys == db.tasks.Keys
    decreases |order|
  {
    if order != [] {
      HeartbeatKeepsStatus(if ShouldInterrupt(db, order[0], healthy) then Interrupt(db, order[0]) else db,
                           order[1..], healthy);
    }
  }

  lemma StepKeepsDone(db: Db, s: Step)
    requires Safe(db) && DoneSucceeded(db) && NamesOwnTask(db, s)
    ensures DoneSucceeded(Do(db, s))
  {
    hide Safe;
    match s
    case StepCreate(t, warehouse) => CreateKeepsDoneSucceeded(db, t, warehouse);
    case StepApply(req) => ApplyKeepsDone(db, req);
    case StepReport(e) => ReportKeepsDoneExactly(db, e);
    case StepCancel(task) =>
      StepKeeps(db, s);
    case StepHeartbeat(order, healthy) =>
      HeartbeatKeepsStatus(db, order, healthy);
      HeartbeatKeeps(db, order, healthy);
  }

  lemma {:induction false} RunKeepsDone(db: Db, steps: seq<Step>)
    requires Safe(db) && DoneSucceeded(db) && AllNameOwnTask(db, steps)
    ensures Safe(DoAll(db, steps)) && DoneSucceeded(DoAll(db, steps))
    decreases |steps|
  {
    if steps != [] {
      StepKeeps(db, steps[0]);
      StepKeepsDone(db, steps[0]);
      RunKeepsDone(Do(db, steps[0]), steps[1..]);
    }
  }

  /** In every run of operations whose carry reports name their allocation's own
      task, a task is SUCCEEDED exactly when all its units are completed. */
  lemma SucceededExactlyWhenCompleted(steps: seq<Step>, task: string)
    requires AllNameOwnTask(EMPTY, steps) && task in DoAll(EMPTY, steps).tasks
    ensures DoAll(EMPTY, steps).tasks[task].state.Succeeded? <==> EveryUnitCompleted(DoAll(EMPTY, steps), task)
  {
    RunKeepsDone(EMPTY, steps);
    DoneMeansCompleted(DoAll(EMPTY, steps), task);
  }

  // ---- When a terminal state is left ---------------------------------------

  predicate Terminal(state: TaskState) {
    state.Succeeded? || state.Failed? || state.Cancelled? || state.Interrupted?
  }

  // The report is a completion that leaves the task it names with nothing
  // outstanding: it settles the task's last units, or none were left.
  ghost predicate FinishesNamed(db: Db, e: AmrEvent) {
    && e.eventType.CarryCompleted? && e.request != "" && HasOpen(db.allocs, e.request, e.robot)
    && var a := db.allocs[FindOpen(db.allocs, e.request, e.robot)];
       if a.task == e.task then HoldsLastUnits(db.status, a) else AllDone(db.status, e.task)
  }

  lemma {:induction false} HeartbeatLeavesInactive(db: Db, order: seq<string>, healthy: set<string>, task: string)
    requires task in db.tasks && !IsActive(db.tasks[task])
    ensures var d := Heartbeat(db, order, healthy); task in d.tasks && d.tasks[task] == db.tasks[task]
    decreases |order|
  {
    if order != [] {
      HeartbeatLeavesInactive(if ShouldInterrupt(db, order[0], healthy) then Interrupt(db, order[0]) else db,
                              order[1..], healthy, task);
    }
  }

  lemma {:induction false} ApproveGoodsKeepsTasks(
    db: Db, request: string, task: string, robot: string, goods: seq<TaskGoods>)
    ensures ApproveGoods(db, request, task, robot, goods).0.tasks == db.tasks
    decreases |goods|
  {
    hide CanApprove;
    if goods != [] {
      var key := GoodsKey(task, goods[0].goodsId);
      ApproveGoodsKeepsTasks(Approve(db, request, key, robot, goods[0].quantity), request, task, robot, goods[1..]);
    }
  }

  lemma ReportWritesExactly(db: Db, e: AmrEvent, task: string)
    requires LedgerInv(db) && task in db.tasks && Terminal(db.tasks[task].state)
    ensures var d := Report(db, e);
      && task in d.tasks
      && d.tasks[task].state
         == if e.task == task && FinishesNamed(db, e) then Succeeded else db.tasks[task].state
  {
    hide LedgerInv, AllDone, StatusCheck, HoldsLastUnits, RecordReport, CanSettle;
    RecordOnly(db, e);
    var d := RecordReport(db, e);
    SettleNeverRollsBack(d, e.request, e.robot, Outcome(e));
    if CanCarry(d, e) {
      SettleFinishesOnly(d, e.request, e.robot, Outcome(e));
    }
  }

  /** A terminal state is not final: exactly a completion that leaves the named
      task with nothing outstanding turns CANCELLED, INTERRUPTED or FAILED into
      SUCCEEDED. Nothing else an operation does changes a terminal state. */
  lemma TerminalIsLeftExactly(db: Db, s: Step, task: string)
    requires Safe(db) && task in db.tasks && Terminal(db.tasks[task].state)
    ensures var d := Do(db, s);
      && task in d.tasks
      && d.tasks[task].state
         == if s.StepReport? && s.e.task == task && FinishesNamed(db, s.e) then Succeeded else db.tasks[task].state
  {
    hide Safe, LedgerInv, Report, Heartbeat, ApproveGoods, FinishesNamed;
    match s
    case StepCreate(t, warehouse) =>
    case StepCancel(_) =>
    case StepApply(req) => ApproveGoodsKeepsTasks(db, req.request, req.task, req.robot, req.goods);
    case StepReport(e) =>
      SafeParts(db);
      ReportWritesExactly(db, e, task);
    case StepHeartbeat(order, healthy) => HeartbeatLeavesInactive(db, order, healthy, task);
  }
}
