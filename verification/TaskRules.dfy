/** What each TaskService operation does to the database when it runs without
    interference, and the invariant that every database call TaskService issues
    keeps, however the calls of different threads interleave. */
module TaskRules {
  import opened Tables
  import opened Ledger

  const CANCELLED_BY_API := "canceled by API"

  datatype ApplyRequest = ApplyRequest(request: string, task: string, robot: string, goods: seq<TaskGoods>)
  datatype ApplyResult = ApplyResult(accepted: bool, reason: string, goods: seq<TaskGoods>)

  // ---- Operations -----------------------------------------------------------

  predicate ValidGoods(goods: seq<TaskGoods>) {
    forall i | 0 <= i < |goods| :: goods[i].goodsId != "" && goods[i].quantity > 0
  }

  predicate WellFormed(t: TransportTask) {
    t.taskId != "" && TypeCheck(t.taskType) && t.robotIds != [] && t.goods != [] && ValidGoods(t.goods)
  }

  function Prepared(t: TransportTask, warehouse: string): TransportTask {
    t.(warehouseId := warehouse, state := Pending)
  }

  function CreateCode(db: Db, t: TransportTask): int {
    if t.taskId == "" then 40001
    else if !TypeCheck(t.taskType) then 40002
    else if t.robotIds == [] then 41003
    else if t.goods == [] then 40002
    else if !ValidGoods(t.goods) then 40002
    else if t.taskId in db.tasks then 41002
    else if !DistinctGoods(t.goods) then 50001
    else 0
  }

  function Create(db: Db, t: TransportTask, warehouse: string): Db {
    if CreateCode(db, t) != 0 then db else CreateTask(db, Prepared(t, warehouse))
  }

  function CancelCode(db: Db, task: string): int {
    if task !in db.tasks then 41005
    else if !IsActive(db.tasks[task]) && !db.tasks[task].state.OtherState? then 41006
    else 0
  }

  function Cancel(db: Db, task: string): Db {
    if CancelCode(db, task) != 0 then db else SetState(db, task, Cancelled, CANCELLED_BY_API)
  }

  // The loop over the requested goods: stops at the first refusal, keeping what
  // was approved before it.
  function ApproveGoods(db: Db, request: string, task: string, robot: string, goods: seq<TaskGoods>): (Db, bool)
    decreases |goods|
  {
    if goods == [] then (db, true)
    else
      var key := GoodsKey(task, goods[0].goodsId);
      if !CanApprove(db, request, key, robot, goods[0].quantity) then (db, false)
      else ApproveGoods(Approve(db, request, key, robot, goods[0].quantity), request, task, robot, goods[1..])
  }

  function ApplyRefusal(db: Db, req: ApplyRequest): Option<string> {
    if req.task == "" || req.robot == "" || req.goods == [] then Some("invalid request")
    else if !ValidGoods(req.goods) then Some("invalid goods")
    else if req.task !in db.tasks then Some("task not found")
    else if req.robot !in db.tasks[req.task].robotIds then Some("robot not in task")
    else None
  }

  function Apply(db: Db, req: ApplyRequest): (Db, ApplyResult) {
    match ApplyRefusal(db, req)
    case Some(reason) => (db, ApplyResult(false, reason, []))
    case None =>
      var (d, all) := ApproveGoods(db, req.request, req.task, req.robot, req.goods);
      if !all then (d, ApplyResult(false, "approve failed", []))
      else
        var state := db.tasks[req.task].state;
        (if state.Pending? || state.Accepted?
         then SetStateLogged(d, req.task, Running, "first goods approved", "EDGE") else d,
         ApplyResult(true, "", req.goods))
  }

  predicate IsCarry(e: AmrEvent) { e.eventType.CarryCompleted? || e.eventType.CarryAborted? }

  function Outcome(e: AmrEvent): AllocState { if e.eventType.CarryCompleted? then Completed else Aborted }

  // The task has goods, and none of them is pending or in progress.
  ghost predicate AllDone(status: map<GoodsKey, StatusRow>, task: string) {
    && (exists k :: k in status && k.task == task)
    && (forall k | k in status && k.task == task :: status[k].pending <= 0 && status[k].inProgress <= 0)
  }

  ghost function Finish(db: Db, task: string): Db {
    if task in db.tasks && AllDone(db.status, task)
    then SetStateLogged(db, task, Succeeded, "all goods completed", "AMR") else db
  }

  function AcceptTask(db: Db, task: string): Db {
    if task in db.tasks && db.tasks[task].state.Pending?
    then SetStateLogged(db, task, Accepted, "first AMR accepted", "AMR") else db
  }

  predicate CanCarry(db: Db, e: AmrEvent) {
    IsCarry(e) && e.request != "" && CanSettle(db, e.request, e.robot, Outcome(e))
  }

  // What follows the recording of a report.
  ghost function React(db: Db, e: AmrEvent): Db {
    if IsCarry(e) then
      if !CanCarry(db, e) then db
      else
        var s := Settle(db, e.request, e.robot, Outcome(e));
        if e.eventType.CarryCompleted? then Finish(s, e.task) else s
    else if e.eventType.Status? && e.taskState == "ACCEPTED" then AcceptTask(db, e.task)
    else db
  }

  ghost function Report(db: Db, e: AmrEvent): Db { React(RecordReport(db, e), e) }

  // `healthy` are the robots the registry knows and finds no fault with.
  predicate AllAbnormal(robotIds: seq<string>, healthy: set<string>) {
    robotIds != [] && forall i | 0 <= i < |robotIds| :: robotIds[i] !in healthy
  }

  predicate ShouldInterrupt(db: Db, task: string, healthy: set<string>) {
    task in db.tasks && IsActive(db.tasks[task]) && AllAbnormal(db.tasks[task].robotIds, healthy)
  }

  function Interrupt(db: Db, task: string): Db {
    SetStateLogged(db, task, Interrupted, "ALL_AMRS_ABNORMAL", "TIMEOUT")
  }

  function Heartbeat(db: Db, order: seq<string>, healthy: set<string>): Db
    decreases |order|
  {
    if order == [] then db
    else Heartbeat(if ShouldInterrupt(db, order[0], healthy) then Interrupt(db, order[0]) else db,
                   order[1..], healthy)
  }

  // ---- The safety invariant -------------------------------------------------

  ghost predicate SucceededSound(db: Db) {
    forall t | t in db.tasks && db.tasks[t].state.Succeeded? :: AllDone(db.status, t)
  }

  ghost predicate AllocsAssigned(db: Db) {
    forall i | 0 <= i < |db.allocs| ::
      db.allocs[i].task in db.tasks && db.allocs[i].robot in db.tasks[db.allocs[i].task].robotIds
  }

  function LastLogged(log: seq<TaskEvent>, task: string): Option<TaskState> {
    if log == [] then None
    else if log[|log| - 1].task == task then Some(log[|log| - 1].state)
    else LastLogged(log[..|log| - 1], task)
  }

  // The state of a task is the one last logged for it, or the API cancelled it.
  ghost predicate Explained(db: Db, task: string)
    requires task in db.tasks
  {
    || LastLogged(db.log, task) == Some(db.tasks[task].state)
    || (db.tasks[task].state.Cancelled? && db.tasks[task].reason == CANCELLED_BY_API)
  }

  ghost predicate LogExplains(db: Db) {
    forall t | t in db.tasks :: Explained(db, t)
  }

  ghost predicate TasksHaveGoods(db: Db) {
    && (forall t | t in db.tasks :: exists k :: k in db.status && k.task == t)
    && (forall k | k in db.status :: db.status[k].total > 0)
  }

  ghost predicate Safe(db: Db) {
    LedgerInv(db) && SucceededSound(db) && AllocsAssigned(db) && LogExplains(db) && TasksHaveGoods(db)
  }

  // What TaskService guarantees about the arguments of a call when it makes it.
  ghost predicate Issued(db: Db, c: Call) {
    match c
    case CallCreate(t) => t.state.Pending? && t.goods != [] && ValidGoods(t.goods)
    case CallApprove(_, key, robot, _) => key.task in db.tasks && robot in db.tasks[key.task].robotIds
    case CallSettle(_, _, _) => true
    case CallSetState(_, state, reason) => state.Cancelled? && reason == CANCELLED_BY_API
    case CallSetStateLogged(task, state, _, _) => state.Succeeded? ==> AllDone(db.status, task)
    case CallRecord(_) => true
  }

  // Facts about a task that no call takes back.
  ghost predicate Grows(a: Db, b: Db) {
    && (forall t | t in a.tasks :: t in b.tasks && b.tasks[t].robotIds == a.tasks[t].robotIds)
    && (forall t | AllDone(a.status, t) :: AllDone(b.status, t))
  }

  lemma SettleKeepsDone(db: Db, request: string, robot: string, state: AllocState, task: string)
    requires LedgerInv(db) && AllDone(db.status, task)
    ensures AllDone(Settle(db, request, robot, state).status, task)
  {
    if CanSettle(db, request, robot, state) {
      var i := FindOpen(db.allocs, request, robot);
      assert Balanced(db, KeyOf(db.allocs[i]));
      HeldCovers(db.allocs, i);
      var k :| k in db.status && k.task == task;
      assert k in Settle(db, request, robot, state).status;
    }
  }

  lemma CreateKeepsDone(db: Db, t: TransportTask, task: string)
    requires LedgerInv(db) && AllDone(db.status, task)
    ensures AllDone(CreateTask(db, t).status, task)
  {
    if CanCreate(db, t) {
      var k :| k in db.status && k.task == task;
      CreateOpensLedger(db, t);
      assert k in CreateTask(db, t).status;
    }
  }

  lemma ApproveKeepsDone(db: Db, request: string, key: GoodsKey, robot: string, quantity: int, task: string)
    requires AllDone(db.status, task)
    ensures AllDone(Approve(db, request, key, robot, quantity).status, task)
  {
    var k :| k in db.status && k.task == task;
    assert k in Approve(db, request, key, robot, quantity).status;
  }

  lemma CallKeepsRobots(db: Db, c: Call)
    ensures forall t | t in db.tasks ::
      t in Exec(db, c).tasks && Exec(db, c).tasks[t].robotIds == db.tasks[t].robotIds
  {
  }

  /** "Nothing pending, nothing in progress" is stable under every call, and so
      are a task's existence and its robots. */
  lemma CallGrows(db: Db, c: Call)
    requires LedgerInv(db)
    ensures Grows(db, Exec(db, c))
  {
    CallKeepsRobots(db, c);
    hide LedgerInv;
    forall t | AllDone(db.status, t) ensures AllDone(Exec(db, c).status, t) {
      match c
      case CallCreate(n) => CreateKeepsDone(db, n, t);
      case CallApprove(request, key, robot, quantity) => ApproveKeepsDone(db, request, key, robot, quantity, t);
      case CallSettle(request, robot, outcome) => SettleKeepsDone(db, request, robot, outcome, t);
      case _ =>
        var k :| k in db.status && k.task == t;
        assert k in Exec(db, c).status;
    }
  }

  lemma CallKeepsSucceeded(db: Db, c: Call)
    requires SucceededSound(db) && Issued(db, c) && Grows(db, Exec(db, c))
    ensures SucceededSound(Exec(db, c))
  {
    var d := Exec(db, c);
    forall t | t in d.tasks && d.tasks[t].state.Succeeded? ensures AllDone(d.status, t) {
      match c
      case CallSetStateLogged(task, _, _, _) => assert t == task || t in db.tasks; assert AllDone(db.status, t);
      case _ => assert AllDone(db.status, t);
    }
  }

  lemma CallKeepsAssigned(db: Db, c: Call)
    requires AllocsAssigned(db) && Issued(db, c) && Grows(db, Exec(db, c))
    ensures AllocsAssigned(Exec(db, c))
  {
    var d := Exec(db, c);
    forall i | 0 <= i < |d.allocs|
      ensures d.allocs[i].task in d.tasks && d.allocs[i].robot in d.tasks[d.allocs[i].task].robotIds
    {
      if i < |db.allocs| {
        assert d.allocs[i].task == db.allocs[i].task && d.allocs[i].robot == db.allocs[i].robot;
      }
    }
  }

  lemma CallKeepsLog(db: Db, c: Call)
    requires LogExplains(db) && Issued(db, c)
    ensures LogExplains(Exec(db, c))
  {
    var d := Exec(db, c);
    assert |d.log| > |db.log| ==> d.log[..|db.log|] == db.log;
    forall t | t in d.tasks ensures Explained(d, t) {
      assert t in db.tasks ==> Explained(db, t);
    }
  }

  lemma CallKeepsGoods(db: Db, c: Call)
    requires LedgerInv(db) && TasksHaveGoods(db)
    requires c.CallCreate? ==> c.t.goods != [] && ValidGoods(c.t.goods)
    ensures TasksHaveGoods(Exec(db, c))
  {
    if c.CallCreate? && CanCreate(db, c.t) {
      CreateKeepsGoods(db, c.t);
    } else {
      CallKeepsKeys(db, c);
      var d := Exec(db, c);
      forall t | t in d.tasks ensures exists k :: k in d.status && k.task == t {
        var k :| k in db.status && k.task == t;
        assert k in d.status;
      }
    }
  }

  lemma CallKeepsKeys(db: Db, c: Call)
    requires !(c.CallCreate? && CanCreate(db, c.t))
    ensures var d := Exec(db, c);
      && d.tasks.Keys == db.tasks.Keys && d.status.Keys == db.status.Keys && d.goods == db.goods
      && forall k | k in db.status :: d.status[k].total == db.status[k].total
  {
  }

  lemma CreateKeepsGoods(db: Db, t: TransportTask)
    requires LedgerInv(db) && TasksHaveGoods(db) && CanCreate(db, t) && t.goods != [] && ValidGoods(t.goods)
    ensures TasksHaveGoods(CreateTask(db, t))
  {
    var d := CreateTask(db, t);
    hide LedgerInv, Tables.CreateTask, CanCreate, ValidGoods;
    forall u | u in d.tasks ensures exists k :: k in d.status && k.task == u {
      var k := CreatedRow(db, t, u);
    }
    forall k | k in d.status ensures d.status[k].total > 0 {
      CreatedTotal(db, t, k);
    }
  }

  lemma CreatedRow(db: Db, t: TransportTask, u: string) returns (k: GoodsKey)
    requires LedgerInv(db) && TasksHaveGoods(db) && CanCreate(db, t) && t.goods != []
    requires u in CreateTask(db, t).tasks
    ensures k in CreateTask(db, t).status && k.task == u
  {
    CreateOpensLedger(db, t);
    hide LedgerInv, Tables.CreateTask, CanCreate;
    if u == t.taskId {
      k := GoodsKey(u, t.goods[0].goodsId);
    } else {
      k :| k in db.status && k.task == u;
    }
  }

  lemma CreatedTotal(db: Db, t: TransportTask, k: GoodsKey)
    requires LedgerInv(db) && CanCreate(db, t) && ValidGoods(t.goods) && k in CreateTask(db, t).status
    ensures if k.task == t.taskId then CreateTask(db, t).status[k].total > 0
            else k in db.status && CreateTask(db, t).status[k] == db.status[k]
  {
    CreateOpensLedger(db, t);
    hide LedgerInv, Tables.CreateTask, CanCreate;
    if k.task == t.taskId {
      var i :| 0 <= i < |t.goods| && t.goods[i].goodsId == k.goods;
      assert k == GoodsKey(t.taskId, t.goods[i].goodsId);
    }
  }

  /** Every database call TaskService makes, at the moment it makes it, keeps the
      safety invariant. */
  lemma CallKeepsSafe(db: Db, c: Call)
    requires Safe(db) && Issued(db, c)
    ensures Safe(Exec(db, c)) && Grows(db, Exec(db, c))
  {
    CallKeepsLedger(db, c);
    CallGrows(db, c);
    CallKeepsSucceeded(db, c);
    CallKeepsAssigned(db, c);
    CallKeepsLog(db, c);
    CallKeepsGoods(db, c);
  }

  // Recording a report touches the report table only.
  lemma RecordOnly(db: Db, e: AmrEvent)
    ensures var d := RecordReport(db, e);
      && d.tasks == db.tasks && d.goods == db.goods && d.status == db.status && d.allocs == db.allocs && d.log == db.log
      && (LedgerInv(db) ==> LedgerInv(d))
  {
    if LedgerInv(db) {
      CallKeepsLedger(db, CallRecord(e));
    }
    hide LedgerInv;
  }
}
