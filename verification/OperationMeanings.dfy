/** What each service operation answers and does, spelled out over the request,
    the tables before and the tables after. */
module OperationMeanings {
  import opened Tables
  import opened Ledger
  import opened TaskRules
  import opened Allocations
  import opened CallMeanings

  predicate SoundGoods(goods: seq<TaskGoods>) {
    goods != [] && forall i | 0 <= i < |goods| :: goods[i].goodsId != "" && goods[i].quantity > 0
  }

  predicate SoundType(t: TaskType) { t == Load || t == Unload }

  // ---- Creating a task ------------------------------------------------------------

  ghost predicate CreationAnswers(db: Db, t: TransportTask, code: int) {
    var sound := t.taskId != "" && SoundType(t.taskType) && t.robotIds != [] && SoundGoods(t.goods);
    var twice := exists i, j :: 0 <= i < j < |t.goods| && t.goods[i].goodsId == t.goods[j].goodsId;
    && code in {0, 40001, 40002, 41002, 41003, 50001}
    && (code == 40001 <==> t.taskId == "")
    && (code == 40002
        <==> t.taskId != "" && (!SoundType(t.taskType) || (t.robotIds != [] && !SoundGoods(t.goods))))
    && (code == 41003 <==> t.taskId != "" && SoundType(t.taskType) && t.robotIds == [])
    && (code == 41002 <==> sound && t.taskId in db.tasks)
    && (code == 50001 <==> sound && t.taskId !in db.tasks && twice)
    && (code == 0 <==> sound && t.taskId !in db.tasks && !twice)
  }

  ghost predicate CreationStores(db: Db, t: TransportTask, warehouse: string, code: int, d: Db) {
    if code != 0 then d == db
    else
      && d.tasks == db.tasks[t.taskId := TaskRow(warehouse, t.taskType, Pending, t.robotIds, t.goal, t.reason)]
      && (forall i | 0 <= i < |t.goods| :: var k := GoodsKey(t.taskId, t.goods[i].goodsId);
            && k in d.goods && d.goods[k] == GoodsRow(t.goods[i].name, t.goods[i].quantity)
            && k in d.status && d.status[k] == StatusRow(t.goods[i].quantity, 0, 0, t.goods[i].quantity))
      && (forall k | k in d.status && k.task == t.taskId ::
            exists i :: 0 <= i < |t.goods| && t.goods[i].goodsId == k.goods)
      && (forall k: GoodsKey | k.task != t.taskId ::
            && (k in d.status <==> k in db.status)
            && (k in db.status ==>
                  k in db.goods && k in d.goods && d.status[k] == db.status[k] && d.goods[k] == db.goods[k]))
      && d.allocs == db.allocs && d.reports == db.reports
      && d.log == db.log + [TaskEvent(t.taskId, Pending, t.reason, "HTTP")]
  }

  lemma CreationMeans(db: Db, t: TransportTask, warehouse: string)
    requires LedgerInv(db)
    ensures CreationAnswers(db, t, CreateCode(db, t))
    ensures CreationStores(db, t, warehouse, CreateCode(db, t), Create(db, t, warehouse))
  {
    CodeMeans(db, t);
    if CreateCode(db, t) == 0 {
      CreateMeans(db, Prepared(t, warehouse));
      hide LedgerInv, CreateCode, CanCreate, Tables.CreateTask, SoundGoods;
    }
  }

  lemma CodeMeans(db: Db, t: TransportTask)
    ensures CreationAnswers(db, t, CreateCode(db, t))
    ensures CreateCode(db, t) == 0 ==> SoundGoods(t.goods)
  {
    assert SoundGoods(t.goods) <==> t.goods != [] && ValidGoods(t.goods);
    if !DistinctGoods(t.goods) {
      var i, j :| 0 <= i < j < |t.goods| && t.goods[i].goodsId == t.goods[j].goodsId;
    }
    hide SoundGoods, ValidGoods;
  }

  // ---- Cancelling a task -------------------------------------------------------------

  ghost predicate CancellationMeans(db: Db, task: string, code: int, d: Db) {
    && (code == 41005 <==> task !in db.tasks)
    && (code == 41006 <==> task in db.tasks && db.tasks[task].state in {Succeeded, Failed, Cancelled, Interrupted})
    && (code == 0 <==> task in db.tasks && db.tasks[task].state !in {Succeeded, Failed, Cancelled, Interrupted})
    && (code != 0 ==> code in {41005, 41006} && d == db)
    && (code == 0 ==>
          var r := db.tasks[task];
          && d.tasks == db.tasks[task :=
               TaskRow(r.warehouseId, r.taskType, Cancelled, r.robotIds, r.goal, "canceled by API")]
          && d.goods == db.goods && d.status == db.status && d.allocs == db.allocs
          && d.log == db.log && d.reports == db.reports)
  }

  lemma CancelMeans(db: Db, task: string)
    ensures CancellationMeans(db, task, CancelCode(db, task), Cancel(db, task))
  {
    StateMeans(db, task, Cancelled, "canceled by API");
  }

  // ---- Applying for goods ---------------------------------------------------------------

  predicate Invalid(req: ApplyRequest) { req.task == "" || req.robot == "" || req.goods == [] }

  predicate AdmitsTask(db: Db, req: ApplyRequest) {
    !Invalid(req) && SoundGoods(req.goods) && req.task in db.tasks && req.robot in db.tasks[req.task].robotIds
  }

  // What the request's first item asks for is there, and the request is new.
  predicate FirstIsFree(db: Db, req: ApplyRequest)
    requires req.goods != []
  {
    var key := GoodsKey(req.task, req.goods[0].goodsId);
    && key in db.status && req.goods[0].quantity <= db.status[key].pending
    && forall i | 0 <= i < |db.allocs| :: !(db.allocs[i].request == req.request && db.allocs[i].robot == req.robot)
  }

  ghost predicate ApplicationAnswers(db: Db, req: ApplyRequest, r: ApplyResult) {
    && (r.accepted <==> AdmitsTask(db, req) && |req.goods| == 1 && FirstIsFree(db, req))
    && (r.accepted ==> r.goods == req.goods && r.reason == "")
    && (!r.accepted ==> r.goods == [])
    && (r.reason == "invalid request" <==> Invalid(req))
    && (r.reason == "invalid goods" <==> !Invalid(req) && !SoundGoods(req.goods))
    && (r.reason == "task not found" <==> !Invalid(req) && SoundGoods(req.goods) && req.task !in db.tasks)
    && (r.reason == "robot not in task" <==> !Invalid(req) && SoundGoods(req.goods) && req.task in db.tasks
                                             && req.robot !in db.tasks[req.task].robotIds)
    && (r.reason == "approve failed" <==> AdmitsTask(db, req) && !(|req.goods| == 1 && FirstIsFree(db, req)))
  }

  ghost predicate ApplicationStores(db: Db, req: ApplyRequest, accepted: bool, d: Db) {
    && d.goods == db.goods && d.reports == db.reports
    && (if AdmitsTask(db, req) && FirstIsFree(db, req) then
          var item := req.goods[0];
          var key := GoodsKey(req.task, item.goodsId);
          var row := db.status[key];
          && d.allocs == db.allocs
             + [Allocation(req.request, req.task, item.goodsId, req.robot, item.quantity, InProgress)]
          && d.status == db.status[key :=
               StatusRow(row.total, row.inProgress + item.quantity, row.completed, row.pending - item.quantity)]
        else d.allocs == db.allocs && d.status == db.status)
    && (if accepted && req.task in db.tasks && db.tasks[req.task].state in {Pending, Accepted} then
          var r := db.tasks[req.task];
          && d.tasks == db.tasks[req.task :=
               TaskRow(r.warehouseId, r.taskType, Running, r.robotIds, r.goal, "first goods approved")]
          && d.log == db.log + [TaskEvent(req.task, Running, "first goods approved", "EDGE")]
        else d.tasks == db.tasks && d.log == db.log)
  }

  lemma {:induction false} ApprovingKeepsRest(
    db: Db, request: string, task: string, robot: string, goods: seq<TaskGoods>)
    ensures var d := ApproveGoods(db, request, task, robot, goods).0;
      d.tasks == db.tasks && d.log == db.log && d.goods == db.goods && d.reports == db.reports
    decreases |goods|
  {
    hide CanApprove;
    if goods != [] {
      var key := GoodsKey(task, goods[0].goodsId);
      ApprovingKeepsRest(Approve(db, request, key, robot, goods[0].quantity), request, task, robot, goods[1..]);
    }
  }

  lemma RefusalMeans(db: Db, req: ApplyRequest)
    ensures ApplyRefusal(db, req)
         == if Invalid(req) then Some("invalid request")
            else if !SoundGoods(req.goods) then Some("invalid goods")
            else if req.task !in db.tasks then Some("task not found")
            else if req.robot !in db.tasks[req.task].robotIds then Some("robot not in task")
            else None
  {
    assert req.goods != [] ==> (SoundGoods(req.goods) <==> ValidGoods(req.goods));
    hide SoundGoods, ValidGoods;
  }

  lemma ApplicationMeans(db: Db, req: ApplyRequest)
    ensures var (d, r) := Apply(db, req);
      ApplicationAnswers(db, req, r) && ApplicationStores(db, req, r.accepted, d)
  {
    RefusalMeans(db, req);
    hide ApplyRefusal;
    if AdmitsTask(db, req) {
      var key := GoodsKey(req.task, req.goods[0].goodsId);
      ApproveMeans(db, req.request, key, req.robot, req.goods[0].quantity);
      assert req.goods[0].quantity > 0;
      ApproveGoodsExactly(db, req.request, req.task, req.robot, req.goods);
      ApprovingKeepsRest(db, req.request, req.task, req.robot, req.goods);
      var d := ApproveGoods(db, req.request, req.task, req.robot, req.goods).0;
      LoggedStateMeans(d, req.task, Running, "first goods approved", "EDGE");
      assert CanApprove(db, req.request, key, req.robot, req.goods[0].quantity) <==> FirstIsFree(db, req);
      hide ApproveGoods, Approve, CanApprove, SetStateLogged, FirstIsFree, SoundGoods;
    } else {
      hide SoundGoods, FirstIsFree;
    }
  }

  // ---- Reporting ----------------------------------------------------------------------------

  predicate Carries(e: AmrEvent) { e.eventType == CarryCompleted || e.eventType == CarryAborted }

  ghost predicate FindsOpen(db: Db, e: AmrEvent) {
    e.request != "" && exists i: nat :: OpenAt(db.allocs, i, e.request, e.robot)
  }

  ghost predicate NothingLeft(status: map<GoodsKey, StatusRow>, task: string) {
    && (exists k :: k in status && k.task == task)
    && forall k | k in status && k.task == task :: status[k].pending <= 0 && status[k].inProgress <= 0
  }

  ghost predicate ReportRecords(db: Db, e: AmrEvent, d: Db) {
    var key := ReportKey(e.messageId, e.task, e.robot, e.eventType);
    d.reports == if key in db.reports || !(e.eventType == Status || Carries(e))
                 then db.reports else db.reports[key := e]
  }

  // A carry report settles the request's open allocation, any other settles none.
  ghost predicate ReportMoves(db: Db, e: AmrEvent, d: Db) {
    && d.goods == db.goods
    && (!(Carries(e) && FindsOpen(db, e)) ==> d.allocs == db.allocs && d.status == db.status)
    && forall i: nat | Carries(e) && e.request != "" && OpenAt(db.allocs, i, e.request, e.robot) ::
         var a, outcome := db.allocs[i], if e.eventType == CarryCompleted then Completed else Aborted;
         && GoodsKey(a.task, a.goods) in db.status
         && var row := db.status[GoodsKey(a.task, a.goods)];
         && d.allocs == db.allocs[i := Allocation(e.request, a.task, a.goods, e.robot, a.quantity, outcome)]
         && d.status == db.status[GoodsKey(a.task, a.goods) :=
              if outcome == Completed
              then StatusRow(row.total, row.inProgress - a.quantity, row.completed + a.quantity, row.pending)
              else StatusRow(row.total, row.inProgress - a.quantity, row.completed, row.pending + a.quantity)]
  }

  ghost predicate Writes(db: Db, d: Db, task: string, state: TaskState, reason: string, source: string) {
    && task in db.tasks
    && var r := db.tasks[task];
    && d.tasks == db.tasks[task := TaskRow(r.warehouseId, r.taskType, state, r.robotIds, r.goal, reason)]
    && d.log == db.log + [TaskEvent(task, state, reason, source)]
  }

  ghost predicate ReportWrites(db: Db, e: AmrEvent, d: Db) {
    if e.eventType == CarryCompleted && FindsOpen(db, e) && e.task in db.tasks && NothingLeft(d.status, e.task)
    then Writes(db, d, e.task, Succeeded, "all goods completed", "AMR")
    else if e.eventType == Status && e.taskState == "ACCEPTED"
            && e.task in db.tasks && db.tasks[e.task].state == Pending
    then Writes(db, d, e.task, Accepted, "first AMR accepted", "AMR")
    else d.tasks == db.tasks && d.log == db.log
  }

  lemma CarryingMeans(db: Db, e: AmrEvent)
    requires LedgerInv(db) && Carries(e)
    ensures CanCarry(RecordReport(db, e), e) <==> FindsOpen(db, e)
  {
    RecordOnly(db, e);
    SettleMeans(RecordReport(db, e), e.request, e.robot, Outcome(e));
    hide LedgerInv, CanSettle, Settle;
  }

  lemma ReportMeans(db: Db, e: AmrEvent)
    requires LedgerInv(db)
    ensures ReportRecords(db, e, Report(db, e))
    ensures ReportMoves(db, e, Report(db, e))
    ensures ReportWrites(db, e, Report(db, e))
  {
    hide LedgerInv, RecordReport, CanSettle, Settle, AllDone, SetStateLogged, NothingLeft;
    RecordOnly(db, e);
    RecordMeans(db, e);
    var r := RecordReport(db, e);
    if Carries(e) {
      CarryingMeans(db, e);
      SettleMeans(r, e.request, e.robot, Outcome(e));
      var s := Settle(r, e.request, e.robot, Outcome(e));
      DoneMeans(s.status, e.task);
      LoggedStateMeans(s, e.task, Succeeded, "all goods completed", "AMR");
      CarryKeepsRest(r, e.request, e.robot, Outcome(e));
    } else {
      LoggedStateMeans(r, e.task, Accepted, "first AMR accepted", "AMR");
    }
  }

  lemma CarryKeepsRest(db: Db, request: string, robot: string, state: AllocState)
    ensures var d := Settle(db, request, robot, state);
      d.tasks == db.tasks && d.goods == db.goods && d.log == db.log && d.reports == db.reports
  {
    hide CanSettle;
  }

  lemma FinishMeans(db: Db, task: string)
    ensures if task in db.tasks && NothingLeft(db.status, task)
            then Writes(db, Finish(db, task), task, Succeeded, "all goods completed", "AMR")
            else Finish(db, task) == db
  {
    DoneMeans(db.status, task);
    hide AllDone, NothingLeft;
  }

  lemma DoneMeans(status: map<GoodsKey, StatusRow>, task: string)
    ensures AllDone(status, task) <==> NothingLeft(status, task)
  {
  }
}
