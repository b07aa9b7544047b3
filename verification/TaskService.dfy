/** The Edge's task service, stepping the database object. Each method is tied
    to the operation of TaskRules it performs when no other thread intervenes,
    and says over its arguments and the tables what it answers and does.
    Publishing to MQTT is left out. */
module TaskServiceModule {
  import opened Tables
  import opened Ledger
  import opened TaskRules
  import opened SqliteDb
  import opened StateMessages
  import opened OperationMeanings

  class TaskService {
    const db: SQLiteDB
    const warehouse: string

    constructor (db: SQLiteDB, warehouse: string)
      ensures this.db == db && this.warehouse == warehouse
    {
      this.db := db;
      this.warehouse := warehouse;
    }

    method CreateTask(task: TransportTask) returns (ok: bool, code: int)
      requires db.Valid()
      modifies db
      ensures db.Valid()
      ensures code == CreateCode(old(db.State()), task) && ok == (code == 0)
      ensures db.State() == Create(old(db.State()), task, warehouse)
      ensures CreationAnswers(old(db.State()), task, code)
      ensures CreationStores(old(db.State()), task, warehouse, code, db.State())
    {
      hide SQLiteDB.Valid, CreationAnswers, CreationStores;
      CreationOfService(db, task, warehouse);
      if task.taskId == "" {
        return false, 40001;
      }
      if task.taskType != Load && task.taskType != Unload {
        return false, 40002;
      }
      if task.robotIds == [] {
        return false, 41003;
      }
      if task.goods == [] {
        return false, 40002;
      }
      for i := 0 to |task.goods|
        invariant forall j | 0 <= j < i :: task.goods[j].goodsId != "" && task.goods[j].quantity > 0
      {
        if task.goods[i].goodsId == "" || task.goods[i].quantity <= 0 {
          return false, 40002;
        }
      }
      var known := db.TaskExists(task.taskId);
      if known {
        return false, 41002;
      }
      var created := db.CreateTask(Prepared(task, warehouse));
      if !created {
        return false, 50001;
      }
      return true, 0;
    }

    method CancelTask(task: string) returns (ok: bool, code: int)
      requires db.Valid()
      modifies db
      ensures db.Valid()
      ensures code == CancelCode(old(db.State()), task) && ok == (code == 0)
      ensures db.State() == Cancel(old(db.State()), task)
      ensures CancellationMeans(old(db.State()), task, code, db.State())
    {
      CancelMeans(db.State(), task);
      var row := db.GetTask(task);
      if row.None? {
        return false, 41005;
      }
      var state := row.value.state;
      if state.Succeeded? || state.Failed? || state.Cancelled? || state.Interrupted? {
        return false, 41006;
      }
      var written := db.UpdateTaskState(task, Cancelled, CANCELLED_BY_API);
      return true, 0;
    }

    method HandleGoodsApply(req: ApplyRequest) returns (ok: bool, result: ApplyResult)
      requires db.Valid()
      modifies db
      ensures db.Valid()
      ensures (db.State(), result) == Apply(old(db.State()), req) && ok == result.accepted
      ensures ApplicationAnswers(old(db.State()), req, result)
      ensures ApplicationStores(old(db.State()), req, ok, db.State())
    {
      hide SQLiteDB.Valid, ApplicationAnswers, ApplicationStores;
      ApplicationMeans(db.State(), req);
      if req.task == "" || req.robot == "" || req.goods == [] {
        return false, ApplyResult(false, "invalid request", []);
      }
      for i := 0 to |req.goods|
        invariant forall j | 0 <= j < i :: req.goods[j].goodsId != "" && req.goods[j].quantity > 0
      {
        if req.goods[i].goodsId == "" || req.goods[i].quantity <= 0 {
          return false, ApplyResult(false, "invalid goods", []);
        }
      }
      var row := db.GetTask(req.task);
      if row.None? {
        return false, ApplyResult(false, "task not found", []);
      }
      if req.robot !in row.value.robotIds {
        return false, ApplyResult(false, "robot not in task", []);
      }
      var approved := ApproveEach(req);
      if !approved {
        return false, ApplyResult(false, "approve failed", []);
      }
      if row.value.state.Pending? || row.value.state.Accepted? {
        var written := db.UpdateTaskStateWithEvent(req.task, Running, "first goods approved", "EDGE");
      }
      return true, ApplyResult(true, "", req.goods);
    }

    // The loop that approves the requested goods one by one.
    method ApproveEach(req: ApplyRequest) returns (all: bool)
      requires db.Valid()
      modifies db
      ensures db.Valid()
      ensures (db.State(), all) == ApproveGoods(old(db.State()), req.request, req.task, req.robot, req.goods)
    {
      hide SQLiteDB.Valid, Approve, CanApprove;
      for i := 0 to |req.goods|
        invariant db.Valid()
        invariant ApproveGoods(old(db.State()), req.request, req.task, req.robot, req.goods)
               == ApproveGoods(db.State(), req.request, req.task, req.robot, req.goods[i..])
      {
        assert req.goods[i..][1..] == req.goods[i + 1..];
        var key := GoodsKey(req.task, req.goods[i].goodsId);
        RefusedUnchanged(db.State(), req.request, key, req.robot, req.goods[i].quantity);
        var ok := db.ApproveGoodsAllocation(req.request, key, req.robot, req.goods[i].quantity);
        if !ok {
          return false;
        }
      }
      return true;
    }

    method HandleAmrTaskStatus(e: AmrEvent) returns (ok: bool)
      requires db.Valid()
      modifies db
      ensures db.Valid()
      ensures db.State() == Report(old(db.State()), e)
      ensures ok <==> (Carries(e) ==> FindsOpen(old(db.State()), e))
      ensures ReportRecords(old(db.State()), e, db.State())
      ensures ReportMoves(old(db.State()), e, db.State())
      ensures ReportWrites(old(db.State()), e, db.State())
    {
      hide SQLiteDB.Valid, RecordReport, CanSettle, Settle, AllDone;
      hide FindsOpen, ReportRecords, ReportMoves, ReportWrites;
      ReportOfService(db, e);
      var recorded := db.InsertAmrTaskStatusEvent(e);
      if IsCarry(e) {
        if e.request == "" {
          return false;
        }
        var settled := db.SettleGoodsAllocation(e.request, e.robot, Outcome(e));
        if !settled {
          assert db.State() == RecordReport(old(db.State()), e) by {
            UnsettledUnchanged(RecordReport(old(db.State()), e), e.request, e.robot, Outcome(e));
          }
          return false;
        }
      }
      if e.eventType.Status? && e.taskState == "ACCEPTED" {
        var row := db.GetTask(e.task);
        if row.Some? && row.value.state.Pending? {
          var written := db.UpdateTaskStateWithEvent(e.task, Accepted, "first AMR accepted", "AMR");
        }
      }
      if e.eventType.CarryCompleted? {
        FinishIfDone(e.task);
      }
      return true;
    }

    // Reads the task's goods back and writes SUCCEEDED when none is outstanding.
    method FinishIfDone(task: string)
      requires db.Valid()
      modifies db
      ensures db.Valid()
      ensures db.State() == Finish(old(db.State()), task)
      ensures if task in old(db.tasks) && NothingLeft(old(db.status), task)
              then Writes(old(db.State()), db.State(), task, Succeeded, "all goods completed", "AMR")
              else db.State() == old(db.State())
      ensures db.goods == old(db.goods) && db.status == old(db.status)
      ensures db.allocs == old(db.allocs) && db.reports == old(db.reports)
    {
      FinishMeans(db.State(), task);
      DoneMeans(db.status, task);
      hide NothingLeft, Writes, SetStateLogged, SetState;
      hide SQLiteDB.Valid, AllDone, ListsStatusOf;
      var row := db.GetTask(task);
      if row.Some? {
        var found, rows := db.GetTaskGoodsStatus(task);
        ListingDecidesDone(db.State(), task, rows);
        if found {
          var allDone := NothingOutstanding(rows);
          if allDone {
            var written := db.UpdateTaskStateWithEvent(task, Succeeded, "all goods completed", "AMR");
          }
        }
      }
    }

    // The loop over the rows read back, which stops at the first outstanding one.
    method NothingOutstanding(rows: seq<GoodsStatus>) returns (allDone: bool)
      ensures allDone <==> forall i | 0 <= i < |rows| :: rows[i].row.pending <= 0 && rows[i].row.inProgress <= 0
    {
      for i := 0 to |rows|
        invariant forall j | 0 <= j < i :: rows[j].row.pending <= 0 && rows[j].row.inProgress <= 0
      {
        if rows[i].row.pending > 0 || rows[i].row.inProgress > 0 {
          return false;
        }
      }
      return true;
    }

    /** Each published total is the sum of its own column over the task's rows,
        and it is what the ledger holds in that state. A published SUCCEEDED
        therefore comes with everything completed. */
    method BuildTaskStateMessage(task: string) returns (m: Option<StateMessage>)
      requires db.Valid()
      ensures TellsState(db.State(), task, m)
      ensures SucceededSound(db.State()) && m.Some? && m.value.state == Succeeded ==> m.value.completed == m.value.total
    {
      hide LedgerInv, ListsStatusOf, AllDone, TellsState, Sum;
      hide TotalColumn, InProgressColumn, CompletedColumn, PendingColumn;
      TellingMeans(db.State(), task);
      var row := db.GetTask(task);
      if row.None? {
        return None;
      }
      var found, rows := db.GetTaskGoodsStatus(task);
      ListingDecidesDone(db.State(), task, rows);
      if !found {
        return None;
      }
      var total, inProgress, completed, pending := 0, 0, 0, 0;
      NoColumns(rows[..0]);
      for i := 0 to |rows|
        invariant total == Sum(TotalColumn(rows[..i])) && inProgress == Sum(InProgressColumn(rows[..i]))
        invariant completed == Sum(CompletedColumn(rows[..i])) && pending == Sum(PendingColumn(rows[..i]))
      {
        assert rows[..i + 1][..i] == rows[..i];
        ColumnsGrow(rows[..i + 1]);
        total := total + rows[i].row.total;
        inProgress := inProgress + rows[i].row.inProgress;
        completed := completed + rows[i].row.completed;
        pending := pending + rows[i].row.pending;
      }
      assert rows[..|rows|] == rows;
      m := Some(StateMessage(row.value.warehouseId, task, row.value.state,
                             total, inProgress, completed, pending, rows));
      ColumnsTellState(db.State(), m.value);
    }

    method GetActiveTasks() returns (active: seq<ActiveTask>)
      ensures ListsActive(db.State(), active)
    {
      active := db.GetActiveTasks();
    }

    method MarkTaskInterrupted(task: string, reason: string) returns (ok: bool)
      requires db.Valid()
      modifies db
      ensures db.Valid() && ok
      ensures db.State() == SetStateLogged(old(db.State()), task, Interrupted, reason, "TIMEOUT")
      ensures task in old(db.tasks) ==>
                Writes(old(db.State()), db.State(), task, Interrupted, reason, "TIMEOUT")
      ensures db.goods == old(db.goods) && db.status == old(db.status)
      ensures db.allocs == old(db.allocs) && db.reports == old(db.reports)
    {
      ok := db.UpdateTaskStateWithEvent(task, Interrupted, reason, "TIMEOUT");
    }
  }

  // A valid database object gives the meaning of a creation on its tables.
  lemma CreationOfService(db: SQLiteDB, t: TransportTask, warehouse: string)
    requires db.Valid()
    ensures CreationAnswers(db.State(), t, CreateCode(db.State(), t))
    ensures CreationStores(db.State(), t, warehouse, CreateCode(db.State(), t), Create(db.State(), t, warehouse))
  {
    CreationMeans(db.State(), t, warehouse);
  }

  lemma ReportOfService(db: SQLiteDB, e: AmrEvent)
    requires db.Valid()
    ensures CanCarry(RecordReport(db.State(), e), e) <==> Carries(e) && FindsOpen(db.State(), e)
    ensures ReportRecords(db.State(), e, Report(db.State(), e))
    ensures ReportMoves(db.State(), e, Report(db.State(), e))
    ensures ReportWrites(db.State(), e, Report(db.State(), e))
  {
    ReportMeans(db.State(), e);
    if Carries(e) {
      CarryingMeans(db.State(), e);
    }
  }

  lemma RefusedUnchanged(db: Db, request: string, key: GoodsKey, robot: string, quantity: int)
    ensures !CanApprove(db, request, key, robot, quantity) ==> Approve(db, request, key, robot, quantity) == db
  {
  }

  lemma UnsettledUnchanged(db: Db, request: string, robot: string, state: AllocState)
    ensures !CanSettle(db, request, robot, state) ==> Settle(db, request, robot, state) == db
  {
  }
}
