/** The Edge's database object. Each method runs its SQL statements one by one
    under the schema's constraints and undoes them by ROLLBACK when one of them
    fails; its contract is the whole-call meaning given in Tables. The mutex
    that guards every method makes a call one atomic step. */
module SqliteDb {
  import opened Tables
  import opened Ledger
  import opened CallMeanings

  // One row of GetTaskGoodsStatus.
  datatype GoodsStatus = GoodsStatus(goodsId: string, row: StatusRow)

  // One row of GetActiveTasks.
  datatype ActiveTask = ActiveTask(
    taskId: string, warehouseId: string, taskType: TaskType, state: TaskState, robotIds: seq<string>)

  // `rows` lists every status row of `task` exactly once, in some order.
  predicate ListsStatusOf(db: Db, task: string, rows: seq<GoodsStatus>) {
    && (forall i | 0 <= i < |rows| ::
          var k := GoodsKey(task, rows[i].goodsId); k in db.status && db.status[k] == rows[i].row)
    && (forall k | k in db.status && k.task == task :: exists i :: 0 <= i < |rows| && rows[i].goodsId == k.goods)
    && (forall i, j | 0 <= i < j < |rows| :: rows[i].goodsId != rows[j].goodsId)
  }

  // A listed task is active and shows its row.
  predicate ShowsActive(tasks: map<string, TaskRow>, a: ActiveTask) {
    && a.taskId in tasks
    && var row := tasks[a.taskId];
    && (row.state == Pending || row.state == Accepted || row.state == Running)
    && a == ActiveTask(a.taskId, row.warehouseId, row.taskType, row.state, row.robotIds)
  }

  // `active` lists every active task exactly once, in some order.
  predicate ListsActive(db: Db, active: seq<ActiveTask>) {
    && (forall i | 0 <= i < |active| :: ShowsActive(db.tasks, active[i]))
    && (forall t | t in db.tasks && db.tasks[t].state in {Pending, Accepted, Running} ::
          exists i :: 0 <= i < |active| && active[i].taskId == t)
    && (forall i, j | 0 <= i < j < |active| :: active[i].taskId != active[j].taskId)
  }

  // Goods rows exist only for tasks that exist, and come with a status row.
  ghost predicate RowsHaveTask(db: Db) {
    && db.goods.Keys == db.status.Keys
    && forall k | k in db.goods :: k.task in db.tasks
  }

  lemma RowsMatch(db: Db)
    requires LedgerInv(db)
    ensures RowsHaveTask(db)
  {
    hide Balanced, AllocCheck, OnePerRequest;
  }

  lemma MergeUpdate<K, V>(a: map<K, V>, b: map<K, V>, k: K, v: V)
    ensures (a + b)[k := v] == a + b[k := v]
  {
  }

  // One step of the loop that inserts the goods: either the item is refused, as
  // the whole task then is, or the inserted rows grow by the item's.
  lemma InsertStep(db: Db, t: TransportTask, i: nat)
    requires RowsHaveTask(db) && t.taskId !in db.tasks && i < |t.goods|
    requires DistinctGoods(t.goods[..i]) && NonNegative(t.goods[..i])
    ensures var key := GoodsKey(t.taskId, t.goods[i].goodsId);
      var g, s := db.goods + GoodsRows(t.taskId, t.goods[..i]), db.status + StatusRows(t.taskId, t.goods[..i]);
      && (key in g || t.goods[i].quantity < 0 ==> !CanCreate(db, t))
      && (key !in g && t.goods[i].quantity >= 0 ==>
            DistinctGoods(t.goods[..i + 1]) && NonNegative(t.goods[..i + 1]))
      && g[key := GoodsRow(t.goods[i].name, t.goods[i].quantity)]
         == db.goods + GoodsRows(t.taskId, t.goods[..i + 1])
      && s[key := StatusRow(t.goods[i].quantity, 0, 0, t.goods[i].quantity)]
         == db.status + StatusRows(t.taskId, t.goods[..i + 1])
  {
    var item := t.goods[i];
    var key := GoodsKey(t.taskId, item.goodsId);
    assert t.goods[..i + 1][..i] == t.goods[..i];
    InsertedKeys(t.taskId, t.goods[..i], key);
    MergeUpdate(db.goods, GoodsRows(t.taskId, t.goods[..i]), key, GoodsRow(item.name, item.quantity));
    MergeUpdate(db.status, StatusRows(t.taskId, t.goods[..i]), key,
                StatusRow(item.quantity, 0, 0, item.quantity));
    if key in db.goods + GoodsRows(t.taskId, t.goods[..i]) {
      var j :| 0 <= j < |t.goods[..i]| && t.goods[..i][j].goodsId == item.goodsId;
      assert t.goods[j].goodsId == item.goodsId;
    } else {
      assert forall j | 0 <= j < i :: t.goods[..i][j].goodsId != item.goodsId;
    }
  }

  // When every INSERT went through, the rows are those of the whole creation.
  lemma InsertedAll(db: Db, t: TransportTask)
    requires t.taskId !in db.tasks && TypeCheck(t.taskType)
    requires DistinctGoods(t.goods) && NonNegative(t.goods)
    ensures CanCreate(db, t)
    ensures Tables.CreateTask(db, t) == Db(
      db.tasks[t.taskId := NewTaskRow(t)], db.goods + GoodsRows(t.taskId, t.goods),
      db.status + StatusRows(t.taskId, t.goods), db.allocs,
      db.log + [TaskEvent(t.taskId, t.state, t.reason, "HTTP")], db.reports)
  {
  }

  lemma NothingInserted(db: Db, t: TransportTask)
    requires RowsHaveTask(db)
    ensures t.goods[..0] == [] && DistinctGoods(t.goods[..0]) && NonNegative(t.goods[..0])
    ensures db.goods + GoodsRows(t.taskId, t.goods[..0]) == db.goods
    ensures db.status + StatusRows(t.taskId, t.goods[..0]) == db.status
    ensures db.goods.Keys == db.status.Keys
  {
  }

  lemma RefusedCreation(db: Db, t: TransportTask)
    ensures t.taskId in db.tasks || !TypeCheck(t.taskType) ==> !CanCreate(db, t)
    ensures !CanCreate(db, t) ==> Tables.CreateTask(db, t) == db
  {
  }

  class SQLiteDB {
    var tasks: map<string, TaskRow>
    var goods: map<GoodsKey, GoodsRow>
    var status: map<GoodsKey, StatusRow>
    var allocs: seq<Allocation>
    var log: seq<TaskEvent>
    var reports: map<ReportKey, AmrEvent>
    var saved: Db

    function State(): Db
      reads this
    {
      Db(tasks, goods, status, allocs, log, reports)
    }

    ghost predicate Valid()
      reads this
    {
      LedgerInv(State())
    }

    constructor ()
      ensures Valid() && State() == EMPTY
    {
      tasks, goods, status, allocs, log, reports := map[], map[], map[], [], [], map[];
      saved := EMPTY;
    }

    method BeginTransaction()
      modifies this`saved
      ensures saved == State()
    {
      saved := State();
    }

    method Rollback()
      modifies this
      ensures State() == old(saved)
    {
      tasks, goods, status := saved.tasks, saved.goods, saved.status;
      allocs, log, reports := saved.allocs, saved.log, saved.reports;
    }

    method CreateTask(task: TransportTask) returns (ok: bool)
      requires Valid()
      modifies this
      ensures Valid()
      ensures State() == Tables.CreateTask(old(State()), task)
      ensures ok <==>
              && task.taskId !in old(tasks) && (task.taskType == Load || task.taskType == Unload)
              && (forall i, j | 0 <= i < j < |task.goods| :: task.goods[i].goodsId != task.goods[j].goodsId)
              && (forall i | 0 <= i < |task.goods| :: task.goods[i].quantity >= 0)
      ensures !ok ==> State() == old(State())
      ensures ok ==>
        && tasks == old(tasks)[task.taskId :=
             TaskRow(task.warehouseId, task.taskType, task.state, task.robotIds, task.goal, task.reason)]
        && (forall i | 0 <= i < |task.goods| :: var k := GoodsKey(task.taskId, task.goods[i].goodsId);
              && k in goods && goods[k] == GoodsRow(task.goods[i].name, task.goods[i].quantity)
              && k in status && status[k] == StatusRow(task.goods[i].quantity, 0, 0, task.goods[i].quantity))
        && (forall k | k in status && k.task == task.taskId ::
              exists i :: 0 <= i < |task.goods| && task.goods[i].goodsId == k.goods)
        && allocs == old(allocs) && reports == old(reports)
        && log == old(log) + [TaskEvent(task.taskId, task.state, task.reason, "HTTP")]
    {
      hide LedgerInv, CanCreate, Tables.CreateTask;
      CreateMeans(State(), task);
      RowsMatch(State());
      CreateKeepsLedger(State(), task);
      ok := InsertTaskRows(task);
    }

    // The two INSERTs of one goods item.
    method InsertGoods(taskId: string, item: TaskGoods) returns (ok: bool)
      requires goods.Keys == status.Keys
      modifies this`goods, this`status
      ensures var key := GoodsKey(taskId, item.goodsId);
        && ok == (key !in old(goods) && item.quantity >= 0)
        && (ok ==> goods == old(goods)[key := GoodsRow(item.name, item.quantity)])
        && (ok ==> status == old(status)[key := StatusRow(item.quantity, 0, 0, item.quantity)])
    {
      var key := GoodsKey(taskId, item.goodsId);
      if key in goods || item.quantity < 0 {
        return false;
      }
      goods := goods[key := GoodsRow(item.name, item.quantity)];
      var row := StatusRow(item.quantity, 0, 0, item.quantity);
      if key in status || !StatusCheck(row) {
        return false;
      }
      status := status[key := row];
      return true;
    }

    // The transaction of CreateTask.
    method InsertTaskRows(task: TransportTask) returns (ok: bool)
      requires RowsHaveTask(State())
      modifies this
      ensures ok == CanCreate(old(State()), task)
      ensures State() == Tables.CreateTask(old(State()), task)
    {
      hide CanCreate, Tables.CreateTask, DistinctGoods, NonNegative, RowsHaveTask, GoodsRows, StatusRows, TypeCheck;
      NothingInserted(State(), task);
      RefusedCreation(State(), task);
      BeginTransaction();
      if task.taskId in tasks || !TypeCheck(task.taskType) {
        Rollback();
        return false;
      }
      tasks := tasks[task.taskId := NewTaskRow(task)];
      for i := 0 to |task.goods|
        invariant saved == old(State())
        invariant tasks == old(tasks)[task.taskId := NewTaskRow(task)]
        invariant goods == old(goods) + GoodsRows(task.taskId, task.goods[..i])
        invariant status == old(status) + StatusRows(task.taskId, task.goods[..i])
        invariant goods.Keys == status.Keys
        invariant DistinctGoods(task.goods[..i]) && NonNegative(task.goods[..i])
        invariant allocs == old(allocs) && log == old(log) && reports == old(reports)
      {
        InsertStep(old(State()), task, i);
        var inserted := InsertGoods(task.taskId, task.goods[i]);
        if !inserted {
          Rollback();
          return false;
        }
      }
      assert task.goods[..|task.goods|] == task.goods;
      InsertedAll(old(State()), task);
      log := log + [TaskEvent(task.taskId, task.state, task.reason, "HTTP")];
      return true;
    }

    method TaskExists(task: string) returns (found: bool)
      ensures found == (task in tasks)
    {
      found := task in tasks;
    }

    method GetTask(task: string) returns (row: Option<TaskRow>)
      ensures row == if task in tasks then Some(tasks[task]) else None
    {
      row := if task in tasks then Some(tasks[task]) else None;
    }

    method GetActiveTasks() returns (active: seq<ActiveTask>)
      ensures ListsActive(State(), active)
    {
      active := [];
      var left := tasks.Keys;
      while left != {}
        invariant left <= tasks.Keys
        invariant forall i | 0 <= i < |active| :: active[i].taskId !in left && ShowsActive(tasks, active[i])
        invariant forall t | t in tasks && t !in left && IsActive(tasks[t]) ::
                    exists i :: 0 <= i < |active| && active[i].taskId == t
        invariant forall i, j | 0 <= i < j < |active| :: active[i].taskId != active[j].taskId
      {
        var t :| t in left;
        ghost var before := active;
        if IsActive(tasks[t]) {
          active := active
            + [ActiveTask(t, tasks[t].warehouseId, tasks[t].taskType, tasks[t].state, tasks[t].robotIds)];
          assert active[|before|].taskId == t;
        }
        left := left - {t};
        forall u | u in tasks && u !in left && IsActive(tasks[u])
          ensures exists i :: 0 <= i < |active| && active[i].taskId == u
        {
          if u != t {
            var i :| 0 <= i < |before| && before[i].taskId == u;
            assert active[i].taskId == u;
          }
        }
      }
    }

    method GetTaskGoodsStatus(task: string) returns (ok: bool, rows: seq<GoodsStatus>)
      ensures ListsStatusOf(State(), task, rows)
      ensures ok == (rows != [])
    {
      rows := [];
      var left := status.Keys;
      while left != {}
        invariant left <= status.Keys
        invariant forall i | 0 <= i < |rows| ::
                    var k := GoodsKey(task, rows[i].goodsId); k in status - left && status[k] == rows[i].row
        invariant forall k | k in status && k !in left && k.task == task ::
                    exists i :: 0 <= i < |rows| && rows[i].goodsId == k.goods
        invariant forall i, j | 0 <= i < j < |rows| :: rows[i].goodsId != rows[j].goodsId
      {
        var key :| key in left;
        ghost var before := rows;
        if key.task == task {
          rows := rows + [GoodsStatus(key.goods, status[key])];
          assert rows[|before|].goodsId == key.goods;
        }
        left := left - {key};
        forall k | k in status && k !in left && k.task == task
          ensures exists i :: 0 <= i < |rows| && rows[i].goodsId == k.goods
        {
          if k != key {
            var i :| 0 <= i < |before| && before[i].goodsId == k.goods;
            assert rows[i].goodsId == k.goods;
          }
        }
      }
      ok := rows != [];
    }

    method UpdateTaskState(task: string, state: TaskState, reason: string) returns (ok: bool)
      requires Valid()
      modifies this`tasks
      ensures Valid() && ok
      ensures State() == SetState(old(State()), task, state, reason)
      ensures task !in old(tasks) ==> tasks == old(tasks)
      ensures task in old(tasks) ==> var r := old(tasks)[task];
        tasks == old(tasks)[task := TaskRow(r.warehouseId, r.taskType, state, r.robotIds, r.goal, reason)]
    {
      hide LedgerInv;
      CallKeepsLedger(State(), CallSetState(task, state, reason));
      if task in tasks {
        tasks := tasks[task := tasks[task].(state := state, reason := reason)];
      }
      ok := true;
    }

    method UpdateTaskStateWithEvent(task: string, state: TaskState, reason: string, source: string)
      returns (ok: bool)
      requires Valid()
      modifies this
      ensures Valid() && ok
      ensures State() == SetStateLogged(old(State()), task, state, reason, source)
      ensures log == old(log) + [TaskEvent(task, state, reason, source)]
      ensures task !in old(tasks) ==> tasks == old(tasks)
      ensures task in old(tasks) ==> var r := old(tasks)[task];
        tasks == old(tasks)[task := TaskRow(r.warehouseId, r.taskType, state, r.robotIds, r.goal, reason)]
      ensures status == old(status) && goods == old(goods) && allocs == old(allocs) && reports == old(reports)
    {
      hide LedgerInv;
      CallKeepsLedger(State(), CallSetStateLogged(task, state, reason, source));
      BeginTransaction();
      if task in tasks {
        tasks := tasks[task := tasks[task].(state := state, reason := reason)];
      }
      log := log + [TaskEvent(task, state, reason, source)];
      ok := true;
    }

    method InsertAmrTaskStatusEvent(e: AmrEvent) returns (ok: bool)
      requires Valid()
      modifies this`reports
      ensures Valid() && ok
      ensures State() == RecordReport(old(State()), e)
      ensures var key := ReportKey(e.messageId, e.task, e.robot, e.eventType);
        reports == if key in old(reports)
                      || !(e.eventType == Status || e.eventType == CarryCompleted || e.eventType == CarryAborted)
                   then old(reports) else old(reports)[key := e]
    {
      hide LedgerInv;
      CallKeepsLedger(State(), CallRecord(e));
      if KeyOfReport(e) !in reports && !e.eventType.OtherEvent? {
        reports := reports[KeyOfReport(e) := e];
      }
      ok := true;
    }

    // Whether an allocation row of `request` and `robot` violates UNIQUE.
    method HasAllocation(request: string, robot: string) returns (found: bool)
      ensures found == Allocated(allocs, request, robot)
    {
      for i := 0 to |allocs|
        invariant forall j | 0 <= j < i :: !(allocs[j].request == request && allocs[j].robot == robot)
      {
        if allocs[i].request == request && allocs[i].robot == robot {
          return true;
        }
      }
      return false;
    }

    method ApproveGoodsAllocation(request: string, key: GoodsKey, robot: string, quantity: int)
      returns (ok: bool)
      requires Valid()
      modifies this
      ensures Valid()
      ensures ok == CanApprove(old(State()), request, key, robot, quantity)
      ensures State() == Approve(old(State()), request, key, robot, quantity)
      ensures ok <==>
              && key in old(status) && 0 < quantity <= old(status)[key].pending
              && forall i | 0 <= i < |old(allocs)| ::
                   !(old(allocs)[i].request == request && old(allocs)[i].robot == robot)
      ensures !ok ==> State() == old(State())
      ensures ok ==> var row := old(status)[key];
        && status == old(status)[key :=
             StatusRow(row.total, row.inProgress + quantity, row.completed, row.pending - quantity)]
        && allocs == old(allocs) + [Allocation(request, key.task, key.goods, robot, quantity, InProgress)]
        && tasks == old(tasks) && goods == old(goods) && log == old(log) && reports == old(reports)
    {
      hide LedgerInv, Balanced, CanApprove, Approve;
      ApproveMeans(State(), request, key, robot, quantity);
      ApproveKeepsLedger(State(), request, key, robot, quantity);
      if key in status {
        RowFacts(State(), key);
      }
      ok := MoveToInProgress(request, key, robot, quantity);
    }

    // The transaction of ApproveGoodsAllocation.
    method MoveToInProgress(request: string, key: GoodsKey, robot: string, quantity: int) returns (ok: bool)
      requires key in status ==> StatusCheck(status[key])
      modifies this
      ensures ok == CanApprove(old(State()), request, key, robot, quantity)
      ensures State() == Approve(old(State()), request, key, robot, quantity)
    {
      BeginTransaction();
      if key !in status || status[key].pending < quantity {
        Rollback();
        return false;
      }
      var row := status[key].(
        inProgress := status[key].inProgress + quantity, pending := status[key].pending - quantity);
      if !StatusCheck(row) {
        Rollback();
        return false;
      }
      status := status[key := row];
      var duplicate := HasAllocation(request, robot);
      var a := Allocation(request, key.task, key.goods, robot, quantity, InProgress);
      if duplicate || !AllocCheck(a) {
        Rollback();
        return false;
      }
      allocs := allocs + [a];
      return true;
    }

    // SELECT ... WHERE request_id=? AND robot_id=? AND state='IN_PROGRESS'.
    method SelectOpen(request: string, robot: string) returns (i: nat)
      ensures i == Tables.FindOpen(allocs, request, robot)
    {
      i := 0;
      while i < |allocs| && !IsOpen(allocs[i], request, robot)
        invariant i <= |allocs|
        invariant forall j | 0 <= j < i :: !IsOpen(allocs[j], request, robot)
      {
        i := i + 1;
      }
    }

    method SettleGoodsAllocation(request: string, robot: string, state: AllocState) returns (ok: bool)
      requires Valid()
      modifies this
      ensures Valid()
      ensures ok == CanSettle(old(State()), request, robot, state)
      ensures State() == Settle(old(State()), request, robot, state)
      ensures ok <==> (state == Completed || state == Aborted) &&
                      exists i: nat :: OpenAt(old(allocs), i, request, robot)
      ensures !ok ==> State() == old(State())
      ensures forall i: nat | ok && OpenAt(old(allocs), i, request, robot) ::
        var a := old(allocs)[i];
        && GoodsKey(a.task, a.goods) in old(status)
        && var row := old(status)[GoodsKey(a.task, a.goods)];
        && allocs == old(allocs)[i := Allocation(request, a.task, a.goods, robot, a.quantity, state)]
        && status == old(status)[GoodsKey(a.task, a.goods) :=
             if state == Completed
             then StatusRow(row.total, row.inProgress - a.quantity, row.completed + a.quantity, row.pending)
             else StatusRow(row.total, row.inProgress - a.quantity, row.completed, row.pending + a.quantity)]
        && tasks == old(tasks) && goods == old(goods) && log == old(log) && reports == old(reports)
    {
      hide LedgerInv, CanSettle, Settle;
      SettleMeans(State(), request, robot, state);
      SettleKeepsLedger(State(), request, robot, state);
      ok := MoveToSettled(request, robot, state);
    }

    // The body of SettleGoodsAllocation.
    method MoveToSettled(request: string, robot: string, state: AllocState) returns (ok: bool)
      modifies this
      ensures ok == CanSettle(old(State()), request, robot, state)
      ensures State() == Settle(old(State()), request, robot, state)
    {
      if !state.Completed? && !state.Aborted? {
        return false;
      }
      var i := SelectOpen(request, robot);
      if i == |allocs| {
        return false;
      }
      var a := allocs[i];
      BeginTransaction();
      allocs := allocs[i := a.(state := state)];
      if KeyOf(a) !in status || !StatusCheck(SettledRow(status[KeyOf(a)], a.quantity, state)) {
        Rollback();
        return false;
      }
      status := status[KeyOf(a) := SettledRow(status[KeyOf(a)], a.quantity, state)];
      return true;
    }
  }
}
