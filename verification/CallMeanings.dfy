/** What each database call does, spelled out column by column. */
module CallMeanings {
  import opened Tables
  import opened Ledger

  lemma CreateMeans(db: Db, t: TransportTask)
    requires LedgerInv(db)
    ensures CanCreate(db, t) <==>
            && t.taskId !in db.tasks && (t.taskType == Load || t.taskType == Unload)
            && (forall i, j | 0 <= i < j < |t.goods| :: t.goods[i].goodsId != t.goods[j].goodsId)
            && (forall i | 0 <= i < |t.goods| :: t.goods[i].quantity >= 0)
    ensures !CanCreate(db, t) ==> CreateTask(db, t) == db
    ensures CanCreate(db, t) ==> var d := CreateTask(db, t);
      && d.tasks == db.tasks[t.taskId :=
           TaskRow(t.warehouseId, t.taskType, t.state, t.robotIds, t.goal, t.reason)]
      && (forall i | 0 <= i < |t.goods| :: var k := GoodsKey(t.taskId, t.goods[i].goodsId);
            && k in d.goods && d.goods[k] == GoodsRow(t.goods[i].name, t.goods[i].quantity)
            && k in d.status && d.status[k] == StatusRow(t.goods[i].quantity, 0, 0, t.goods[i].quantity))
      && (forall k | k in d.status && k.task == t.taskId ::
            exists i :: 0 <= i < |t.goods| && t.goods[i].goodsId == k.goods)
      && (forall k: GoodsKey | k.task != t.taskId ::
            && (k in d.status <==> k in db.status)
            && (k in db.status ==>
                  k in db.goods && k in d.goods && d.status[k] == db.status[k] && d.goods[k] == db.goods[k]))
      && d.allocs == db.allocs && d.reports == db.reports
      && d.log == db.log + [TaskEvent(t.taskId, t.state, t.reason, "HTTP")]
  {
    if CanCreate(db, t) {
      CreateOpensLedger(db, t);
      CreatedRest(db, t);
      hide LedgerInv, CreateTask;
    }
  }

  lemma CreatedRest(db: Db, t: TransportTask)
    requires CanCreate(db, t)
    ensures var d := CreateTask(db, t);
      d.reports == db.reports && d.log == db.log + [TaskEvent(t.taskId, t.state, t.reason, "HTTP")]
  {
    hide CanCreate, GoodsRows, StatusRows;
  }

  lemma ApproveMeans(db: Db, request: string, key: GoodsKey, robot: string, quantity: int)
    ensures CanApprove(db, request, key, robot, quantity) <==>
            && key in db.status && 0 < quantity <= db.status[key].pending
            && forall i | 0 <= i < |db.allocs| :: !(db.allocs[i].request == request && db.allocs[i].robot == robot)
    ensures !CanApprove(db, request, key, robot, quantity) ==> Approve(db, request, key, robot, quantity) == db
    ensures CanApprove(db, request, key, robot, quantity) ==>
      var d, row := Approve(db, request, key, robot, quantity), db.status[key];
      && d.status == db.status[key :=
           StatusRow(row.total, row.inProgress + quantity, row.completed, row.pending - quantity)]
      && d.allocs == db.allocs + [Allocation(request, key.task, key.goods, robot, quantity, InProgress)]
      && d.tasks == db.tasks && d.goods == db.goods && d.log == db.log && d.reports == db.reports
  {
  }

  // The open allocation of a request and robot.
  predicate OpenAt(allocs: seq<Allocation>, i: nat, request: string, robot: string) {
    i < |allocs| && allocs[i].request == request && allocs[i].robot == robot && allocs[i].state == InProgress
  }

  lemma SettleMeans(db: Db, request: string, robot: string, state: AllocState)
    requires LedgerInv(db)
    ensures CanSettle(db, request, robot, state) <==>
            (state == Completed || state == Aborted) && exists i: nat :: OpenAt(db.allocs, i, request, robot)
    ensures !CanSettle(db, request, robot, state) ==> Settle(db, request, robot, state) == db
    ensures forall i: nat | CanSettle(db, request, robot, state) && OpenAt(db.allocs, i, request, robot) ::
      var d, a := Settle(db, request, robot, state), db.allocs[i];
      && GoodsKey(a.task, a.goods) in db.status
      && var row := db.status[GoodsKey(a.task, a.goods)];
      && d.allocs == db.allocs[i := Allocation(request, a.task, a.goods, robot, a.quantity, state)]
      && d.status == db.status[GoodsKey(a.task, a.goods) :=
           if state == Completed
           then StatusRow(row.total, row.inProgress - a.quantity, row.completed + a.quantity, row.pending)
           else StatusRow(row.total, row.inProgress - a.quantity, row.completed, row.pending + a.quantity)]
      && d.tasks == db.tasks && d.goods == db.goods && d.log == db.log && d.reports == db.reports
  {
    SettleNeverRollsBack(db, request, robot, state);
    OpenMeans(db.allocs, request, robot);
    forall i: nat | CanSettle(db, request, robot, state) && OpenAt(db.allocs, i, request, robot)
      ensures FindOpen(db.allocs, request, robot) == i
    {
      FoundOpen(db, i);
    }
    if CanSettle(db, request, robot, state) {
      SettledIs(db, request, robot, state);
      hide LedgerInv, Settle, CanSettle, FindOpen, HasOpen;
    } else {
      hide LedgerInv, CanSettle, FindOpen, HasOpen;
    }
  }

  lemma OpenMeans(allocs: seq<Allocation>, request: string, robot: string)
    ensures HasOpen(allocs, request, robot) <==> exists i: nat :: OpenAt(allocs, i, request, robot)
  {
    if HasOpen(allocs, request, robot) {
      var i :| 0 <= i < |allocs| && IsOpen(allocs[i], request, robot);
      assert OpenAt(allocs, i, request, robot);
    }
    if i: nat :| OpenAt(allocs, i, request, robot) {
      assert IsOpen(allocs[i], request, robot);
    }
  }

  lemma StateMeans(db: Db, task: string, state: TaskState, reason: string)
    ensures var d := SetState(db, task, state, reason);
      && d.goods == db.goods && d.status == db.status && d.allocs == db.allocs && d.log == db.log
      && d.reports == db.reports
      && d.tasks == if task !in db.tasks then db.tasks
                    else var r := db.tasks[task];
                         db.tasks[task := TaskRow(r.warehouseId, r.taskType, state, r.robotIds, r.goal, reason)]
  {
  }

  lemma LoggedStateMeans(db: Db, task: string, state: TaskState, reason: string, source: string)
    ensures var d := SetStateLogged(db, task, state, reason, source);
      && d.goods == db.goods && d.status == db.status && d.allocs == db.allocs && d.reports == db.reports
      && d.log == db.log + [TaskEvent(task, state, reason, source)]
      && d.tasks == if task !in db.tasks then db.tasks
                    else var r := db.tasks[task];
                         db.tasks[task := TaskRow(r.warehouseId, r.taskType, state, r.robotIds, r.goal, reason)]
  {
  }

  lemma RecordMeans(db: Db, e: AmrEvent)
    ensures var d, key := RecordReport(db, e), ReportKey(e.messageId, e.task, e.robot, e.eventType);
      && d.tasks == db.tasks && d.goods == db.goods && d.status == db.status && d.allocs == db.allocs && d.log == db.log
      && d.reports == if key in db.reports
                         || !(e.eventType == Status || e.eventType == CarryCompleted || e.eventType == CarryAborted)
                      then db.reports else db.reports[key := e]
  {
  }
}
