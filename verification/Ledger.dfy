/** The goods ledger: every quantity in tbl_task_goods_status is explained by
    the allocation table, after any run of database calls. */
module Ledger {
  import opened Tables

  function Weight(a: Allocation, key: GoodsKey, state: AllocState): int {
    if KeyOf(a) == key && a.state == state then a.quantity else 0
  }

  // Units of `key` in allocations whose state is `state`.
  function Held(allocs: seq<Allocation>, key: GoodsKey, state: AllocState): int {
    if allocs == [] then 0
    else Held(allocs[..|allocs| - 1], key, state) + Weight(allocs[|allocs| - 1], key, state)
  }

  ghost predicate Balanced(db: Db, key: GoodsKey)
    requires key in db.status
  {
    var row := db.status[key];
    && row.inProgress == Held(db.allocs, key, InProgress)
    && row.completed == Held(db.allocs, key, Completed)
    && row.pending == row.total - row.inProgress - row.completed
    && row.inProgress >= 0 && row.completed >= 0 && row.pending >= 0
  }

  ghost predicate OnePerRequest(allocs: seq<Allocation>) {
    forall i, j | 0 <= i < j < |allocs| ::
      !(allocs[i].request == allocs[j].request && allocs[i].robot == allocs[j].robot)
  }

  ghost predicate LedgerInv(db: Db) {
    && (forall k | k in db.status :: Balanced(db, k))
    && (forall k | k in db.status :: k in db.goods && db.goods[k].total == db.status[k].total >= 0)
    && (forall k | k in db.goods :: k in db.status && k.task in db.tasks)
    && (forall i | 0 <= i < |db.allocs| :: AllocCheck(db.allocs[i]) && KeyOf(db.allocs[i]) in db.status)
    && OnePerRequest(db.allocs)
  }

  // ---- Sums over the allocation table -----------------------------------

  lemma {:induction false} HeldAppend(allocs: seq<Allocation>, a: Allocation, key: GoodsKey, state: AllocState)
    ensures Held(allocs + [a], key, state) == Held(allocs, key, state) + Weight(a, key, state)
  {
    assert (allocs + [a])[..|allocs|] == allocs;
  }

  lemma {:induction false} HeldUpdate(
    allocs: seq<Allocation>, i: nat, a: Allocation, key: GoodsKey, state: AllocState)
    requires i < |allocs|
    ensures Held(allocs[i := a], key, state)
         == Held(allocs, key, state) - Weight(allocs[i], key, state) + Weight(a, key, state)
  {
    var n := |allocs| - 1;
    if i == n {
      assert allocs[i := a][..n] == allocs[..n];
    } else {
      HeldUpdate(allocs[..n], i, a, key, state);
      assert allocs[i := a][..n] == allocs[..n][i := a];
    }
  }

  lemma {:induction false} HeldNone(allocs: seq<Allocation>, key: GoodsKey, state: AllocState)
    requires forall i | 0 <= i < |allocs| :: KeyOf(allocs[i]) != key
    ensures Held(allocs, key, state) == 0
  {
    if allocs != [] {
      HeldNone(allocs[..|allocs| - 1], key, state);
    }
  }

  lemma {:induction false} HeldNonNegative(allocs: seq<Allocation>, key: GoodsKey, state: AllocState)
    requires forall i | 0 <= i < |allocs| :: allocs[i].quantity > 0
    ensures Held(allocs, key, state) >= 0
  {
    if allocs != [] {
      HeldNonNegative(allocs[..|allocs| - 1], key, state);
    }
  }

  lemma {:induction false} HeldCovers(allocs: seq<Allocation>, i: nat)
    requires i < |allocs|
    requires forall j | 0 <= j < |allocs| :: allocs[j].quantity > 0
    ensures Held(allocs, KeyOf(allocs[i]), allocs[i].state) >= allocs[i].quantity
  {
    var n := |allocs| - 1;
    if i == n {
      HeldNonNegative(allocs[..n], KeyOf(allocs[i]), allocs[i].state);
    } else {
      HeldCovers(allocs[..n], i);
    }
  }

  // ---- What CreateTask inserts --------------------------------------------

  lemma {:induction false} InsertedKeys(task: string, goods: seq<TaskGoods>, k: GoodsKey)
    ensures k in GoodsRows(task, goods) <==> k in StatusRows(task, goods)
    ensures k in GoodsRows(task, goods) <==>
            k.task == task && exists i :: 0 <= i < |goods| && goods[i].goodsId == k.goods
  {
    if goods != [] {
      var n := |goods| - 1;
      InsertedKeys(task, goods[..n], k);
      if k.task == task && exists i :: 0 <= i < |goods| && goods[i].goodsId == k.goods {
        var i :| 0 <= i < |goods| && goods[i].goodsId == k.goods;
        assert i < n ==> goods[..n][i].goodsId == k.goods;
      }
    }
  }

  lemma {:induction false} InsertedValues(task: string, goods: seq<TaskGoods>, i: nat)
    requires DistinctGoods(goods) && i < |goods|
    ensures var k := GoodsKey(task, goods[i].goodsId);
      && k in GoodsRows(task, goods) && k in StatusRows(task, goods)
      && GoodsRows(task, goods)[k] == GoodsRow(goods[i].name, goods[i].quantity)
      && StatusRows(task, goods)[k] == StatusRow(goods[i].quantity, 0, 0, goods[i].quantity)
  {
    var n := |goods| - 1;
    if i < n {
      assert DistinctGoods(goods[..n]);
      InsertedValues(task, goods[..n], i);
      assert goods[..n][i] == goods[i];
    }
  }

  lemma InsertedRow(task: string, goods: seq<TaskGoods>, k: GoodsKey) returns (i: nat)
    requires DistinctGoods(goods) && k in StatusRows(task, goods)
    ensures k.task == task && i < |goods| && goods[i].goodsId == k.goods
    ensures k in GoodsRows(task, goods)
    ensures GoodsRows(task, goods)[k] == GoodsRow(goods[i].name, goods[i].quantity)
    ensures StatusRows(task, goods)[k] == StatusRow(goods[i].quantity, 0, 0, goods[i].quantity)
  {
    InsertedKeys(task, goods, k);
    i :| 0 <= i < |goods| && goods[i].goodsId == k.goods;
    InsertedValues(task, goods, i);
  }

  /** What a successful creation leaves: the task row, exactly one goods row and
      one all-pending status row per goods item, and nothing else changed. */
  lemma CreateOpensLedger(db: Db, t: TransportTask)
    requires LedgerInv(db) && CanCreate(db, t)
    ensures var d := CreateTask(db, t);
      && d.tasks == db.tasks[t.taskId := NewTaskRow(t)]
      && d.allocs == db.allocs
      && (forall i | 0 <= i < |t.goods| ::
            var k := GoodsKey(t.taskId, t.goods[i].goodsId);
            && k !in db.status && k in d.status && k in d.goods
            && d.goods[k] == GoodsRow(t.goods[i].name, t.goods[i].quantity)
            && d.status[k] == StatusRow(t.goods[i].quantity, 0, 0, t.goods[i].quantity))
      && (forall k :: k in d.status && k.task == t.taskId ==>
            exists i :: 0 <= i < |t.goods| && t.goods[i].goodsId == k.goods)
      && (forall k: GoodsKey :: k.task != t.taskId ==>
            && (k in d.status <==> k in db.status)
            && (k in db.status ==> d.status[k] == db.status[k] && d.goods[k] == db.goods[k]))
  {
    var d := CreateTask(db, t);
    forall k: GoodsKey {
      InsertedKeys(t.taskId, t.goods, k);
    }
    forall i | 0 <= i < |t.goods|
      ensures var k := GoodsKey(t.taskId, t.goods[i].goodsId);
        k !in db.status && k in d.status && k in d.goods
        && d.goods[k] == GoodsRow(t.goods[i].name, t.goods[i].quantity)
        && d.status[k] == StatusRow(t.goods[i].quantity, 0, 0, t.goods[i].quantity)
    {
      InsertedValues(t.taskId, t.goods, i);
    }
  }

  // ---- Reading the invariant one row at a time -----------------------------

  lemma RowFacts(db: Db, key: GoodsKey)
    requires LedgerInv(db) && key in db.status
    ensures Balanced(db, key) && StatusCheck(db.status[key]) && key.task in db.tasks
  {
  }

  lemma AllocFacts(db: Db, i: nat)
    requires LedgerInv(db) && i < |db.allocs|
    ensures var a := db.allocs[i];
      && a.quantity > 0 && KeyOf(a) in db.status && a.task in db.tasks
      && (a.state.InProgress? ==> db.status[KeyOf(a)].inProgress >= a.quantity)
  {
    assert Balanced(db, KeyOf(db.allocs[i]));
    HeldCovers(db.allocs, i);
  }

  lemma FoundOpen(db: Db, i: nat)
    requires LedgerInv(db) && i < |db.allocs| && db.allocs[i].state.InProgress?
    ensures HasOpen(db.allocs, db.allocs[i].request, db.allocs[i].robot)
    ensures FindOpen(db.allocs, db.allocs[i].request, db.allocs[i].robot) == i
  {
    assert IsOpen(db.allocs[i], db.allocs[i].request, db.allocs[i].robot);
  }

  // ---- Each call keeps the ledger ------------------------------------------

  lemma CreateKeepsLedger(db: Db, t: TransportTask)
    requires LedgerInv(db)
    ensures LedgerInv(CreateTask(db, t))
  {
    if CanCreate(db, t) {
      var d := CreateTask(db, t);
      forall k: GoodsKey {
        InsertedKeys(t.taskId, t.goods, k);
      }
      forall k | k in d.status
        ensures Balanced(d, k) && k in d.goods && d.goods[k].total == d.status[k].total >= 0
      {
        if k in StatusRows(t.taskId, t.goods) {
          var i := InsertedRow(t.taskId, t.goods, k);
          assert k !in db.status;
          HeldNone(db.allocs, k, InProgress);
          HeldNone(db.allocs, k, Completed);
        } else {
          assert Balanced(db, k);
        }
      }
    }
  }

  // The conjuncts of the invariant for tables whose rows keep their totals.
  lemma LedgerOf(db: Db, d: Db)
    requires LedgerInv(db) && d.goods == db.goods && db.tasks.Keys <= d.tasks.Keys
    requires d.status.Keys == db.status.Keys && forall k | k in db.status :: d.status[k].total == db.status[k].total
    requires forall k | k in d.status :: Balanced(d, k)
    requires forall i | 0 <= i < |d.allocs| :: AllocCheck(d.allocs[i]) && KeyOf(d.allocs[i]) in d.status
    requires OnePerRequest(d.allocs)
    ensures LedgerInv(d)
  {
    hide OnePerRequest, Balanced, AllocCheck;
  }

  lemma ApprovedBalance(db: Db, d: Db, a: Allocation, k: GoodsKey)
    requires k in db.status && Balanced(db, k) && KeyOf(a) in db.status
    requires a.state.InProgress? && 0 < a.quantity <= db.status[KeyOf(a)].pending
    requires d.allocs == db.allocs + [a]
    requires var row := db.status[KeyOf(a)]; d.status == db.status[KeyOf(a) :=
      row.(inProgress := row.inProgress + a.quantity, pending := row.pending - a.quantity)]
    ensures Balanced(d, k)
  {
    HeldAppend(db.allocs, a, k, InProgress);
    HeldAppend(db.allocs, a, k, Completed);
    hide Held;
  }

  lemma ApproveKeepsRows(db: Db, a: Allocation)
    requires LedgerInv(db) && !Allocated(db.allocs, a.request, a.robot) && AllocCheck(a) && KeyOf(a) in db.status
    ensures var after := db.allocs + [a];
      OnePerRequest(after) && forall j | 0 <= j < |after| :: AllocCheck(after[j]) && KeyOf(after[j]) in db.status
  {
    hide Balanced;
  }

  lemma ApproveKeepsLedger(db: Db, request: string, key: GoodsKey, robot: string, quantity: int)
    requires LedgerInv(db)
    ensures LedgerInv(Approve(db, request, key, robot, quantity))
  {
    if CanApprove(db, request, key, robot, quantity) {
      var a := Allocation(request, key.task, key.goods, robot, quantity, InProgress);
      ApproveKeepsRows(db, a);
      ApprovedIs(db, request, key, robot, quantity);
      RowFacts(db, key);
      forall k | k in db.status ensures Balanced(db, k) {
        RowFacts(db, k);
      }
      hide LedgerInv, Balanced, OnePerRequest, AllocCheck, Approve, Allocated;
      var d := Approve(db, request, key, robot, quantity);
      forall k | k in d.status ensures Balanced(d, k) {
        ApprovedBalance(db, d, a, k);
      }
      LedgerOf(db, d);
    }
  }

  /** In a state the ledger explains, settling is decided by the open allocation
      alone: the status row exists and covers the quantity, so no CHECK fires
      and nothing is rolled back. */
  lemma SettleNeverRollsBack(db: Db, request: string, robot: string, state: AllocState)
    requires LedgerInv(db)
    ensures CanSettle(db, request, robot, state) <==>
            (state.Completed? || state.Aborted?) && HasOpen(db.allocs, request, robot)
  {
    if HasOpen(db.allocs, request, robot) {
      var i := FindOpen(db.allocs, request, robot);
      assert Balanced(db, KeyOf(db.allocs[i]));
      HeldCovers(db.allocs, i);
    }
  }

  lemma SettleKeepsRows(allocs: seq<Allocation>, i: nat, state: AllocState)
    requires i < |allocs| && OnePerRequest(allocs) && !state.OtherAlloc?
    requires forall j | 0 <= j < |allocs| :: AllocCheck(allocs[j])
    ensures var after := allocs[i := allocs[i].(state := state)];
      && OnePerRequest(after)
      && forall j | 0 <= j < |after| :: AllocCheck(after[j]) && KeyOf(after[j]) == KeyOf(allocs[j])
  {
  }

  lemma SettledBalance(db: Db, d: Db, i: nat, state: AllocState, k: GoodsKey)
    requires i < |db.allocs| && db.allocs[i].state.InProgress? && (state.Completed? || state.Aborted?)
    requires var a := db.allocs[i];
      && KeyOf(a) in db.status && StatusCheck(SettledRow(db.status[KeyOf(a)], a.quantity, state))
      && d.allocs == db.allocs[i := a.(state := state)]
      && d.status == db.status[KeyOf(a) := SettledRow(db.status[KeyOf(a)], a.quantity, state)]
    requires k in db.status && Balanced(db, k)
    ensures Balanced(d, k)
  {
    HeldUpdate(db.allocs, i, d.allocs[i], k, InProgress);
    HeldUpdate(db.allocs, i, d.allocs[i], k, Completed);
    hide Held;
  }

  lemma SettleKeepsLedger(db: Db, request: string, robot: string, state: AllocState)
    requires LedgerInv(db)
    ensures LedgerInv(Settle(db, request, robot, state))
  {
    if CanSettle(db, request, robot, state) {
      var i := FindOpen(db.allocs, request, robot);
      var key := KeyOf(db.allocs[i]);
      assert db.allocs[i].state.InProgress?;
      assert StatusCheck(SettledRow(db.status[key], db.allocs[i].quantity, state));
      SettleKeepsRows(db.allocs, i, state);
      SettledIs(db, request, robot, state);
      forall k | k in db.status ensures Balanced(db, k) {
        RowFacts(db, k);
      }
      assert forall j | 0 <= j < |db.allocs| :: KeyOf(db.allocs[j]) in db.status;
      hide LedgerInv, Balanced, OnePerRequest, AllocCheck, Settle, CanSettle, FindOpen, HasOpen, StatusCheck;
      var d := Settle(db, request, robot, state);
      forall k | k in d.status ensures Balanced(d, k) {
        SettledBalance(db, d, i, state, k);
      }
      LedgerOf(db, d);
    } else {
      hide LedgerInv, CanSettle;
    }
  }

  lemma StateWriteKeepsLedger(db: Db, d: Db)
    requires LedgerInv(db)
    requires d.goods == db.goods && d.status == db.status && d.allocs == db.allocs
    requires db.tasks.Keys <= d.tasks.Keys
    ensures LedgerInv(d)
  {
    forall k | k in d.status ensures Balanced(d, k) {
      assert Balanced(db, k);
    }
  }

  /** Every database call keeps the ledger, whatever its arguments. */
  lemma CallKeepsLedger(db: Db, c: Call)
    requires LedgerInv(db)
    ensures LedgerInv(Exec(db, c))
  {
    hide LedgerInv, Tables.CreateTask, Approve, Settle;
    match c
    case CallCreate(t) => CreateKeepsLedger(db, t);
    case CallApprove(request, key, robot, quantity) => ApproveKeepsLedger(db, request, key, robot, quantity);
    case CallSettle(request, robot, outcome) => SettleKeepsLedger(db, request, robot, outcome);
    case CallSetState(_, _, _) => StateWriteKeepsLedger(db, Exec(db, c));
    case CallSetStateLogged(_, _, _, _) => StateWriteKeepsLedger(db, Exec(db, c));
    case CallRecord(_) => StateWriteKeepsLedger(db, Exec(db, c));
  }

  lemma {:induction false} RunKeepsLedger(db: Db, calls: seq<Call>)
    requires LedgerInv(db)
    ensures LedgerInv(ExecAll(db, calls))
    decreases |calls|
  {
    if calls != [] {
      CallKeepsLedger(db, calls[0]);
      RunKeepsLedger(Exec(db, calls[0]), calls[1..]);
    }
  }

  /** After any sequence of database calls with any arguments, every status row
      is the sum of its allocations, no quantity is negative, and a request and
      a robot own at most one allocation. */
  lemma LedgerAlwaysBalances(calls: seq<Call>)
    ensures var d := ExecAll(EMPTY, calls);
      && (forall k | k in d.status :: Balanced(d, k))
      && OnePerRequest(d.allocs)
  {
    RunKeepsLedger(EMPTY, calls);
  }

  lemma ApprovedIsFound(db: Db, request: string, key: GoodsKey, robot: string, quantity: int)
    requires CanApprove(db, request, key, robot, quantity)
    ensures var a := Approve(db, request, key, robot, quantity);
      HasOpen(a.allocs, request, robot) && FindOpen(a.allocs, request, robot) == |db.allocs|
  {
    var a := Approve(db, request, key, robot, quantity);
    var n := |db.allocs|;
    assert IsOpen(a.allocs[n], request, robot);
    assert forall i | 0 <= i < n :: a.allocs[i] == db.allocs[i] && !IsOpen(db.allocs[i], request, robot);
  }

  /** What an approval takes, an abort gives back: the status rows are as before.
      A completion moves the same units to completed. */
  lemma SettlingUndoesApproval(
    db: Db, request: string, key: GoodsKey, robot: string, quantity: int, state: AllocState)
    requires LedgerInv(db) && CanApprove(db, request, key, robot, quantity) && (state.Completed? || state.Aborted?)
    ensures var d := Settle(Approve(db, request, key, robot, quantity), request, robot, state);
      && d.tasks == db.tasks && d.goods == db.goods && d.log == db.log && d.reports == db.reports
      && d.allocs == db.allocs + [Allocation(request, key.task, key.goods, robot, quantity, state)]
      && (state.Aborted? ==> d.status == db.status)
      && (state.Completed? ==> d.status == db.status[key := db.status[key].(
            completed := db.status[key].completed + quantity, pending := db.status[key].pending - quantity)])
  {
    hide LedgerInv, FindOpen, HasOpen, CanSettle, CanApprove, Approve, Settle, SettledRow;
    ApproveKeepsLedger(db, request, key, robot, quantity);
    ApprovedIsFound(db, request, key, robot, quantity);
    ApprovedIs(db, request, key, robot, quantity);
    var a := Approve(db, request, key, robot, quantity);
    SettleNeverRollsBack(a, request, robot, state);
    SettledIs(a, request, robot, state);
    SettledRowBack(db.status[key], quantity, state);
    assert a.allocs[|db.allocs| := a.allocs[|db.allocs|].(state := state)]
        == db.allocs + [Allocation(request, key.task, key.goods, robot, quantity, state)];
  }

  lemma ApprovedIs(db: Db, request: string, key: GoodsKey, robot: string, quantity: int)
    requires CanApprove(db, request, key, robot, quantity)
    ensures key in db.status
    ensures var row := db.status[key];
      Approve(db, request, key, robot, quantity)
      == db.(status := db.status[key :=
               row.(inProgress := row.inProgress + quantity, pending := row.pending - quantity)],
             allocs := db.allocs + [Allocation(request, key.task, key.goods, robot, quantity, InProgress)])
  {
  }

  lemma SettledIs(db: Db, request: string, robot: string, state: AllocState)
    requires CanSettle(db, request, robot, state)
    ensures var i := FindOpen(db.allocs, request, robot); var a := db.allocs[i];
      Settle(db, request, robot, state)
      == db.(status := db.status[KeyOf(a) := SettledRow(db.status[KeyOf(a)], a.quantity, state)],
             allocs := db.allocs[i := a.(state := state)])
  {
    hide FindOpen, StatusCheck, SettledRow;
  }

  lemma SettledRowBack(row: StatusRow, quantity: int, state: AllocState)
    ensures var taken := row.(inProgress := row.inProgress + quantity, pending := row.pending - quantity);
      SettledRow(taken, quantity, state)
      == if state.Completed? then row.(completed := row.completed + quantity, pending := row.pending - quantity)
         else row
  {
  }
}
