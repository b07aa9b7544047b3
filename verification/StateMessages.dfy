/** The shared state of a task as the Edge publishes it: four totals and one
    entry for each goods item. */
module StateMessages {
  import opened Tables
  import opened Ledger
  import opened TaskRules
  import opened SqliteDb

  datatype StateMessage = StateMessage(
    warehouseId: string, taskId: string, state: TaskState,
    total: int, inProgress: int, completed: int, pending: int, goods: seq<GoodsStatus>)

  function Sum(xs: seq<int>): int {
    if xs == [] then 0 else Sum(xs[..|xs| - 1]) + xs[|xs| - 1]
  }

  // One column of the listed rows.
  function TotalColumn(rows: seq<GoodsStatus>): seq<int> {
    seq(|rows|, i requires 0 <= i < |rows| => rows[i].row.total)
  }

  function InProgressColumn(rows: seq<GoodsStatus>): seq<int> {
    seq(|rows|, i requires 0 <= i < |rows| => rows[i].row.inProgress)
  }

  function CompletedColumn(rows: seq<GoodsStatus>): seq<int> {
    seq(|rows|, i requires 0 <= i < |rows| => rows[i].row.completed)
  }

  function PendingColumn(rows: seq<GoodsStatus>): seq<int> {
    seq(|rows|, i requires 0 <= i < |rows| => rows[i].row.pending)
  }

  // Units of the task in allocations whose state is `state`.
  function UnitsIn(allocs: seq<Allocation>, task: string, state: AllocState): int {
    if allocs == [] then 0
    else
      var a := allocs[|allocs| - 1];
      UnitsIn(allocs[..|allocs| - 1], task, state) + if a.task == task && a.state == state then a.quantity else 0
  }

  // ---- Sums of columns ----------------------------------------------------------

  lemma ColumnsGrow(rows: seq<GoodsStatus>)
    requires rows != []
    ensures var n := |rows| - 1;
      && Sum(TotalColumn(rows)) == Sum(TotalColumn(rows[..n])) + rows[n].row.total
      && Sum(InProgressColumn(rows)) == Sum(InProgressColumn(rows[..n])) + rows[n].row.inProgress
      && Sum(CompletedColumn(rows)) == Sum(CompletedColumn(rows[..n])) + rows[n].row.completed
      && Sum(PendingColumn(rows)) == Sum(PendingColumn(rows[..n])) + rows[n].row.pending
  {
    var n := |rows| - 1;
    assert TotalColumn(rows)[..n] == TotalColumn(rows[..n]);
    assert InProgressColumn(rows)[..n] == InProgressColumn(rows[..n]);
    assert CompletedColumn(rows)[..n] == CompletedColumn(rows[..n]);
    assert PendingColumn(rows)[..n] == PendingColumn(rows[..n]);
  }

  lemma {:induction false} TotalsBalance(rows: seq<GoodsStatus>)
    requires forall i | 0 <= i < |rows| :: StatusCheck(rows[i].row)
    ensures Sum(InProgressColumn(rows)) >= 0 && Sum(CompletedColumn(rows)) >= 0 && Sum(PendingColumn(rows)) >= 0
    ensures Sum(TotalColumn(rows))
         == Sum(InProgressColumn(rows)) + Sum(CompletedColumn(rows)) + Sum(PendingColumn(rows))
    ensures Sum(PendingColumn(rows)) == 0 && Sum(InProgressColumn(rows)) == 0 <==>
            forall i | 0 <= i < |rows| :: rows[i].row.pending == 0 && rows[i].row.inProgress == 0
  {
    if rows != [] {
      ColumnsGrow(rows);
      TotalsBalance(rows[..|rows| - 1]);
      hide Sum;
    }
  }

  /** No running sum of the message's four accumulators ever exceeds the grand
      total, so 32-bit accumulators overflow at no step if the total fits. */
  lemma {:induction false} AccumulatorsStayBelowTotal(rows: seq<GoodsStatus>, i: nat)
    requires i <= |rows| && forall j | 0 <= j < |rows| :: StatusCheck(rows[j].row)
    ensures 0 <= Sum(InProgressColumn(rows[..i])) <= Sum(TotalColumn(rows))
    ensures 0 <= Sum(CompletedColumn(rows[..i])) <= Sum(TotalColumn(rows))
    ensures 0 <= Sum(PendingColumn(rows[..i])) <= Sum(TotalColumn(rows))
    ensures 0 <= Sum(TotalColumn(rows[..i])) <= Sum(TotalColumn(rows))
    decreases |rows|
  {
    if i == |rows| {
      assert rows[..i] == rows;
      TotalsBalance(rows);
    } else {
      var shorter := rows[..|rows| - 1];
      assert rows[..i] == shorter[..i];
      ColumnsGrow(rows);
      AccumulatorsStayBelowTotal(shorter, i);
      hide Sum;
    }
  }

  // ---- What the totals are in the ledger -------------------------------------------

  // The units of `state` that the rows' own allocations hold.
  function HeldColumn(allocs: seq<Allocation>, task: string, rows: seq<GoodsStatus>, state: AllocState): seq<int> {
    seq(|rows|, i requires 0 <= i < |rows| => Held(allocs, GoodsKey(task, rows[i].goodsId), state))
  }

  predicate DistinctRows(rows: seq<GoodsStatus>) {
    forall i, j | 0 <= i < j < |rows| :: rows[i].goodsId != rows[j].goodsId
  }

  lemma {:induction false} SumOfZeros(xs: seq<int>)
    requires forall i | 0 <= i < |xs| :: xs[i] == 0
    ensures Sum(xs) == 0
  {
    if xs != [] {
      SumOfZeros(xs[..|xs| - 1]);
    }
  }

  predicate HasRow(rows: seq<GoodsStatus>, goods: string) {
    exists i :: 0 <= i < |rows| && rows[i].goodsId == goods
  }

  lemma HasRowLast(rows: seq<GoodsStatus>, goods: string)
    requires rows != []
    ensures HasRow(rows, goods) <==> HasRow(rows[..|rows| - 1], goods) || rows[|rows| - 1].goodsId == goods
  {
    assert forall i | 0 <= i < |rows| - 1 :: rows[..|rows| - 1][i] == rows[i];
  }

  lemma HeldColumnLast(allocs: seq<Allocation>, task: string, rows: seq<GoodsStatus>, state: AllocState)
    requires rows != []
    ensures var n := |rows| - 1;
      Sum(HeldColumn(allocs, task, rows, state))
      == Sum(HeldColumn(allocs, task, rows[..n], state)) + Held(allocs, GoodsKey(task, rows[n].goodsId), state)
  {
    hide Held;
    var n := |rows| - 1;
    assert HeldColumn(allocs, task, rows, state)[..n] == HeldColumn(allocs, task, rows[..n], state);
  }

  // Adding an allocation raises exactly its own row's entry.
  lemma {:induction false} HeldColumnGrows(
    allocs: seq<Allocation>, a: Allocation, task: string, rows: seq<GoodsStatus>, state: AllocState)
    requires DistinctRows(rows)
    ensures Sum(HeldColumn(allocs + [a], task, rows, state))
         == Sum(HeldColumn(allocs, task, rows, state))
          + if a.task == task && a.state == state && HasRow(rows, a.goods) then a.quantity else 0
    decreases |rows|
  {
    if rows != [] {
      var n := |rows| - 1;
      HeldColumnGrows(allocs, a, task, rows[..n], state);
      HeldAppend(allocs, a, GoodsKey(task, rows[n].goodsId), state);
      HeldColumnLast(allocs, task, rows, state);
      HeldColumnLast(allocs + [a], task, rows, state);
      HasRowLast(rows, a.goods);
      assert rows[n].goodsId == a.goods ==> !HasRow(rows[..n], a.goods);
      hide Held, HeldColumn, Sum, HasRow, DistinctRows;
    }
  }

  lemma {:induction false} HeldColumnIsUnits(
    allocs: seq<Allocation>, task: string, rows: seq<GoodsStatus>, state: AllocState)
    requires DistinctRows(rows)
    requires forall j | 0 <= j < |allocs| && allocs[j].task == task :: HasRow(rows, allocs[j].goods)
    ensures Sum(HeldColumn(allocs, task, rows, state)) == UnitsIn(allocs, task, state)
    decreases |allocs|
  {
    if allocs == [] {
      SumOfZeros(HeldColumn(allocs, task, rows, state));
    } else {
      hide HasRow, DistinctRows, HeldColumn, Sum;
      var n := |allocs| - 1;
      HeldColumnIsUnits(allocs[..n], task, rows, state);
      assert allocs[..n] + [allocs[n]] == allocs;
      HeldColumnGrows(allocs[..n], allocs[n], task, rows, state);
    }
  }

  /** The total in progress is what the task's open allocations hold, and the
      completed total what its completed ones held. */
  lemma TotalsAreTheLedgers(db: Db, task: string, rows: seq<GoodsStatus>)
    requires LedgerInv(db) && ListsStatusOf(db, task, rows)
    ensures Sum(InProgressColumn(rows)) == UnitsIn(db.allocs, task, InProgress)
    ensures Sum(CompletedColumn(rows)) == UnitsIn(db.allocs, task, Completed)
  {
    forall i | 0 <= i < |rows|
      ensures rows[i].row.inProgress == Held(db.allocs, GoodsKey(task, rows[i].goodsId), InProgress)
      ensures rows[i].row.completed == Held(db.allocs, GoodsKey(task, rows[i].goodsId), Completed)
    {
      RowFacts(db, GoodsKey(task, rows[i].goodsId));
    }
    forall j | 0 <= j < |db.allocs| && db.allocs[j].task == task
      ensures HasRow(rows, db.allocs[j].goods)
    {
      AllocFacts(db, j);
      assert KeyOf(db.allocs[j]).task == task;
    }
    hide LedgerInv, Held;
    HeldColumnIsUnits(db.allocs, task, rows, InProgress);
    HeldColumnIsUnits(db.allocs, task, rows, Completed);
    assert InProgressColumn(rows) == HeldColumn(db.allocs, task, rows, InProgress);
    assert CompletedColumn(rows) == HeldColumn(db.allocs, task, rows, Completed);
  }

  // ---- Reading a listing --------------------------------------------------------------

  ghost predicate NoneOutstanding(rows: seq<GoodsStatus>) {
    forall i | 0 <= i < |rows| :: rows[i].row.pending <= 0 && rows[i].row.inProgress <= 0
  }

  lemma ListedRow(db: Db, task: string, rows: seq<GoodsStatus>, k: GoodsKey) returns (i: nat)
    requires ListsStatusOf(db, task, rows) && k in db.status && k.task == task
    ensures i < |rows| && rows[i].goodsId == k.goods && rows[i].row == db.status[k]
  {
    i :| 0 <= i < |rows| && rows[i].goodsId == k.goods;
    assert k == GoodsKey(task, rows[i].goodsId);
  }

  // The rows of a listing say whether the task is done.
  lemma ListingDecidesDone(db: Db, task: string, rows: seq<GoodsStatus>)
    requires ListsStatusOf(db, task, rows)
    ensures AllDone(db.status, task) <==> rows != [] && NoneOutstanding(rows)
    ensures rows != [] <==> exists k :: k in db.status && k.task == task
  {
    if rows != [] {
      assert GoodsKey(task, rows[0].goodsId) in db.status;
      if NoneOutstanding(rows) {
        forall k | k in db.status && k.task == task
          ensures db.status[k].pending <= 0 && db.status[k].inProgress <= 0
        {
          var i := ListedRow(db, task, rows, k);
        }
      } else {
        var i :| 0 <= i < |rows| && !(rows[i].row.pending <= 0 && rows[i].row.inProgress <= 0);
        var k := GoodsKey(task, rows[i].goodsId);
        assert k in db.status && db.status[k] == rows[i].row;
      }
    } else if k :| k in db.status && k.task == task {
      var i := ListedRow(db, task, rows, k);
      assert false;
    }
  }

  lemma ListedRowsBalance(db: Db, task: string, rows: seq<GoodsStatus>)
    requires LedgerInv(db) && ListsStatusOf(db, task, rows)
    ensures forall i | 0 <= i < |rows| :: StatusCheck(rows[i].row)
  {
    forall i | 0 <= i < |rows| ensures StatusCheck(rows[i].row) {
      RowFacts(db, GoodsKey(task, rows[i].goodsId));
    }
  }

  // Each total is the sum of its own column over the listed rows.
  ghost predicate SumsOwnColumns(m: StateMessage) {
    var rows, n := m.goods, |m.goods|;
    && m.total == Sum(seq(n, i requires 0 <= i < n => rows[i].row.total))
    && m.inProgress == Sum(seq(n, i requires 0 <= i < n => rows[i].row.inProgress))
    && m.completed == Sum(seq(n, i requires 0 <= i < n => rows[i].row.completed))
    && m.pending == Sum(seq(n, i requires 0 <= i < n => rows[i].row.pending))
  }

  // In the ledger they are the units the task's open, and its completed,
  // allocations hold, and what is left.
  ghost predicate SumsLedger(db: Db, m: StateMessage) {
    && m.inProgress == UnitsIn(db.allocs, m.taskId, InProgress)
    && m.completed == UnitsIn(db.allocs, m.taskId, Completed)
    && m.pending == m.total - m.inProgress - m.completed
    && m.inProgress >= 0 && m.completed >= 0 && m.pending >= 0
    && (m.completed == m.total <==>
          forall k | k in db.status && k.task == m.taskId :: db.status[k].pending == 0 && db.status[k].inProgress == 0)
  }

  // The published state of a task is that of the database at that moment.
  ghost predicate TellsState(db: Db, task: string, state: Option<StateMessage>) {
    && (state.Some? <==> task in db.tasks && exists k :: k in db.status && k.task == task)
    && (state.Some? ==>
          && state.value.taskId == task && state.value.warehouseId == db.tasks[task].warehouseId
          && state.value.state == db.tasks[task].state
          && ListsStatusOf(db, task, state.value.goods)
          && SumsOwnColumns(state.value) && SumsLedger(db, state.value))
  }

  // A message made of the task's rows and the sums of their columns tells its state.
  lemma ColumnsTellState(db: Db, m: StateMessage)
    requires LedgerInv(db) && m.taskId in db.tasks && m.goods != []
    requires m.warehouseId == db.tasks[m.taskId].warehouseId && m.state == db.tasks[m.taskId].state
    requires ListsStatusOf(db, m.taskId, m.goods)
    requires m.total == Sum(TotalColumn(m.goods)) && m.inProgress == Sum(InProgressColumn(m.goods))
    requires m.completed == Sum(CompletedColumn(m.goods)) && m.pending == Sum(PendingColumn(m.goods))
    ensures TellsState(db, m.taskId, Some(m))
  {
    hide LedgerInv, UnitsIn, Sum, ListsStatusOf, TotalColumn, InProgressColumn, CompletedColumn, PendingColumn;
    TotalsAreTheLedgers(db, m.taskId, m.goods);
    ListedRowsBalance(db, m.taskId, m.goods);
    TotalsBalance(m.goods);
    hide StatusCheck;
    ListingDecidesDone(db, m.taskId, m.goods);
    hide AllDone;
    ColumnsSpelled(m.goods);
    ListedZero(db, m.taskId, m.goods);
  }

  // A task without a row or without goods has no message.
  lemma TellingMeans(db: Db, task: string)
    requires LedgerInv(db)
    ensures !(task in db.tasks && exists k :: k in db.status && k.task == task) ==> TellsState(db, task, None)
    ensures forall m | TellsState(db, task, Some(m)) && SucceededSound(db) && m.state == Succeeded ::
      m.completed == m.total
  {
    if SucceededSound(db) && task in db.tasks && db.tasks[task].state == Succeeded {
      forall k | k in db.status && k.task == task
        ensures db.status[k].pending == 0 && db.status[k].inProgress == 0
      {
        RowFacts(db, k);
      }
    }
    hide ListsStatusOf, SumsOwnColumns, LedgerInv, SucceededSound;
  }

  lemma NoColumns(rows: seq<GoodsStatus>)
    requires rows == []
    ensures Sum(TotalColumn(rows)) == 0 && Sum(InProgressColumn(rows)) == 0
    ensures Sum(CompletedColumn(rows)) == 0 && Sum(PendingColumn(rows)) == 0
  {
  }

  lemma ListedZero(db: Db, task: string, rows: seq<GoodsStatus>)
    requires ListsStatusOf(db, task, rows)
    ensures (forall i | 0 <= i < |rows| :: rows[i].row.pending == 0 && rows[i].row.inProgress == 0) <==>
            (forall k | k in db.status && k.task == task :: db.status[k].pending == 0 && db.status[k].inProgress == 0)
  {
    if forall i | 0 <= i < |rows| :: rows[i].row.pending == 0 && rows[i].row.inProgress == 0 {
      forall k | k in db.status && k.task == task
        ensures db.status[k].pending == 0 && db.status[k].inProgress == 0
      {
        var i := ListedRow(db, task, rows, k);
      }
    }
  }

  lemma ColumnsSpelled(rows: seq<GoodsStatus>)
    ensures TotalColumn(rows) == seq(|rows|, i requires 0 <= i < |rows| => rows[i].row.total)
    ensures InProgressColumn(rows) == seq(|rows|, i requires 0 <= i < |rows| => rows[i].row.inProgress)
    ensures CompletedColumn(rows) == seq(|rows|, i requires 0 <= i < |rows| => rows[i].row.completed)
    ensures PendingColumn(rows) == seq(|rows|, i requires 0 <= i < |rows| => rows[i].row.pending)
  {
  }
}
