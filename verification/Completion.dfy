/** Which tasks can still become SUCCEEDED, and how. */
module Completion {
  import opened Tables
  import opened Ledger
  import opened TaskRules
  import opened TaskLifecycle
  import opened Allocations
  import opened Settlement
  import opened Announcements

  // ---- One allocation --------------------------------------------------------

  ghost predicate ChangedBy(db: Db, e: AmrEvent, i: nat)
    requires i < |db.allocs|
  {
    i < |Report(db, e).allocs| && Report(db, e).allocs[i] != db.allocs[i]
  }

  function Completes(a: Allocation): AmrEvent {
    AmrEvent("", a.task, a.robot, CarryCompleted, "", a.request, "", "", "")
  }

  /** An open allocation has a report that settles it exactly when its request
      has an id. */
  lemma OpenCanBeSettledExactly(db: Db, i: nat)
    requires LedgerInv(db) && i < |db.allocs| && db.allocs[i].state.InProgress?
    ensures (exists e :: ChangedBy(db, e, i)) <==> db.allocs[i].request != ""
  {
    hide LedgerInv, Report;
    forall e ensures ChangedBy(db, e, i) ==> db.allocs[i].request != "" {
      ReportDecidesFate(db, e, i);
    }
    ReportDecidesFate(db, Completes(db.allocs[i]), i);
    assert db.allocs[i].request != "" ==> ChangedBy(db, Completes(db.allocs[i]), i);
  }

  // ---- Names ------------------------------------------------------------------

  // Tasks and goods that the service creates have ids.
  ghost predicate Named(db: Db) {
    "" !in db.tasks && forall k | k in db.status :: k.goods != ""
  }

  lemma CreateKeepsNamed(db: Db, t: TransportTask, warehouse: string)
    requires Named(db)
    ensures Named(Create(db, t, warehouse))
  {
    if CreateCode(db, t) == 0 {
      forall k: GoodsKey ensures k in StatusRows(t.taskId, t.goods) ==> k.goods != "" {
        InsertedKeys(t.taskId, t.goods, k);
      }
    }
  }

  lemma StepKeepsNamed(db: Db, s: Step)
    requires Named(db)
    ensures Named(Do(db, s))
  {
    hide Create, Apply, Report, Heartbeat;
    match s
    case StepCreate(t, warehouse) => CreateKeepsNamed(db, t, warehouse);
    case StepCancel(_) =>
    case StepApply(req) => ApplyKeepsKeys(db, req);
    case StepReport(e) => ReportSettles(db, e);
    case StepHeartbeat(order, healthy) => HeartbeatKeepsStatus(db, order, healthy);
  }

  lemma ApplyKeepsKeys(db: Db, req: ApplyRequest)
    ensures var d := Apply(db, req).0; d.tasks.Keys == db.tasks.Keys && d.status.Keys == db.status.Keys
  {
    ApplyExactly(db, req);
    ApproveGoodsKeepsTasks(db, req.request, req.task, req.robot, req.goods);
    hide ApproveGoods;
  }

  lemma {:induction false} RunKeepsNamed(db: Db, steps: seq<Step>)
    requires Named(db)
    ensures Named(DoAll(db, steps))
    decreases |steps|
  {
    hide Do, Named;
    if steps != [] {
      StepKeepsNamed(db, steps[0]);
      RunKeepsNamed(Do(db, steps[0]), steps[1..]);
    }
  }

  // ---- What is left to do -------------------------------------------------------

  predicate OpenOf(a: Allocation, task: string) { a.task == task && a.state.InProgress? }

  function OpenCount(allocs: seq<Allocation>, task: string): nat {
    if allocs == [] then 0
    else OpenCount(allocs[..|allocs| - 1], task) + if OpenOf(allocs[|allocs| - 1], task) then 1 else 0
  }

  function PendingKeys(status: map<GoodsKey, StatusRow>, task: string): set<GoodsKey> {
    set k | k in status && k.task == task && status[k].pending > 0
  }

  predicate HasUsableRobot(db: Db, task: string)
    requires task in db.tasks
  {
    exists r :: r in db.tasks[task].robotIds && r != ""
  }

  lemma {:induction false} OpenCountFalls(allocs: seq<Allocation>, i: nat, task: string)
    requires i < |allocs| && OpenOf(allocs[i], task)
    ensures OpenCount(allocs[i := allocs[i].(state := Completed)], task) == OpenCount(allocs, task) - 1
  {
    var n := |allocs| - 1;
    var after := allocs[i := allocs[i].(state := Completed)];
    if i == n {
      assert after[..n] == allocs[..n];
    } else {
      OpenCountFalls(allocs[..n], i, task);
      assert after[..n] == allocs[..n][i := allocs[i].(state := Completed)];
    }
  }

  lemma {:induction false} NoneOpenNoneHeld(allocs: seq<Allocation>, key: GoodsKey)
    requires forall i | 0 <= i < |allocs| :: !OpenOf(allocs[i], key.task)
    ensures Held(allocs, key, InProgress) == 0
  {
    if allocs != [] {
      NoneOpenNoneHeld(allocs[..|allocs| - 1], key);
    }
  }

  // With no open allocation and nothing pending a task is done.
  lemma NothingLeftIsDone(db: Db, task: string)
    requires Safe(db) && task in db.tasks && PendingKeys(db.status, task) == {}
    requires forall i | 0 <= i < |db.allocs| :: !OpenOf(db.allocs[i], task)
    ensures AllDone(db.status, task)
  {
    var k :| k in db.status && k.task == task;
    hide LedgerInv;
    forall k | k in db.status && k.task == task
      ensures db.status[k].pending <= 0 && db.status[k].inProgress <= 0
    {
      RowFacts(db, k);
      NoneOpenNoneHeld(db.allocs, k);
      assert db.status[k].pending > 0 ==> k in PendingKeys(db.status, task);
    }
  }

  // ---- The two steps -------------------------------------------------------------

  // Settling one open allocation as completed moves nothing in or out of pending.
  lemma SettleOneRow(db: Db, i: nat)
    requires LedgerInv(db) && i < |db.allocs| && db.allocs[i].state.InProgress?
    ensures var a := db.allocs[i]; var s := Settle(db, a.request, a.robot, Completed);
      && CanSettle(db, a.request, a.robot, Completed)
      && s.allocs == db.allocs[i := a.(state := Completed)] && s.tasks == db.tasks
      && PendingKeys(s.status, a.task) == PendingKeys(db.status, a.task)
  {
    var a := db.allocs[i];
    FoundOpen(db, i);
    SettleNeverRollsBack(db, a.request, a.robot, Completed);
    AllocFacts(db, i);
    hide LedgerInv, CanSettle, FindOpen, HasOpen;
    var s := Settle(db, a.request, a.robot, Completed);
    assert s.status == db.status[KeyOf(a) := SettledRow(db.status[KeyOf(a)], a.quantity, Completed)];
    assert s.status[KeyOf(a)].pending == db.status[KeyOf(a)].pending;
  }

  // Completing one open allocation of the task.
  lemma SettleOne(db: Db, i: nat, task: string)
    requires Safe(db) && i < |db.allocs| && OpenOf(db.allocs[i], task) && db.allocs[i].request != ""
    ensures var e := Completes(db.allocs[i]); var d := Report(db, e);
      && NamesOwnTask(db, StepReport(e)) && Safe(d)
      && d.allocs == db.allocs[i := db.allocs[i].(state := Completed)]
      && PendingKeys(d.status, task) == PendingKeys(db.status, task)
      && task in db.tasks && task in d.tasks && d.tasks[task].robotIds == db.tasks[task].robotIds
      && (AllDone(d.status, task) ==> d.tasks[task].state.Succeeded?)
  {
    var e := Completes(db.allocs[i]);
    ReportKeeps(db, e);
    SafeParts(db);
    hide Safe, SucceededSound, AllocsAssigned;
    FoundOpen(db, i);
    AllocFacts(db, i);
    RecordOnly(db, e);
    var r := RecordReport(db, e);
    SettleOneRow(r, i);
    hide LedgerInv, RecordReport, CanSettle, FindOpen, HasOpen, Settle, PendingKeys, AllDone, Completes;
    CompletionReacts(r, e, task);
  }

  lemma CompletionReacts(db: Db, e: AmrEvent, task: string)
    requires e.eventType.CarryCompleted? && e.request != "" && CanSettle(db, e.request, e.robot, Completed)
    requires e.task == task && task in Settle(db, e.request, e.robot, Completed).tasks
    ensures var s := Settle(db, e.request, e.robot, Completed); var d := React(db, e);
      && d.allocs == s.allocs && d.status == s.status
      && task in d.tasks && d.tasks[task].robotIds == s.tasks[task].robotIds
      && (AllDone(d.status, task) ==> d.tasks[task].state.Succeeded?)
  {
    hide Settle, CanSettle, AllDone;
  }

  function AsksForAll(db: Db, k: GoodsKey, robot: string, request: string): ApplyRequest
    requires k in db.status
  {
    ApplyRequest(request, k.task, robot, [TaskGoods(k.goods, "", db.status[k].pending)])
  }

  // Approving everything that is pending of one goods item.
  lemma ApproveAllOfOne(db: Db, k: GoodsKey, robot: string, request: string)
    requires LedgerInv(db) && k in PendingKeys(db.status, k.task) && !Allocated(db.allocs, request, robot)
    ensures var d := Approve(db, request, k, robot, db.status[k].pending);
      && CanApprove(db, request, k, robot, db.status[k].pending)
      && d.allocs == db.allocs + [Allocation(request, k.task, k.goods, robot, db.status[k].pending, InProgress)]
      && PendingKeys(d.status, k.task) < PendingKeys(db.status, k.task)
      && k in d.status && d.status[k].inProgress > 0
  {
    RowFacts(db, k);
    hide LedgerInv, Allocated;
    var d := Approve(db, request, k, robot, db.status[k].pending);
    assert d.status[k].pending == 0;
    assert k !in PendingKeys(d.status, k.task);
  }

  lemma AsksForAllIsValid(db: Db, k: GoodsKey, robot: string, request: string)
    requires Named(db) && k in db.status && db.status[k].pending > 0
    requires k.task in db.tasks && robot in db.tasks[k.task].robotIds && robot != ""
    ensures ApplyRefusal(db, AsksForAll(db, k, robot, request)).None?
  {
  }

  lemma AppliedKeepsRobots(db: Db, req: ApplyRequest)
    requires req.task in db.tasks
    ensures var d := Apply(db, req).0;
      req.task in d.tasks && d.tasks[req.task].robotIds == db.tasks[req.task].robotIds
  {
    ApproveGoodsKeepsTasks(db, req.request, req.task, req.robot, req.goods);
    hide ApproveGoods, ApplyRefusal;
  }

  // Applying for everything that is pending of one goods item.
  lemma ApplyForOne(db: Db, k: GoodsKey, robot: string, request: string)
    requires Safe(db) && Named(db) && k.task in db.tasks && k in PendingKeys(db.status, k.task)
    requires robot in db.tasks[k.task].robotIds && robot != "" && !Allocated(db.allocs, request, robot)
    ensures var d := Apply(db, AsksForAll(db, k, robot, request)).0;
      && Safe(d)
      && d.allocs == db.allocs + [Allocation(request, k.task, k.goods, robot, db.status[k].pending, InProgress)]
      && PendingKeys(d.status, k.task) < PendingKeys(db.status, k.task)
      && k.task in d.tasks && d.tasks[k.task].robotIds == db.tasks[k.task].robotIds
      && !AllDone(d.status, k.task)
  {
    hide Safe, LedgerInv, SucceededSound, AllocsAssigned, Named, AllDone, ApproveGoods, CanApprove, ApplyRefusal;
    hide Approve, Apply, Allocated;
    var req := AsksForAll(db, k, robot, request);
    AsksForAllIsValid(db, k, robot, request);
    hide PendingKeys;
    ApplyKeeps(db, req);
    SafeParts(db);
    ApproveAllOfOne(db, k, robot, request);
    assert FirstApprovable(db, req);
    ApplyExactly(db, req);
    AppliedKeepsRobots(db, req);
    OutstandingIsNotDone(Apply(db, req).0.status, k);
  }

  lemma OutstandingIsNotDone(status: map<GoodsKey, StatusRow>, k: GoodsKey)
    requires k in status && (status[k].inProgress > 0 || status[k].pending > 0)
    ensures !AllDone(status, k.task)
  {
  }

  function LongerThanAll(allocs: seq<Allocation>): (n: nat)
    ensures forall i | 0 <= i < |allocs| :: |allocs[i].request| < n
    ensures n > 0
  {
    if allocs == [] then 1
    else
      var n := LongerThanAll(allocs[..|allocs| - 1]);
      if |allocs[|allocs| - 1].request| < n then n else |allocs[|allocs| - 1].request| + 1
  }

  function FreshRequest(allocs: seq<Allocation>): (request: string)
    ensures request != "" && forall robot :: !Allocated(allocs, request, robot)
  {
    var n := LongerThanAll(allocs);
    var request: string := seq(n, _ => 'x');
    assert |request| == n;
    request
  }

  // ---- Driving a task to SUCCEEDED ---------------------------------------------------

  ghost predicate Succeeds(db: Db, steps: seq<Step>, task: string) {
    && AllNameOwnTask(db, steps)
    && task in DoAll(db, steps).tasks && DoAll(db, steps).tasks[task].state.Succeeded?
  }

  lemma SucceedsLater(db: Db, s: Step, rest: seq<Step>, task: string)
    requires NamesOwnTask(db, s) && Succeeds(Do(db, s), rest, task)
    ensures Succeeds(db, [s] + rest, task)
  {
    hide Do, NamesOwnTask;
    assert ([s] + rest)[1..] == rest;
  }

  // Completes what is in progress, then applies for what is pending, item by item.
  lemma DriveToSuccess(db: Db, task: string, robot: string) returns (steps: seq<Step>)
    requires Safe(db) && Named(db) && task in db.tasks
    requires !AllDone(db.status, task) && !HeldWithoutId(db.allocs, task)
    requires PendingKeys(db.status, task) != {} ==> robot in db.tasks[task].robotIds && robot != ""
    ensures Succeeds(db, steps, task)
    decreases PendingKeys(db.status, task), OpenCount(db.allocs, task)
  {
    hide Safe, Named, AllDone, NamesOwnTask, Succeeds, Report, Apply, PendingKeys;
    if i: nat :| i < |db.allocs| && OpenOf(db.allocs[i], task) {
      var s := StepReport(Completes(db.allocs[i]));
      SettleOne(db, i, task);
      OpenCountFalls(db.allocs, i, task);
      StepKeepsNamed(db, s);
      var d := Do(db, s);
      var rest := [];
      if AllDone(d.status, task) {
        NothingMore(d, task);
      } else {
        rest := DriveToSuccess(d, task, robot);
      }
      SucceedsLater(db, s, rest, task);
      steps := [s] + rest;
    } else if PendingKeys(db.status, task) != {} {
      var k := APendingKey(db, task);
      var request := FreshRequest(db.allocs);
      var s := StepApply(AsksForAll(db, k, robot, request));
      ApplyForOne(db, k, robot, request);
      StepKeepsNamed(db, s);
      ApplyNamesOwn(db, s);
      var rest := DriveToSuccess(Do(db, s), task, robot);
      SucceedsLater(db, s, rest, task);
      steps := [s] + rest;
    } else {
      NothingLeftIsDone(db, task);
      steps := [];
    }
  }

  lemma NothingMore(db: Db, task: string)
    requires task in db.tasks && db.tasks[task].state.Succeeded?
    ensures Succeeds(db, [], task)
  {
  }

  lemma ApplyNamesOwn(db: Db, s: Step)
    requires s.StepApply?
    ensures NamesOwnTask(db, s)
  {
  }

  lemma APendingKey(db: Db, task: string) returns (k: GoodsKey)
    requires PendingKeys(db.status, task) != {}
    ensures k in PendingKeys(db.status, task) && k in db.status && k.task == task
  {
    k :| k in PendingKeys(db.status, task);
  }

  // ---- What can never succeed ----------------------------------------------------------

  lemma {:induction false} RunKeepsRobots(db: Db, calls: seq<Call>, task: string)
    requires task in db.tasks
    ensures var d := ExecAll(db, calls); task in d.tasks && d.tasks[task].robotIds == db.tasks[task].robotIds
    decreases |calls|
  {
    if calls != [] {
      CallKeepsRobots(db, calls[0]);
      hide Exec;
      RunKeepsRobots(Exec(db, calls[0]), calls[1..], task);
    }
  }

  // Without a usable robot nothing of the task is ever applied for.
  lemma StepKeepsPending(db: Db, s: Step, k: GoodsKey)
    requires LedgerInv(db) && k in db.status && k.task in db.tasks && !HasUsableRobot(db, k.task)
    ensures k in Do(db, s).status && Do(db, s).status[k].pending >= db.status[k].pending
  {
    hide LedgerInv, Create, Apply, Report, Heartbeat;
    match s
    case StepCreate(t, warehouse) => CreateKeepsPending(db, t, warehouse, k);
    case StepCancel(_) =>
    case StepApply(req) =>
      if req.robot == "" {
        NamelessIsRefused(db, req);
      } else {
        assert req.robot !in db.tasks[k.task].robotIds;
        UnassignedApplyMovesNothing(db, req, k.task, k);
      }
    case StepReport(e) => ReportKeepsPending(db, e, k);
    case StepHeartbeat(order, healthy) => HeartbeatKeepsStatus(db, order, healthy);
  }

  lemma NamelessIsRefused(db: Db, req: ApplyRequest)
    requires req.robot == ""
    ensures Apply(db, req).0 == db
  {
    hide ApproveGoods;
  }

  lemma CreateKeepsPending(db: Db, t: TransportTask, warehouse: string, k: GoodsKey)
    requires LedgerInv(db) && k in db.status && k.task in db.tasks
    ensures k in Create(db, t, warehouse).status && Create(db, t, warehouse).status[k] == db.status[k]
  {
    var p := Prepared(t, warehouse);
    if CreateCode(db, t) == 0 && CanCreate(db, p) {
      CreateOpensLedger(db, p);
    }
    hide LedgerInv;
  }

  lemma ReportKeepsPending(db: Db, e: AmrEvent, k: GoodsKey)
    requires LedgerInv(db) && k in db.status
    ensures k in Report(db, e).status && Report(db, e).status[k].pending >= db.status[k].pending
  {
    RecordOnly(db, e);
    var r := RecordReport(db, e);
    if CanCarry(r, e) {
      AllocFacts(r, FindOpen(r.allocs, e.request, e.robot));
    }
    hide LedgerInv, RecordReport, AllDone, StatusCheck;
  }

  lemma {:induction false} PendingForEver(db: Db, steps: seq<Step>, k: GoodsKey)
    requires Safe(db) && k in db.status && k.task in db.tasks && !HasUsableRobot(db, k.task)
    requires db.status[k].pending > 0
    ensures var d := DoAll(db, steps); k.task in d.tasks && !d.tasks[k.task].state.Succeeded?
    decreases |steps|
  {
    hide Safe, LedgerInv, Do, AllDone;
    SafeParts(db);
    if steps == [] {
      OutstandingIsNotDone(db.status, k);
    } else {
      StepKeeps(db, steps[0]);
      StepKeepsPending(db, steps[0], k);
      var calls := StepIsCalls(db, steps[0]);
      RunKeepsRobots(db, calls, k.task);
      PendingForEver(Do(db, steps[0]), steps[1..], k);
    }
  }

  lemma HeldForEver(db: Db, steps: seq<Step>, task: string)
    requires Safe(db) && HeldWithoutId(db.allocs, task)
    ensures var d := DoAll(db, steps); task in d.tasks && !d.tasks[task].state.Succeeded?
  {
    RunKeepsHeldWithoutId(db, steps, task);
    RunKeeps(db, steps);
    var d := DoAll(db, steps);
    hide DoAll;
    var i :| 0 <= i < |d.allocs| && d.allocs[i].request == "" && d.allocs[i].task == task
          && d.allocs[i].state.InProgress?;
    SafeParts(d);
    hide Safe;
    AllocFacts(d, i);
  }

  // ---- Exactly which tasks can succeed ---------------------------------------------------

  ghost predicate CanSucceed(db: Db, task: string)
    requires task in db.tasks
  {
    && !AllDone(db.status, task)
    && !HeldWithoutId(db.allocs, task)
    && (PendingKeys(db.status, task) == {} || HasUsableRobot(db, task))
  }

  /** In every reachable state, a task that is not SUCCEEDED, whatever its state,
      can be brought there by some run whose carry reports name their own task
      exactly when it is not already completed, none of its units is held under
      an empty request id, and something is left for a robot with an id to do or
      nothing is pending. */
  lemma CanSucceedExactly(before: seq<Step>, task: string)
    requires var db := DoAll(EMPTY, before); task in db.tasks && !db.tasks[task].state.Succeeded?
    ensures var db := DoAll(EMPTY, before);
      (exists steps :: Succeeds(db, steps, task)) <==> CanSucceed(db, task)
  {
    var db := DoAll(EMPTY, before);
    EmptyIsSafe();
    RunKeeps(EMPTY, before);
    RunKeepsNamed(EMPTY, before);
    hide Safe, DoAll, AllDone, HeldWithoutId, PendingKeys, AllNameOwnTask;
    if CanSucceed(db, task) {
      var robot := "";
      if PendingKeys(db.status, task) != {} {
        robot :| robot in db.tasks[task].robotIds && robot != "";
      }
      var steps := DriveToSuccess(db, task, robot);
    } else {
      forall steps ensures !Succeeds(db, steps, task) {
        CannotSucceed(db, steps, task);
      }
    }
  }

  lemma CannotSucceed(db: Db, steps: seq<Step>, task: string)
    requires Safe(db) && task in db.tasks && !db.tasks[task].state.Succeeded? && !CanSucceed(db, task)
    ensures !Succeeds(db, steps, task)
  {
    hide Safe, DoAll, AllDone, HeldWithoutId, PendingKeys, AllNameOwnTask, EveryUnitCompleted;
    if AllNameOwnTask(db, steps) {
      if AllDone(db.status, task) {
        UnannouncedStaysUnannounced(db, steps, task);
      } else if HeldWithoutId(db.allocs, task) {
        HeldForEver(db, steps, task);
      } else {
        var k := APendingKey(db, task);
        PendingIsPositive(db, k);
        PendingForEver(db, steps, k);
      }
    }
  }

  lemma PendingIsPositive(db: Db, k: GoodsKey)
    requires k in PendingKeys(db.status, k.task)
    ensures k in db.status && db.status[k].pending > 0
  {
  }
}
