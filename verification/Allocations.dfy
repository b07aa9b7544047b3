/** The life of an allocation: approved once, settled once, and final after
    that, whatever calls and operations follow. */
module Allocations {
  import opened Tables
  import opened Ledger
  import opened TaskRules
  import opened TaskLifecycle

  // ---- Operations are runs of database calls -------------------------------

  lemma {:induction false} ExecAppend(db: Db, a: seq<Call>, b: seq<Call>)
    ensures ExecAll(db, a + b) == ExecAll(ExecAll(db, a), b)
    decreases |a|
  {
    hide Exec;
    if a == [] {
      assert a + b == b;
    } else {
      assert (a + b)[1..] == a[1..] + b;
      ExecAppend(Exec(db, a[0]), a[1..], b);
    }
  }

  lemma ExecOne(db: Db, c: Call)
    ensures ExecAll(db, [c]) == Exec(db, c)
  {
    hide Exec;
    assert [c][1..] == [];
  }

  lemma {:induction false} ApproveGoodsIsCalls(
    db: Db, request: string, task: string, robot: string, goods: seq<TaskGoods>) returns (calls: seq<Call>)
    ensures ApproveGoods(db, request, task, robot, goods).0 == ExecAll(db, calls)
    decreases |goods|
  {
    calls := [];
    if goods != [] {
      var c := CallApprove(request, GoodsKey(task, goods[0].goodsId), robot, goods[0].quantity);
      if CanApprove(db, request, c.key, robot, goods[0].quantity) {
        var rest := ApproveGoodsIsCalls(Exec(db, c), request, task, robot, goods[1..]);
        ExecOne(db, c);
        ExecAppend(db, [c], rest);
        calls := [c] + rest;
      }
    }
  }

  lemma {:induction false} HeartbeatIsCalls(db: Db, order: seq<string>, healthy: set<string>) returns (calls: seq<Call>)
    ensures Heartbeat(db, order, healthy) == ExecAll(db, calls)
    decreases |order|
  {
    calls := [];
    if order != [] {
      var c := CallSetStateLogged(order[0], Interrupted, "ALL_AMRS_ABNORMAL", "TIMEOUT");
      if ShouldInterrupt(db, order[0], healthy) {
        calls := HeartbeatIsCalls(Exec(db, c), order[1..], healthy);
        ExecOne(db, c);
        ExecAppend(db, [c], calls);
        calls := [c] + calls;
      } else {
        calls := HeartbeatIsCalls(db, order[1..], healthy);
      }
    }
  }

  lemma ApplyIsCalls(db: Db, req: ApplyRequest) returns (calls: seq<Call>)
    ensures Apply(db, req).0 == ExecAll(db, calls)
  {
    calls := [];
    if ApplyRefusal(db, req).None? {
      calls := ApproveGoodsIsCalls(db, req.request, req.task, req.robot, req.goods);
      var d := ExecAll(db, calls);
      if Apply(db, req).0 != d {
        var c := CallSetStateLogged(req.task, Running, "first goods approved", "EDGE");
        ExecOne(d, c);
        ExecAppend(db, calls, [c]);
        calls := calls + [c];
      }
    }
  }

  lemma ReactIsCalls(db: Db, e: AmrEvent) returns (calls: seq<Call>)
    ensures React(db, e) == ExecAll(db, calls)
  {
    calls := [];
    if CanCarry(db, e) {
      var c := CallSettle(e.request, e.robot, Outcome(e));
      var s := Exec(db, c);
      ExecOne(db, c);
      calls := [c];
      if React(db, e) != s {
        var w := CallSetStateLogged(e.task, Succeeded, "all goods completed", "AMR");
        ExecOne(s, w);
        ExecAppend(db, calls, [w]);
        calls := calls + [w];
      }
    } else if React(db, e) != db {
      var w := CallSetStateLogged(e.task, Accepted, "first AMR accepted", "AMR");
      ExecOne(db, w);
      calls := [w];
    }
  }

  /** Every operation of TaskService and of the heartbeat acts on the database
      through public calls only, so what holds of every run of calls holds of
      every run of operations. */
  lemma StepIsCalls(db: Db, s: Step) returns (calls: seq<Call>)
    ensures Do(db, s) == ExecAll(db, calls)
  {
    match s
    case StepCreate(t, warehouse) =>
      calls := if CreateCode(db, t) == 0 then [CallCreate(Prepared(t, warehouse))] else [];
      ExecOne(db, CallCreate(Prepared(t, warehouse)));
    case StepCancel(task) =>
      calls := if CancelCode(db, task) == 0 then [CallSetState(task, Cancelled, CANCELLED_BY_API)] else [];
      ExecOne(db, CallSetState(task, Cancelled, CANCELLED_BY_API));
    case StepApply(req) => calls := ApplyIsCalls(db, req);
    case StepReport(e) =>
      calls := ReactIsCalls(RecordReport(db, e), e);
      ExecOne(db, CallRecord(e));
      ExecAppend(db, [CallRecord(e)], calls);
      calls := [CallRecord(e)] + calls;
    case StepHeartbeat(order, healthy) => calls := HeartbeatIsCalls(db, order, healthy);
  }

  lemma {:induction false} RunIsCalls(db: Db, steps: seq<Step>) returns (calls: seq<Call>)
    ensures DoAll(db, steps) == ExecAll(db, calls)
    decreases |steps|
  {
    hide Do, Exec;
    calls := [];
    if steps != [] {
      calls := StepIsCalls(db, steps[0]);
      var rest := RunIsCalls(Do(db, steps[0]), steps[1..]);
      ExecAppend(db, calls, rest);
      calls := calls + rest;
    }
  }

  // ---- Allocations are settled once ----------------------------------------

  // What may become of an allocation row: nothing, or one settlement.
  predicate Ages(a: Allocation, b: Allocation) {
    a == b || (a.state.InProgress? && (b == a.(state := Completed) || b == a.(state := Aborted)))
  }

  predicate Extends(a: seq<Allocation>, b: seq<Allocation>) {
    |a| <= |b| && forall i | 0 <= i < |a| :: Ages(a[i], b[i])
  }

  lemma {:induction false} RunExtends(db: Db, calls: seq<Call>)
    ensures Extends(db.allocs, ExecAll(db, calls).allocs)
    decreases |calls|
  {
    if calls != [] {
      assert Extends(db.allocs, Exec(db, calls[0]).allocs);
      hide Exec;
      RunExtends(Exec(db, calls[0]), calls[1..]);
    }
  }

  /** Once an allocation is settled it never changes again, in any run of calls. */
  lemma SettledIsFinal(db: Db, calls: seq<Call>, i: nat)
    requires i < |db.allocs| && !db.allocs[i].state.InProgress?
    ensures i < |ExecAll(db, calls).allocs| && ExecAll(db, calls).allocs[i] == db.allocs[i]
  {
    RunExtends(db, calls);
  }

  // The request's allocation exists and is settled.
  predicate IsSettled(allocs: seq<Allocation>, request: string, robot: string) {
    Allocated(allocs, request, robot) && !HasOpen(allocs, request, robot)
  }

  lemma SettledStaysSettled(db: Db, calls: seq<Call>, request: string, robot: string)
    requires LedgerInv(db) && IsSettled(db.allocs, request, robot)
    ensures IsSettled(ExecAll(db, calls).allocs, request, robot)
  {
    RunKeepsLedger(db, calls);
    RunExtends(db, calls);
    var d := ExecAll(db, calls);
    hide ExecAll;
    var i :| 0 <= i < |db.allocs| && db.allocs[i].request == request && db.allocs[i].robot == robot;
    assert !IsOpen(db.allocs[i], request, robot);
    assert d.allocs[i] == db.allocs[i];
  }

  /** Any later carry report for a settled request and robot, anywhere in any
      run, leaves the ledger, the tasks and the audit log unchanged. */
  lemma LateReportChangesNothing(db: Db, steps: seq<Step>, e: AmrEvent)
    requires LedgerInv(db) && IsSettled(db.allocs, e.request, e.robot) && IsCarry(e)
    ensures var d := DoAll(db, steps);
      Report(d, e) == d.(reports := Report(d, e).reports)
  {
    var calls := RunIsCalls(db, steps);
    SettledStaysSettled(db, calls, e.request, e.robot);
    hide DoAll;
  }

  // ---- Applying for goods ----------------------------------------------------

  // The loop over the goods approves the first item or nothing: a second item
  // meets UNIQUE(request_id, robot_id).
  lemma ApproveGoodsExactly(db: Db, request: string, task: string, robot: string, goods: seq<TaskGoods>)
    requires goods != []
    ensures var key := GoodsKey(task, goods[0].goodsId);
      && ApproveGoods(db, request, task, robot, goods).0 == Approve(db, request, key, robot, goods[0].quantity)
      && (ApproveGoods(db, request, task, robot, goods).1
          <==> CanApprove(db, request, key, robot, goods[0].quantity) && |goods| == 1)
  {
    var key := GoodsKey(task, goods[0].goodsId);
    var d := Approve(db, request, key, robot, goods[0].quantity);
    if CanApprove(db, request, key, robot, goods[0].quantity) {
      assert d.allocs[|db.allocs|].request == request;
      assert Allocated(d.allocs, request, robot);
      hide Approve;
      if |goods| == 1 {
        assert goods[1..] == [];
        assert ApproveGoods(d, request, task, robot, []) == (d, true);
      } else {
        assert ApproveGoods(d, request, task, robot, goods[1..]) == (d, false);
      }
    }
  }

  // What the first goods item of a request asks for is available to it.
  predicate FirstApprovable(db: Db, req: ApplyRequest) {
    && ApplyRefusal(db, req).None?
    && CanApprove(db, req.request, GoodsKey(req.task, req.goods[0].goodsId), req.robot, req.goods[0].quantity)
  }

  /** An apply is accepted exactly when it asks for one goods item and that item
      can be approved; the ledger moves exactly when the first item can, so a
      request for several items is refused after its first item is committed. */
  lemma ApplyExactly(db: Db, req: ApplyRequest)
    ensures var (d, result) := Apply(db, req);
      && (result.accepted <==> FirstApprovable(db, req) && |req.goods| == 1)
      && (d.allocs == db.allocs <==> !FirstApprovable(db, req))
      && (d.status == db.status <== !FirstApprovable(db, req))
      && (FirstApprovable(db, req) ==>
            var a := Approve(db, req.request, GoodsKey(req.task, req.goods[0].goodsId), req.robot,
                             req.goods[0].quantity);
            d.status == a.status && d.allocs == a.allocs)
  {
    if ApplyRefusal(db, req).None? {
      ApproveGoodsExactly(db, req.request, req.task, req.robot, req.goods);
      hide ApproveGoods;
      var a := Approve(db, req.request, GoodsKey(req.task, req.goods[0].goodsId), req.robot, req.goods[0].quantity);
      assert FirstApprovable(db, req) ==> |a.allocs| == |db.allocs| + 1;
    }
  }

  /** A rejected answer and an untouched ledger go together exactly when the
      request does not ask for several items of which the first is available. */
  lemma RefusalIsCleanExactly(db: Db, req: ApplyRequest)
    ensures var (d, result) := Apply(db, req);
      (result.accepted || (d.allocs == db.allocs && d.status == db.status))
      <==> !(FirstApprovable(db, req) && |req.goods| > 1)
  {
    ApplyExactly(db, req);
    hide Apply;
    if FirstApprovable(db, req) {
      assert |req.goods| >= 1;
    }
  }

  /** Replaying a request that moved units, at any later time, moves nothing and
      is answered as refused. */
  lemma ReplayedApplyMovesNothing(db: Db, req: ApplyRequest, steps: seq<Step>)
    requires FirstApprovable(db, req)
    ensures var later := DoAll(Apply(db, req).0, steps);
      var (d, result) := Apply(later, req);
      d == later && !result.accepted
  {
    ApplyExactly(db, req);
    var first := Apply(db, req).0;
    assert first.allocs[|db.allocs|].request == req.request && first.allocs[|db.allocs|].robot == req.robot;
    var calls := RunIsCalls(first, steps);
    RunExtends(first, calls);
    hide DoAll;
    var later := DoAll(first, steps);
    assert Ages(first.allocs[|db.allocs|], later.allocs[|db.allocs|]);
    assert Allocated(later.allocs, req.request, req.robot);
  }

  // ---- Requests without an id ------------------------------------------------

  // Units of `task` are allocated under an empty request id and unsettled.
  predicate HeldWithoutId(allocs: seq<Allocation>, task: string) {
    exists i :: 0 <= i < |allocs| && allocs[i].request == "" && allocs[i].task == task && allocs[i].state.InProgress?
  }

  lemma ReportKeepsHeldWithoutId(db: Db, e: AmrEvent, task: string)
    requires HeldWithoutId(db.allocs, task)
    ensures HeldWithoutId(Report(db, e).allocs, task)
  {
    var i :| 0 <= i < |db.allocs| && db.allocs[i].request == "" && db.allocs[i].task == task
          && db.allocs[i].state.InProgress?;
    assert Report(db, e).allocs[i] == db.allocs[i];
  }

  lemma {:induction false} ApproveGoodsKeepsRows(
    db: Db, request: string, task: string, robot: string, goods: seq<TaskGoods>, i: nat)
    requires i < |db.allocs|
    ensures var d := ApproveGoods(db, request, task, robot, goods).0;
      i < |d.allocs| && d.allocs[i] == db.allocs[i]
    decreases |goods|
  {
    if goods != [] {
      var d := Approve(db, request, GoodsKey(task, goods[0].goodsId), robot, goods[0].quantity);
      ApproveGoodsKeepsRows(d, request, task, robot, goods[1..], i);
    }
  }

  lemma {:induction false} RunKeepsHeldWithoutId(db: Db, steps: seq<Step>, task: string)
    requires HeldWithoutId(db.allocs, task)
    ensures HeldWithoutId(DoAll(db, steps).allocs, task)
    decreases |steps|
  {
    if steps != [] {
      var s := steps[0];
      assert HeldWithoutId(Do(db, s).allocs, task) by {
        if s.StepReport? {
          ReportKeepsHeldWithoutId(db, s.e, task);
        } else {
          var i :| 0 <= i < |db.allocs| && db.allocs[i].request == "" && db.allocs[i].task == task
                && db.allocs[i].state.InProgress?;
          if s.StepApply? {
            ApproveGoodsKeepsRows(db, s.req.request, s.req.task, s.req.robot, s.req.goods, i);
          } else if s.StepHeartbeat? {
            HeartbeatKeepsStatus(db, s.order, s.healthy);
          }
          assert Do(db, s).allocs[i] == db.allocs[i];
        }
      }
      hide Do, HeldWithoutId;
      RunKeepsHeldWithoutId(Do(db, s), steps[1..], task);
    }
  }

  /** Goods approved under an empty request id are never given back or completed:
      carry reports need an id, so the task can never again become SUCCEEDED. */
  lemma EmptyRequestIdIsStuck(db: Db, req: ApplyRequest, steps: seq<Step>)
    requires Safe(db) && req.request == "" && FirstApprovable(db, req)
    ensures var d := DoAll(Apply(db, req).0, steps);
      req.task in d.tasks && !d.tasks[req.task].state.Succeeded?
  {
    ApplyExactly(db, req);
    ApplyKeeps(db, req);
    var first := Apply(db, req).0;
    assert first.allocs[|db.allocs|].task == req.task;
    RunKeepsHeldWithoutId(first, steps, req.task);
    RunKeeps(first, steps);
    var d := DoAll(first, steps);
    hide DoAll, Apply;
    var i :| 0 <= i < |d.allocs| && d.allocs[i].request == "" && d.allocs[i].task == req.task
          && d.allocs[i].state.InProgress?;
    SafeParts(d);
    hide Safe;
    AllocFacts(d, i);
  }

  // ---- Only assigned robots move a task's goods -----------------------------

  /** No report from a robot outside the task's robot_ids changes the task's
      quantities, whatever request it names. */
  lemma UnassignedReportMovesNothing(db: Db, e: AmrEvent, task: string, k: GoodsKey)
    requires Safe(db) && task in db.tasks && e.robot !in db.tasks[task].robotIds
    requires k in db.status && k.task == task
    ensures k in Report(db, e).status && Report(db, e).status[k] == db.status[k]
  {
    hide Safe, LedgerInv, SucceededSound, AllDone, StatusCheck;
    SafeParts(db);
    var d := RecordReport(db, e);
    assert d.allocs == db.allocs && d.status == db.status;
    hide RecordReport;
    if CanCarry(d, e) {
      var i := FindOpen(d.allocs, e.request, e.robot);
      assert db.allocs[i].robot in db.tasks[db.allocs[i].task].robotIds;
    }
  }

  /** Nor does an application of such a robot. */
  lemma UnassignedApplyMovesNothing(db: Db, req: ApplyRequest, task: string, k: GoodsKey)
    requires task in db.tasks && req.robot !in db.tasks[task].robotIds
    requires k in db.status && k.task == task
    ensures k in Apply(db, req).0.status && Apply(db, req).0.status[k] == db.status[k]
  {
    ApplyExactly(db, req);
    hide Apply;
  }

  // ---- The raw report table --------------------------------------------------

  /** The report table keeps the first row written under a key for ever. */
  lemma {:induction false} FirstReportIsKept(db: Db, calls: seq<Call>, key: ReportKey)
    requires key in db.reports
    ensures key in ExecAll(db, calls).reports && ExecAll(db, calls).reports[key] == db.reports[key]
    decreases |calls|
  {
    if calls != [] {
      assert key in Exec(db, calls[0]).reports && Exec(db, calls[0]).reports[key] == db.reports[key];
      hide Exec;
      FirstReportIsKept(Exec(db, calls[0]), calls[1..], key);
    }
  }
}
