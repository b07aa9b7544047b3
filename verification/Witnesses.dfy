/** Reachable states in which the exceptions named by the exact theorems occur. */
module Witnesses {
  import opened Tables
  import opened Ledger
  import opened TaskRules
  import opened TaskLifecycle
  import opened Allocations
  import opened Interleaving
  import opened Staleness
  import opened Announcements
  import opened Answers
  import opened Operations
  import opened Reopening
  import I = IdlePoints
  import R = Robots
  import P = RobotPoints

  // ---- One task with one goods item ------------------------------------------

  function OneItem(task: string, robot: string, quantity: int): TransportTask {
    TransportTask(task, "", Load, [robot], [TaskGoods("g", "", quantity)], Pending, "", "")
  }

  function AsksOnce(task: string, robot: string, quantity: int): ApplyRequest {
    ApplyRequest("r", task, robot, [TaskGoods("g", "", quantity)])
  }

  function AsksTwice(task: string, robot: string, quantity: int): ApplyRequest {
    ApplyRequest("r", task, robot, [TaskGoods("g", "", quantity), TaskGoods("g", "", quantity)])
  }

  function Done(named: string, robot: string, timestamp: string): AmrEvent {
    AmrEvent("m", named, robot, CarryCompleted, "", "r", "", "", timestamp)
  }

  function Accepts(task: string, robot: string, timestamp: string): AmrEvent {
    AmrEvent("a", task, robot, Status, "ACCEPTED", "", "", "", timestamp)
  }

  // The task waits, with everything pending.
  ghost predicate Waits(db: Db, task: string, robot: string, quantity: int) {
    && Safe(db) && db.allocs == []
    && task in db.tasks && db.tasks[task].robotIds == [robot]
    && (db.tasks[task].state.Pending? || db.tasks[task].state.Accepted?)
    && GoodsKey(task, "g") in db.status && db.status[GoodsKey(task, "g")] == StatusRow(quantity, 0, 0, quantity)
    && (forall k | k in db.status && k.task == task :: k == GoodsKey(task, "g"))
    && NoneSucceeded(db.log)
  }

  predicate NoneSucceeded(log: seq<TaskEvent>) { forall i | 0 <= i < |log| :: !log[i].state.Succeeded? }

  // The task is active, with everything in one robot's hands.
  ghost predicate Carries(db: Db, task: string, robot: string) {
    && Safe(db) && task in db.tasks && IsActive(db.tasks[task])
    && NoneSucceeded(db.log)
    && HasOpen(db.allocs, "r", robot)
    && var a := db.allocs[FindOpen(db.allocs, "r", robot)]; a.task == task && HoldsLastUnits(db.status, a)
  }

  lemma CreatedWaits(task: string, robot: string, quantity: int)
    requires task != "" && quantity > 0
    ensures Waits(Create(EMPTY, OneItem(task, robot, quantity), ""), task, robot, quantity)
    ensures Create(EMPTY, OneItem(task, robot, quantity), "").tasks[task].state.Pending?
  {
    hide Safe, LedgerInv, Tables.CreateTask;
    var t := OneItem(task, robot, quantity);
    EmptyIsSafe();
    StepKeeps(EMPTY, StepCreate(t, ""));
    assert CreateCode(EMPTY, t) == 0 && CanCreate(EMPTY, Prepared(t, ""));
    SafeParts(EMPTY);
    CreateOpensLedger(EMPTY, Prepared(t, ""));
    CreatedLog(Prepared(t, ""));
    hide CanCreate, CreateCode;
    var d := Create(EMPTY, t, "");
    assert d == Tables.CreateTask(EMPTY, Prepared(t, ""));
    assert t.goods[0].goodsId == "g";
    assert GoodsKey(task, t.goods[0].goodsId) in d.status;
  }

  lemma CreatedLog(t: TransportTask)
    requires t.state.Pending?
    ensures NoneSucceeded(Tables.CreateTask(EMPTY, t).log)
  {
    hide CanCreate, GoodsRows, StatusRows;
  }

  lemma AcceptingWrites(db: Db, e: AmrEvent)
    requires e.eventType.Status? && e.taskState == "ACCEPTED" && e.task in db.tasks && db.tasks[e.task].state.Pending?
    ensures var d := Report(db, e);
      && d.status == db.status && d.allocs == db.allocs
      && e.task in d.tasks && d.tasks[e.task].state.Accepted?
      && d.tasks[e.task].robotIds == db.tasks[e.task].robotIds
      && (NoneSucceeded(db.log) ==> NoneSucceeded(d.log))
  {
    RecordOnly(db, e);
    hide RecordReport, AllDone, CanSettle;
  }

  // Approving everything of the one item puts it in one open allocation.
  lemma ApprovedIsHeld(db: Db, task: string, robot: string, quantity: int)
    requires robot != "" && quantity > 0 && Waits(db, task, robot, quantity)
    ensures var d := Approve(db, "r", GoodsKey(task, "g"), robot, quantity);
      && CanApprove(db, "r", GoodsKey(task, "g"), robot, quantity)
      && HasOpen(d.allocs, "r", robot)
      && var a := d.allocs[FindOpen(d.allocs, "r", robot)]; a.task == task && HoldsLastUnits(d.status, a)
  {
    hide Safe;
    var d := Approve(db, "r", GoodsKey(task, "g"), robot, quantity);
    assert d.allocs == [Allocation("r", task, "g", robot, quantity, InProgress)];
    assert IsOpen(d.allocs[0], "r", robot);
    hide FindOpen;
  }

  lemma AppliedCarries(db: Db, task: string, robot: string, quantity: int)
    requires task != "" && robot != "" && quantity > 0 && Waits(db, task, robot, quantity)
    ensures Carries(Apply(db, AsksOnce(task, robot, quantity)).0, task, robot)
  {
    hide Safe, Approve, CanApprove, FindOpen, HasOpen, HoldsLastUnits, NoneSucceeded, ApproveGoods;
    var req := AsksOnce(task, robot, quantity);
    assert ApplyRefusal(db, req).None?;
    hide ApplyRefusal;
    ApplyKeeps(db, req);
    ApprovedIsHeld(db, task, robot, quantity);
    AppliedLog(db, req);
    ApplyExactly(db, req);
    ApproveGoodsExactly(db, req.request, req.task, req.robot, req.goods);
    ApproveGoodsKeepsTasks(db, req.request, req.task, req.robot, req.goods);
  }

  lemma AppliedLog(db: Db, req: ApplyRequest)
    requires Safe(db) && NoneSucceeded(db.log)
    ensures NoneSucceeded(Apply(db, req).0.log)
  {
    hide Safe;
    if ApplyRefusal(db, req).None? {
      ApproveGoodsKeeps(db, req.request, req.task, req.robot, req.goods);
    }
    hide ApproveGoods, ApplyRefusal;
  }

  // ---- Runs of whole operations -------------------------------------------------

  function UntilCarried(task: string, robot: string, quantity: int): seq<Step> {
    [StepCreate(OneItem(task, robot, quantity), "")] + [StepApply(AsksOnce(task, robot, quantity))]
  }

  lemma DoTwo(db: Db, s: Step, t: Step)
    ensures DoAll(db, [s] + [t]) == Do(Do(db, s), t)
  {
    hide Do;
    assert ([s] + [t])[1..] == [t];
    var d := Do(db, s);
    assert DoAll(d, [t]) == DoAll(Do(d, t), []);
  }

  lemma CarriedIsReached(task: string, robot: string, quantity: int)
    requires task != "" && robot != "" && quantity > 0
    ensures Carries(DoAll(EMPTY, UntilCarried(task, robot, quantity)), task, robot)
    ensures DoneSucceeded(DoAll(EMPTY, UntilCarried(task, robot, quantity)))
  {
    hide Safe, Waits, Carries, DoneSucceeded, Create, Apply, DoAll;
    var s, t := StepCreate(OneItem(task, robot, quantity), ""), StepApply(AsksOnce(task, robot, quantity));
    CreatedWaits(task, robot, quantity);
    AppliedCarries(Create(EMPTY, s.t, ""), task, robot, quantity);
    DoTwo(EMPTY, s, t);
    EmptyIsSafe();
    EmptyIsDone();
    StepKeeps(EMPTY, s);
    StepKeepsDone(EMPTY, s);
    StepKeepsDone(Do(EMPTY, s), t);
  }

  lemma EmptyIsDone()
    ensures DoneSucceeded(EMPTY)
  {
  }

  /** A reachable report completes a task it does not name and leaves it
      completed without SUCCEEDED. */
  lemma AReportFinishesElsewhere(task: string, other: string, robot: string, quantity: int)
    requires task != "" && robot != "" && quantity > 0 && other != task
    ensures var db := DoAll(EMPTY, UntilCarried(task, robot, quantity));
      FinishesElsewhere(db, Done(other, robot, "")) && !DoneSucceeded(Report(db, Done(other, robot, "")))
  {
    hide Safe, DoneSucceeded, DoAll, HoldsLastUnits, Report;
    CarriedIsReached(task, robot, quantity);
    ReportKeepsDoneExactly(DoAll(EMPTY, UntilCarried(task, robot, quantity)), Done(other, robot, ""));
  }

  /** A reachable completion turns CANCELLED into SUCCEEDED. */
  lemma ACancelledTaskSucceeds(task: string, robot: string, quantity: int)
    requires task != "" && robot != "" && quantity > 0
    ensures var db := Do(DoAll(EMPTY, UntilCarried(task, robot, quantity)), StepCancel(task));
      && task in db.tasks && db.tasks[task].state.Cancelled? && FinishesNamed(db, Done(task, robot, ""))
      && var d := Do(db, StepReport(Done(task, robot, ""))); task in d.tasks && d.tasks[task].state.Succeeded?
  {
    CarriedIsReached(task, robot, quantity);
    var c := DoAll(EMPTY, UntilCarried(task, robot, quantity));
    hide DoAll;
    CancelledSucceeds(c, task, robot);
  }

  lemma CancelledSucceeds(db: Db, task: string, robot: string)
    requires Carries(db, task, robot)
    ensures var c := Do(db, StepCancel(task));
      && task in c.tasks && c.tasks[task].state.Cancelled? && FinishesNamed(c, Done(task, robot, ""))
      && var d := Do(c, StepReport(Done(task, robot, ""))); task in d.tasks && d.tasks[task].state.Succeeded?
  {
    hide Safe, HoldsLastUnits, Report, FindOpen, HasOpen;
    StepKeeps(db, StepCancel(task));
    var c := Do(db, StepCancel(task));
    assert c.allocs == db.allocs && c.status == db.status;
    assert FinishesNamed(c, Done(task, robot, ""));
    TerminalIsLeftExactly(c, StepReport(Done(task, robot, "")), task);
  }

  /** A reachable application for two items is refused and has moved the first. */
  lemma ARefusalMovesTheLedger(task: string, robot: string, quantity: int)
    requires task != "" && robot != "" && quantity > 0
    ensures var db := Do(EMPTY, StepCreate(OneItem(task, robot, quantity), ""));
      var (d, result) := Apply(db, AsksTwice(task, robot, quantity));
      FirstApprovable(db, AsksTwice(task, robot, quantity)) && !result.accepted && d.allocs != db.allocs
  {
    CreatedWaits(task, robot, quantity);
    var db := Do(EMPTY, StepCreate(OneItem(task, robot, quantity), ""));
    hide Safe, Create;
    ApplyExactly(db, AsksTwice(task, robot, quantity));
    hide Apply;
  }

  /** Goods can be approved under an empty request id, and then the task is never
      SUCCEEDED. */
  lemma AnEmptyIdIsApproved(task: string, robot: string, quantity: int, steps: seq<Step>)
    requires task != "" && robot != "" && quantity > 0
    ensures var req := AsksOnce(task, robot, quantity).(request := "");
      var db := Do(EMPTY, StepCreate(OneItem(task, robot, quantity), ""));
      && FirstApprovable(db, req)
      && var d := DoAll(Apply(db, req).0, steps); task in d.tasks && !d.tasks[task].state.Succeeded?
  {
    CreatedWaits(task, robot, quantity);
    var db := Do(EMPTY, StepCreate(OneItem(task, robot, quantity), ""));
    hide Safe, Create, Apply, DoAll;
    EmptyRequestIdIsStuck(db, AsksOnce(task, robot, quantity).(request := ""), steps);
  }

  // A refused application leaves the first item carried and the state alone.
  lemma RefusedCarries(db: Db, task: string, robot: string, quantity: int)
    requires task != "" && robot != "" && quantity > 0 && Waits(db, task, robot, quantity)
    ensures var d := Apply(db, AsksTwice(task, robot, quantity)).0;
      Carries(d, task, robot) && d.tasks == db.tasks
  {
    hide Safe, Approve, CanApprove, FindOpen, HasOpen, HoldsLastUnits, NoneSucceeded, ApproveGoods;
    var req := AsksTwice(task, robot, quantity);
    assert ApplyRefusal(db, req).None?;
    hide ApplyRefusal;
    ApplyKeeps(db, req);
    ApprovedIsHeld(db, task, robot, quantity);
    AppliedLog(db, req);
    ApplyExactly(db, req);
    ApproveGoodsExactly(db, req.request, req.task, req.robot, req.goods);
    ApproveGoodsKeepsTasks(db, req.request, req.task, req.robot, req.goods);
  }

  lemma AcceptedCarries(db: Db, task: string, robot: string, timestamp: string)
    requires Carries(db, task, robot) && db.tasks[task].state.Pending?
    ensures var d := Report(db, Accepts(task, robot, timestamp));
      Carries(d, task, robot) && d.tasks[task].state.Accepted?
  {
    ReportKeeps(db, Accepts(task, robot, timestamp));
    hide Safe, Report, HoldsLastUnits, FindOpen, HasOpen, NoneSucceeded;
    AcceptingWrites(db, Accepts(task, robot, timestamp));
  }

  /** A reachable report overwrites the state that another report wrote just
      before it, whichever of the two is older. */
  lemma AnyReportOverwrites(task: string, robot: string, quantity: int, first: string, second: string)
    requires task != "" && robot != "" && quantity > 0
    ensures var created := Do(EMPTY, StepCreate(OneItem(task, robot, quantity), ""));
      var refused := Do(created, StepApply(AsksTwice(task, robot, quantity)));
      var accepted := Do(refused, StepReport(Accepts(task, robot, first)));
      var done := Do(accepted, StepReport(Done(task, robot, second)));
      && task in accepted.tasks && accepted.tasks[task].state.Accepted?
      && task in done.tasks && done.tasks[task].state.Succeeded?
  {
    CreatedWaits(task, robot, quantity);
    hide Safe, Create, Apply, Report, Waits, Carries, Do, AsksTwice, Accepts, Done, OneItem;
    var t := OneItem(task, robot, quantity);
    WholeSteps(EMPTY, t, AsksTwice(task, robot, quantity), Accepts(task, robot, first), Done(task, robot, second));
    WaitingIsOverwritten(Create(EMPTY, OneItem(task, robot, quantity), ""), task, robot, quantity, first, second);
  }

  lemma WholeSteps(db: Db, t: TransportTask, req: ApplyRequest, e: AmrEvent, f: AmrEvent)
    ensures var created := Do(db, StepCreate(t, ""));
      var applied := Do(created, StepApply(req));
      var reported := Do(applied, StepReport(e));
      && created == Create(db, t, "") && applied == Apply(created, req).0
      && reported == Report(applied, e) && Do(reported, StepReport(f)) == Report(reported, f)
  {
    hide Create, Apply, Report;
  }

  lemma WaitingIsOverwritten(db: Db, task: string, robot: string, quantity: int, first: string, second: string)
    requires task != "" && robot != "" && quantity > 0
    requires Waits(db, task, robot, quantity) && db.tasks[task].state.Pending?
    ensures var refused := Apply(db, AsksTwice(task, robot, quantity)).0;
      var accepted := Report(refused, Accepts(task, robot, first));
      var done := Report(accepted, Done(task, robot, second));
      && task in accepted.tasks && accepted.tasks[task].state.Accepted?
      && task in done.tasks && done.tasks[task].state.Succeeded?
  {
    hide Safe, Apply, Report, HoldsLastUnits, FindOpen, HasOpen, LastReport;
    RefusedCarries(db, task, robot, quantity);
    var refused := Apply(db, AsksTwice(task, robot, quantity)).0;
    AcceptedCarries(refused, task, robot, first);
    var accepted := Report(refused, Accepts(task, robot, first));
    CarriesIsLast(accepted, task, robot, second);
    LastReportSucceeds(accepted, Done(task, robot, second));
  }

  lemma LastReportSucceeds(db: Db, e: AmrEvent)
    requires Safe(db) && LastReport(db, e)
    ensures e.task in Report(db, e).tasks && Report(db, e).tasks[e.task].state.Succeeded?
  {
    SafeParts(db);
    hide Safe;
    LastReportFinishes(db, e);
    hide LedgerInv, LastReport, RecordReport, Settle, CanCarry, AllDone;
  }

  // ---- Runs of threads -------------------------------------------------------------

  lemma ALastReportIsReached(task: string, robot: string, quantity: int) returns (actions: seq<Action>)
    requires task != "" && robot != "" && quantity > 0
    ensures NoRestarts(actions)
    ensures var s := Run(Interleaving.START, actions);
      Inv(s) && s.threads == map[] && LastReport(s.db, Done(task, robot, "")) && NoneSucceeded(s.db.log)
  {
    hide Next, Safe, Carries, LastReport, Do, DoAll, UntilCarried, Run;
    var create := OpCreate(OneItem(task, robot, quantity), "");
    var apply := OpApply(AsksOnce(task, robot, quantity));
    var a := StepIsUninterruptedRun(Interleaving.START, create, 0, {});
    var s := Run(Interleaving.START, a);
    var b := StepIsUninterruptedRun(s, apply, 0, {});
    RunAppend(Interleaving.START, a, b);
    actions := a + b;
    CarriedIsReached(task, robot, quantity);
    DoTwo(EMPTY, StepOf(create, {}), StepOf(apply, {}));
    UntilCarriedIs(task, robot, quantity);
    StartIsSafe();
    RunKeepsInv(Interleaving.START, actions);
    CarriesIsLast(Run(Interleaving.START, actions).db, task, robot, "");
  }

  lemma StartIsSafe()
    ensures Inv(Interleaving.START)
  {
    EmptyIsSafe();
  }

  lemma UntilCarriedIs(task: string, robot: string, quantity: int)
    ensures UntilCarried(task, robot, quantity)
         == [StepOf(OpCreate(OneItem(task, robot, quantity), ""), {})]
          + [StepOf(OpApply(AsksOnce(task, robot, quantity)), {})]
  {
  }

  lemma CarriesIsLast(db: Db, task: string, robot: string, timestamp: string)
    requires Carries(db, task, robot)
    ensures LastReport(db, Done(task, robot, timestamp)) && NoneSucceeded(db.log)
  {
    hide Safe, HoldsLastUnits, FindOpen, HasOpen;
  }

  /** A run from the empty database, without a stop, stores SUCCEEDED and then
      CANCELLED over it, with every unit completed and no operation left. */
  lemma ASuccessIsOverwritten(task: string, robot: string, quantity: int) returns (actions: seq<Action>, last: Action)
    requires task != "" && robot != "" && quantity > 0
    ensures NoRestarts(actions + [last])
    ensures var won := Run(Interleaving.START, actions);
      && HasSucceeded(won.db, task) && !NoneStale(won, task) && OverwritesAnswered(won, last)
      && var lost := Next(won, last);
         && task in lost.db.tasks && lost.db.tasks[task].state.Cancelled?
         && AllDone(lost.db.status, task) && lost.threads == map[]
  {
    hide Safe, LedgerInv, LastReport, AllDone, Settle, RecordReport, Next, NoneSucceeded, Run;
    var e := Done(task, robot, "");
    var before := ALastReportIsReached(task, robot, quantity);
    var s := Run(Interleaving.START, before);
    SafeParts(s.db);
    CancellationOverwritesSuccess(s, e, 0, 1);
    ReportWins(s, e, 0, 1);
    RunAppend(Interleaving.START, before, CancelAgainstReport(e, 0, 1));
    actions, last := before + CancelAgainstReport(e, 0, 1), Advance(0, {});
    var won := Run(Interleaving.START, actions);
    assert Stale(won.threads[0], task);
    assert Overwrites(won.threads[0], task, {}) && !ThreadAnnounces(won, task);
  }

  /** A run from the empty database with just one stop of the Edge, at its end,
      leaves a task completed and not SUCCEEDED. */
  lemma ASuccessIsLost(task: string, robot: string, quantity: int) returns (before: seq<Action>)
    requires task != "" && robot != "" && quantity > 0
    ensures NoRestarts(before)
    ensures var d := Run(Interleaving.START, before + StopAfterSettling(Done(task, robot, ""), 0)).db;
      task in d.tasks && AllDone(d.status, task) && !d.tasks[task].state.Succeeded?
  {
    hide Run, LastReport, AllDone, Safe, LedgerInv, NoneSucceeded;
    var e := Done(task, robot, "");
    before := ALastReportIsReached(task, robot, quantity);
    SafeParts(Run(Interleaving.START, before).db);
    RestartLosesSuccess(Run(Interleaving.START, before), e, 0);
    RunAppend(Interleaving.START, before, StopAfterSettling(e, 0));
  }

  /** So does, without any stop, a run whose last call settles the last units of
      a task that its report does not name. */
  lemma ANamingLosesSuccess(task: string, other: string, robot: string, quantity: int)
    returns (actions: seq<Action>, last: Action)
    requires task != "" && robot != "" && quantity > 0 && other != task
    ensures NoRestarts(actions + [last]) && SettlesUnannounced(Run(Interleaving.START, actions), last)
    ensures var d := Next(Run(Interleaving.START, actions), last).db;
      task in d.tasks && AllDone(d.status, task) && !d.tasks[task].state.Succeeded?
  {
    hide Safe, LedgerInv, LastReport, RecordReport, FinishesElsewhere, NoneSucceeded, Announced, Run, Next, AllDone;
    var e := Done(other, robot, "");
    var before := ALastReportIsReached(task, robot, quantity);
    var s := Run(Interleaving.START, before);
    var a := Start(0, OpReport(e));
    RunAppend(Interleaving.START, before, [a]);
    RunOne(s, a);
    actions, last := before + [a], Advance(0, {});
    LastIsElsewhere(s.db, e, task);
    ReportBegins(s, e);
    var n := Next(s, a);
    NotAnnounced(n, e, task);
    SafeParts(s.db);
    RecordOnly(s.db, e);
    var t := SettlesElsewhere(n.db, e, {});
    hide Continue;
    AdvanceLeavesOthers(n, 0, {});
  }

  /** Another run without a stop: an application reads a task PENDING, the task is
      cancelled, and the application then writes RUNNING over CANCELLED. */
  lemma ACancellationIsOverwritten(task: string, robot: string, quantity: int)
    returns (actions: seq<Action>, more: seq<Action>)
    requires task != "" && robot != "" && quantity > 0
    ensures NoRestarts(actions) && NoRestarts(more)
    ensures var s := Run(Interleaving.START, actions);
      && task in s.db.tasks && s.db.tasks[task].state.Cancelled? && !NoneMayReopen(s, task)
      && var d := Run(s, more).db; task in d.tasks && d.tasks[task].state.Running?
  {
    hide Safe, LedgerInv, Run, Create, Next, PcOk;
    var create := OpCreate(OneItem(task, robot, quantity), "");
    var req := AsksOnce(task, robot, quantity);
    CreatedWaits(task, robot, quantity);
    var a := StepIsUninterruptedRun(Interleaving.START, create, 0, {});
    var s := Run(Interleaving.START, a);
    var b := Start(0, OpApply(req));
    RunOne(s, b);
    ApplicationBegins(s, task, robot, quantity);
    var m := Next(s, b);
    var c := StepIsUninterruptedRun(m, OpCancel(task), 1, {});
    actions := a + ([b] + c);
    RunAppend(Interleaving.START, a, [b] + c);
    RunAppend(s, [b], c);
    StartIsSafe();
    RunKeepsInv(Interleaving.START, actions);
    var n := Run(Interleaving.START, actions);
    CancelledMayReopen(s, m, n, task, robot, quantity);
    more := DriveApplying(n, 0, task);
  }

  lemma ApplicationBegins(s: Sys, task: string, robot: string, quantity: int)
    requires task != "" && robot != "" && quantity > 0 && Waits(s.db, task, robot, quantity) && s.threads == map[]
    ensures Next(s, Start(0, OpApply(AsksOnce(task, robot, quantity))))
         == Sys(s.db, map[0 := Applying(AsksOnce(task, robot, quantity), s.db.tasks[task], 0)])
  {
    hide Safe;
  }

  lemma CancelledMayReopen(s: Sys, m: Sys, n: Sys, task: string, robot: string, quantity: int)
    requires quantity > 0 && Waits(s.db, task, robot, quantity)
    requires m == Sys(s.db, map[0 := Applying(AsksOnce(task, robot, quantity), s.db.tasks[task], 0)])
    requires n == Sys(Do(m.db, StepCancel(task)), m.threads)
    ensures task in n.db.tasks && n.db.tasks[task].state.Cancelled?
    ensures 0 in n.threads && MayReopen(n.db, n.threads[0], task) && !NoneMayReopen(n, task)
  {
    hide Safe;
    assert n.db.status == s.db.status && n.db.allocs == [];
    assert HeldForGood(n.db.allocs, GoodsKey(task, "g")) == 0;
    assert MayReopen(n.db, n.threads[0], task);
  }

  lemma ReportBegins(s: Sys, e: AmrEvent)
    requires s.threads == map[] && e.eventType.CarryCompleted? && e.request != ""
    ensures Next(s, Start(0, OpReport(e))) == Sys(RecordReport(s.db, e), map[0 := Recorded(e)])
  {
    hide RecordReport;
  }

  lemma LastIsElsewhere(db: Db, e: AmrEvent, task: string)
    requires LastReport(db, Done(task, e.robot, "")) && e == Done(e.task, e.robot, "") && e.task != task
    requires NoneSucceeded(db.log)
    ensures var d := RecordReport(db, e);
      && FinishesElsewhere(d, e) && NoneSucceeded(d.log)
      && d.allocs[FindOpen(d.allocs, e.request, e.robot)].task == task
      && task in d.tasks && IsActive(d.tasks[task])
  {
    RecordOnly(db, e);
    hide HoldsLastUnits, FindOpen, HasOpen, RecordReport;
  }

  lemma NotAnnounced(s: Sys, e: AmrEvent, task: string)
    requires s.threads == map[0 := Recorded(e)] && NoneSucceeded(s.db.log)
    ensures !Announced(s, task)
  {
  }

  // ---- Robots -------------------------------------------------------------------------

  /** From an Edge without robots: a robot registers on a map with one point, the
      map is loaded again, and the next robot is given the same point. */
  lemma APointIsGivenTwice(a: R.Base, b: R.Base, instance: string, now: int, point: I.Pose)
    requires a.robotId != "" && b.robotId != "" && a.robotId != b.robotId
    ensures var e := R.Next(R.Next(R.START, R.NewMap([point])), R.Registers(a, instance, now));
      var n := R.Next(R.Next(e, R.NewMap([point])), R.Registers(b, instance, now));
      && a.robotId in n.robots && b.robotId in n.robots && a.robotId in e.obtained
      && n.robots[a.robotId].base.initialPose == n.robots[b.robotId].base.initialPose == point
  {
    P.StartHasPointInv();
    var m := R.Next(R.START, R.NewMap([point]));
    P.EventKeepsPoints(R.START, R.NewMap([point]));
    assert I.FirstFree(m.occupied) == 0;
    var e := R.Next(m, R.Registers(a, instance, now));
    P.EventKeepsPoints(m, R.Registers(a, instance, now));
    hide P.PointInv;
    P.ReloadForgetsOccupancy(e, [point], b, instance, now, a.robotId);
  }
}
