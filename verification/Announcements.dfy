/** A task whose units are all completed is announced as SUCCEEDED, or about to
    be, and exactly what can lose the announcement. */
module Announcements {
  import opened Tables
  import opened Ledger
  import opened TaskRules
  import opened TaskLifecycle
  import opened SqliteDb
  import opened Interleaving
  import opened Staleness

  // ---- A completed task is announced, or about to be -------------------------

  predicate SuccessLogged(log: seq<TaskEvent>, task: string) {
    exists i :: 0 <= i < |log| && log[i].task == task && log[i].state.Succeeded?
  }

  predicate Announces(pc: Pc, task: string) {
    (pc.Settled? || pc.Found? || pc.Finishing?) && pc.task == task
  }

  ghost predicate Announced(s: Sys, task: string) {
    SuccessLogged(s.db.log, task) || exists tid :: tid in s.threads && Announces(s.threads[tid], task)
  }

  ghost predicate AllAnnounced(s: Sys) {
    forall t | t in s.db.tasks && AllDone(s.db.status, t) :: Announced(s, t)
  }

  lemma ContinueLogs(db: Db, pc: Pc, healthy: set<string>)
    ensures db.log <= Continue(db, pc, healthy).0.log
  {
    hide AllDone, CanSettle, CanApprove, AllAbnormal;
  }

  lemma LogGrows(s: Sys, a: Action)
    ensures s.db.log <= Next(s, a).db.log
  {
    hide Begin, Continue;
    if a.Start? {
      BeginRecords(s.db, a.op);
    } else if a.Advance? && a.tid in s.threads {
      ContinueLogs(s.db, s.threads[a.tid], a.healthy);
    }
  }

  // An announcing operation goes on announcing until it has written SUCCEEDED.
  lemma ContinueAnnounces(db: Db, pc: Pc, healthy: set<string>, task: string)
    requires Announces(pc, task) && task in db.tasks && AllDone(db.status, task)
    ensures var (d, after) := Continue(db, pc, healthy);
      SuccessLogged(d.log, task) || (after.Some? && Announces(after.value, task))
  {
    hide AllDone;
    if pc.Finishing? {
      var d := Continue(db, pc, healthy).0;
      assert d.log[|db.log|] == TaskEvent(task, Succeeded, "all goods completed", "AMR");
    }
  }

  lemma AnnouncementStands(s: Sys, a: Action, task: string)
    requires !a.Restart? && Announced(s, task) && task in s.db.tasks && AllDone(s.db.status, task)
    ensures Announced(Next(s, a), task)
  {
    var n := Next(s, a);
    LogGrows(s, a);
    hide Begin, Continue, AllDone, Announces;
    if SuccessLogged(s.db.log, task) {
      var i :| 0 <= i < |s.db.log| && s.db.log[i].task == task && s.db.log[i].state.Succeeded?;
      assert n.db.log[i] == s.db.log[i];
    } else {
      var tid :| tid in s.threads && Announces(s.threads[tid], task);
      if a.Advance? && a.tid == tid {
        ContinueAnnounces(s.db, s.threads[tid], a.healthy, task);
        if !SuccessLogged(n.db.log, task) {
          assert tid in n.threads && Announces(n.threads[tid], task);
        }
      } else {
        assert tid in n.threads && n.threads[tid] == s.threads[tid];
      }
    }
  }

  // Only settling a completion completes a task: the one its allocation is of.
  lemma ContinueCompletes(db: Db, pc: Pc, healthy: set<string>, task: string)
    requires LedgerInv(db) && PcOk(db, pc)
    requires AllDone(Continue(db, pc, healthy).0.status, task) && !AllDone(db.status, task)
    ensures pc.Recorded? && pc.e.eventType.CarryCompleted? && CanSettle(db, pc.e.request, pc.e.robot, Completed)
    ensures db.allocs[FindOpen(db.allocs, pc.e.request, pc.e.robot)].task == task
  {
    hide LedgerInv, AllDone, HoldsLastUnits, StatusCheck, AllAbnormal;
    match pc
    case Creating(t) =>
      if CanCreate(db, t) {
        CreateNeverFinishes(db, t, task);
      }
      assert false;
    case Applying(req, _, next) =>
      if next < |req.goods| {
        ApproveNeverFinishes(db, req.request, GoodsKey(req.task, req.goods[next].goodsId), req.robot,
                             req.goods[next].quantity, task);
      }
      assert false;
    case Recorded(e) =>
      if CanSettle(db, e.request, e.robot, Outcome(e)) {
        SettleFinishesOnly(db, e.request, e.robot, Outcome(e));
      }
    case _ => assert false;
  }

  // Recorded operations are carry reports with a request id, or acceptances.
  ghost predicate RecordedOk(s: Sys) {
    forall tid | tid in s.threads && s.threads[tid].Recorded? ::
      IsCarry(s.threads[tid].e) ==> s.threads[tid].e.request != ""
  }

  lemma NextKeepsRecorded(s: Sys, a: Action)
    requires RecordedOk(s)
    ensures RecordedOk(Next(s, a))
  {
    hide AllDone, CanSettle, CanApprove, ListsActive, AllAbnormal;
  }

  // The Edge stops while a completed task has no SUCCEEDED row yet.
  ghost predicate StopsUnannounced(s: Sys, a: Action) {
    a.Restart? && exists t :: t in s.db.tasks && AllDone(s.db.status, t) && !SuccessLogged(s.db.log, t)
  }

  // The call settles the last units of a task its report does not name, and
  // nothing else announces that task.
  ghost predicate SettlesUnannounced(s: Sys, a: Action) {
    && a.Advance? && a.tid in s.threads && s.threads[a.tid].Recorded?
    && FinishesElsewhere(s.db, s.threads[a.tid].e)
    && !Announced(s, s.db.allocs[FindOpen(s.db.allocs, s.threads[a.tid].e.request, s.threads[a.tid].e.robot)].task)
  }

  ghost predicate Loses(s: Sys, a: Action) { StopsUnannounced(s, a) || SettlesUnannounced(s, a) }

  // Settling a completion leaves every other thread's announcements standing.
  lemma SettlingKeepsAnnounced(s: Sys, a: Action, task: string)
    requires a.Advance? && a.tid in s.threads && s.threads[a.tid].Recorded? && Announced(s, task)
    ensures Announced(Next(s, a), task)
  {
    LogGrows(s, a);
    hide Continue;
    var n := Next(s, a);
    if SuccessLogged(s.db.log, task) {
      var i :| 0 <= i < |s.db.log| && s.db.log[i].task == task && s.db.log[i].state.Succeeded?;
      assert n.db.log[i] == s.db.log[i];
    } else {
      var tid :| tid in s.threads && Announces(s.threads[tid], task);
      assert tid in n.threads && Announces(n.threads[tid], task);
    }
  }

  // The task completed by a step is announced by it, or was already.
  lemma NewlyDoneIsAnnounced(s: Sys, a: Action, task: string)
    requires Inv(s) && RecordedOk(s) && a.Advance? && a.tid in s.threads && !SettlesUnannounced(s, a)
    requires AllDone(Next(s, a).db.status, task) && !AllDone(s.db.status, task)
    ensures Announced(Next(s, a), task)
  {
    var n := Next(s, a);
    SafeParts(s.db);
    hide Safe, LedgerInv, Continue, AllDone, PcOk, Announced, HoldsLastUnits, SucceededSound, AllocsAssigned;
    ContinueCompletes(s.db, s.threads[a.tid], a.healthy, task);
    var e := s.threads[a.tid].e;
    if e.task == task {
      CompletionIsAnnounced(s.db, s.threads[a.tid], a.healthy);
      AnnouncingThread(n, a.tid, task);
    } else {
      CompletesElsewhere(s.db, e, a.healthy, task);
      SettlingKeepsAnnounced(s, a, task);
    }
  }

  lemma AnnouncingThread(s: Sys, tid: nat, task: string)
    requires tid in s.threads && Announces(s.threads[tid], task)
    ensures Announced(s, task)
  {
  }

  lemma CompletesElsewhere(db: Db, e: AmrEvent, healthy: set<string>, task: string)
    requires LedgerInv(db) && e.eventType.CarryCompleted? && e.request != ""
    requires CanSettle(db, e.request, e.robot, Completed)
    requires db.allocs[FindOpen(db.allocs, e.request, e.robot)].task == task != e.task
    requires AllDone(Continue(db, Recorded(e), healthy).0.status, task)
    ensures FinishesElsewhere(db, e)
  {
    hide LedgerInv, AllDone, HoldsLastUnits, StatusCheck;
    SettleFinishesOnly(db, e.request, e.robot, Completed);
  }

  lemma NextKeepsAnnounced(s: Sys, a: Action)
    requires Inv(s) && RecordedOk(s) && AllAnnounced(s) && !Loses(s, a)
    ensures AllAnnounced(Next(s, a))
  {
    var n := Next(s, a);
    SafeParts(s.db);
    hide Safe, LedgerInv, SucceededSound, AllocsAssigned, Begin, Continue, AllDone, PcOk, SettlesUnannounced;
    forall t | t in n.db.tasks && AllDone(n.db.status, t) ensures Announced(n, t) {
      if AllDone(s.db.status, t) {
        DoneTaskExists(s.db, t);
        if !a.Restart? {
          AnnouncementStands(s, a, t);
        }
      } else {
        if a.Start? {
          BeginRecords(s.db, a.op);
        }
        NewlyDoneIsAnnounced(s, a, t);
      }
    }
  }

  // Settling the last units of a task the report does not name.
  lemma SettlesElsewhere(db: Db, e: AmrEvent, healthy: set<string>) returns (task: string)
    requires LedgerInv(db) && FinishesElsewhere(db, e)
    ensures task == db.allocs[FindOpen(db.allocs, e.request, e.robot)].task != e.task
    ensures var (d, after) := Continue(db, Recorded(e), healthy);
      && d.log == db.log && d.tasks == db.tasks && task in d.tasks && AllDone(d.status, task)
      && after == Some(Settled(e.task))
  {
    SettleNeverRollsBack(db, e.request, e.robot, Completed);
    hide LedgerInv, AllDone, HoldsLastUnits, StatusCheck;
    task := db.allocs[FindOpen(db.allocs, e.request, e.robot)].task;
    SettleFinishesOnly(db, e.request, e.robot, Completed);
    SettleKeepsLog(db, e.request, e.robot, Completed);
    hide Settle, CanSettle;
  }

  lemma StopLoses(s: Sys, a: Action)
    requires StopsUnannounced(s, a)
    ensures !AllAnnounced(Next(s, a))
  {
    hide AllDone;
    var t :| t in s.db.tasks && AllDone(s.db.status, t) && !SuccessLogged(s.db.log, t);
    assert !Announced(Next(s, a), t);
  }

  lemma SettlingLoses(s: Sys, a: Action)
    requires LedgerInv(s.db) && SettlesUnannounced(s, a)
    ensures !AllAnnounced(Next(s, a))
  {
    hide LedgerInv, Continue, AllDone, FinishesElsewhere, Announces;
    var n := Next(s, a);
    var e := s.threads[a.tid].e;
    var t := SettlesElsewhere(s.db, e, a.healthy);
    assert n.threads == s.threads[a.tid := Settled(e.task)];
    forall tid | tid in n.threads ensures !Announces(n.threads[tid], t) {
      if tid == a.tid {
        OtherIsNotAnnounced(e.task, t);
      } else {
        assert n.threads[tid] == s.threads[tid];
      }
    }
    assert !Announced(n, t);
  }

  lemma OtherIsNotAnnounced(named: string, task: string)
    requires named != task
    ensures !Announces(Settled(named), task)
  {
  }

  // A step that loses an announcement leaves a completed task without one.
  lemma LosingStepLoses(s: Sys, a: Action)
    requires Inv(s) && Loses(s, a)
    ensures !AllAnnounced(Next(s, a))
  {
    hide AllAnnounced, Next, StopsUnannounced, SettlesUnannounced;
    SafeParts(s.db);
    if StopsUnannounced(s, a) {
      StopLoses(s, a);
    } else {
      SettlingLoses(s, a);
    }
  }

  lemma SettleKeepsLog(db: Db, request: string, robot: string, state: AllocState)
    ensures Settle(db, request, robot, state).log == db.log
  {
    hide CanSettle;
  }

  /** A step keeps every completed task announced exactly when it is neither a
      stop of the Edge while a completed task has no SUCCEEDED row yet, nor the
      settling of the last units of a task that its report does not name and
      nothing else announces. */
  lemma AnnouncedExactly(s: Sys, a: Action)
    requires Inv(s) && RecordedOk(s) && AllAnnounced(s)
    ensures AllAnnounced(Next(s, a)) <==> !Loses(s, a)
  {
    hide Inv, RecordedOk, AllAnnounced, Loses, Next;
    if Loses(s, a) {
      LosingStepLoses(s, a);
    } else {
      NextKeepsAnnounced(s, a);
    }
  }

  lemma DoneTaskExists(db: Db, task: string)
    requires LedgerInv(db) && AllDone(db.status, task)
    ensures task in db.tasks
  {
    var k :| k in db.status && k.task == task;
    RowFacts(db, k);
  }

  lemma CompletionIsAnnounced(db: Db, pc: Pc, healthy: set<string>)
    requires pc.Recorded? && pc.e.eventType.CarryCompleted? && pc.e.request != ""
    requires CanSettle(db, pc.e.request, pc.e.robot, Completed)
    ensures Continue(db, pc, healthy).1 == Some(Settled(pc.e.task))
  {
    hide CanSettle;
  }

  ghost predicate Lossless(s: Sys, actions: seq<Action>)
    decreases |actions|
  {
    actions == [] || (!Loses(s, actions[0]) && Lossless(Next(s, actions[0]), actions[1..]))
  }

  // In every state the run goes through, every completed task is announced.
  ghost predicate AlwaysAnnounced(s: Sys, actions: seq<Action>)
    decreases |actions|
  {
    AllAnnounced(s) && (actions == [] || AlwaysAnnounced(Next(s, actions[0]), actions[1..]))
  }

  lemma {:induction false} RunAnnouncesExactly(s: Sys, actions: seq<Action>)
    requires Inv(s) && RecordedOk(s) && AllAnnounced(s)
    ensures AlwaysAnnounced(s, actions) <==> Lossless(s, actions)
    ensures Inv(Run(s, actions)) && (Lossless(s, actions) ==> AllAnnounced(Run(s, actions)))
    decreases |actions|
  {
    hide Inv, Next, RecordedOk, AllAnnounced, Loses;
    if actions != [] {
      NextKeeps(s, actions[0]);
      NextKeepsRecorded(s, actions[0]);
      AnnouncedExactly(s, actions[0]);
      if Loses(s, actions[0]) {
        RunKeepsInv(s, actions);
      } else {
        RunAnnouncesExactly(Next(s, actions[0]), actions[1..]);
      }
    }
  }

  /** Along a run every completed task has, in every state, a SUCCEEDED row in
      the audit log or an operation about to write it, exactly when no step of
      the run loses an announcement. */
  lemma CompletedTasksAreAnnounced(actions: seq<Action>, task: string)
    ensures AlwaysAnnounced(START, actions) <==> Lossless(START, actions)
    ensures var s := Run(START, actions);
      Lossless(START, actions) && task in s.db.tasks && EveryUnitCompleted(s.db, task) ==> Announced(s, task)
  {
    assert Inv(START) by { EmptyIsSafe(); }
    RunAnnouncesExactly(START, actions);
    hide Lossless, AlwaysAnnounced, Run;
    var s := Run(START, actions);
    if task in s.db.tasks {
      DoneMeansCompleted(s.db, task);
    }
  }

  // ---- What a restart between two calls loses ---------------------------------

  // One thread settles the last units of a task; then the Edge stops.
  function StopAfterSettling(e: AmrEvent, consumer: nat): seq<Action> {
    [Start(consumer, OpReport(e))] + ([Advance(consumer, {})] + [Restart])
  }

  /** Wherever a report is about to complete an active task, a stop of the Edge
      right after the settlement leaves the task completed and not SUCCEEDED. */
  lemma RestartLosesSuccess(s: Sys, e: AmrEvent, consumer: nat)
    requires LedgerInv(s.db) && LastReport(s.db, e) && consumer !in s.threads
    ensures var d := Run(s, StopAfterSettling(e, consumer)).db;
      e.task in d.tasks && AllDone(d.status, e.task) && !d.tasks[e.task].state.Succeeded?
    ensures Run(s, StopAfterSettling(e, consumer)).threads == map[]
  {
    LastReportCalls(s.db, e);
    LastReportFinishes(s.db, e);
    hide LedgerInv, LastReport, RecordReport, Settle, CanCarry, AllDone, Begin, Continue, Next;
    StoppedAfter(s, OpReport(e), consumer);
  }

  lemma StoppedAfter(s: Sys, op: Op, tid: nat)
    requires tid !in s.threads && Begin(s.db, op).1.Some?
    ensures Run(s, [Start(tid, op)] + ([Advance(tid, {})] + [Restart]))
         == Sys(Continue(Begin(s.db, op).0, Begin(s.db, op).1.value, {}).0, map[])
  {
    hide Begin, Continue;
    var a, b := Start(tid, op), Advance(tid, {});
    RunStep(s, a, [b] + [Restart]);
    RunStep(Next(s, a), b, [Restart]);
    assert [Restart] + [] == [Restart];
    RunStep(Next(Next(s, a), b), Restart, []);
    StartLeavesOthers(s, tid, op);
    AdvanceLeavesOthers(Next(s, a), tid, {});
  }

  /** A task that is completed and not SUCCEEDED becomes SUCCEEDED exactly by a
      completion, of some other task's units, that names it. */
  lemma CompletedSucceedsExactly(db: Db, s: Step, task: string)
    requires Safe(db) && task in db.tasks && AllDone(db.status, task) && !db.tasks[task].state.Succeeded?
    ensures var d := Do(db, s);
      && task in d.tasks && AllDone(d.status, task)
      && (d.tasks[task].state.Succeeded? <==> s.StepReport? && s.e.task == task && FinishesNamed(db, s.e))
  {
    hide Safe, LedgerInv, AllDone, SucceededSound, AllocsAssigned, Report, Apply, Heartbeat, CanCreate, FinishesNamed;
    SafeParts(db);
    match s
    case StepCreate(t, warehouse) => CreateKeepsDone(db, Prepared(t, warehouse), task);
    case StepCancel(_) =>
    case StepApply(req) => ApplyLeavesDone(db, req, task);
    case StepReport(e) => ReportOnDone(db, e, task);
    case StepHeartbeat(order, healthy) =>
      HeartbeatKeepsStatus(db, order, healthy);
      HeartbeatNeverSucceeds(db, order, healthy, task);
  }

  lemma ReportOnDone(db: Db, e: AmrEvent, task: string)
    requires LedgerInv(db) && task in db.tasks && AllDone(db.status, task) && !db.tasks[task].state.Succeeded?
    ensures var d := Report(db, e);
      && task in d.tasks && AllDone(d.status, task)
      && (d.tasks[task].state.Succeeded? <==> e.task == task && FinishesNamed(db, e))
  {
    hide LedgerInv, AllDone, StatusCheck, HoldsLastUnits, RecordReport, CanSettle;
    RecordOnly(db, e);
    var d := RecordReport(db, e);
    SettleNeverRollsBack(d, e.request, e.robot, Outcome(e));
    if CanCarry(d, e) {
      SettleKeepsDone(d, e.request, e.robot, Outcome(e), task);
      SettleFinishesOnly(d, e.request, e.robot, Outcome(e));
    }
    hide Settle, HasOpen;
  }

  /** A task whose completion was stored but not announced, because the Edge
      stopped between the two calls, is never SUCCEEDED afterwards, as long as
      carry reports name their allocation's own task: the repeated report finds
      its allocation settled and goes no further. */
  lemma {:induction false} UnannouncedStaysUnannounced(db: Db, steps: seq<Step>, task: string)
    requires Safe(db) && task in db.tasks && AllDone(db.status, task) && !db.tasks[task].state.Succeeded?
    requires AllNameOwnTask(db, steps)
    ensures var d := DoAll(db, steps);
      task in d.tasks && !d.tasks[task].state.Succeeded? && EveryUnitCompleted(d, task)
    decreases |steps|
  {
    hide Safe, Do, AllDone, NamesOwnTask, EveryUnitCompleted, FinishesNamed;
    if steps == [] {
      DoneMeansCompleted(db, task);
    } else {
      StepKeeps(db, steps[0]);
      CompletedSucceedsExactly(db, steps[0], task);
      if steps[0].StepReport? && steps[0].e.task == task {
        OwnReportFindsNothing(db, steps[0].e);
      }
      UnannouncedStaysUnannounced(Do(db, steps[0]), steps[1..], task);
    }
  }

  // A report that names its allocation's own task settles nothing of a done task.
  lemma OwnReportFindsNothing(db: Db, e: AmrEvent)
    requires Safe(db) && AllDone(db.status, e.task) && NamesOwnTask(db, StepReport(e))
    ensures !FinishesNamed(db, e)
  {
    if FinishesNamed(db, e) {
      hide Safe, AllDone, HoldsLastUnits, StatusCheck;
      SafeParts(db);
      SettleNeverRollsBack(db, e.request, e.robot, Completed);
      hide LedgerInv, CanSettle;
      SettleFinishesOnly(db, e.request, e.robot, Completed);
      assert false;
    }
  }

  /** What a stop between settling and announcing loses is lost in every later
      run of operations whose carry reports name their own task. */
  lemma OperationsNeverRegain(s: Sys, e: AmrEvent, consumer: nat, steps: seq<Step>)
    requires Inv(s) && LastReport(s.db, e) && consumer !in s.threads
    requires AllNameOwnTask(Run(s, StopAfterSettling(e, consumer)).db, steps)
    ensures var d := DoAll(Run(s, StopAfterSettling(e, consumer)).db, steps);
      e.task in d.tasks && !d.tasks[e.task].state.Succeeded? && EveryUnitCompleted(d, e.task)
  {
    hide Safe, LastReport, Run, AllNameOwnTask, DoAll, AllDone, EveryUnitCompleted;
    SafeParts(s.db);
    RestartLosesSuccess(s, e, consumer);
    RunKeepsInv(s, StopAfterSettling(e, consumer));
    UnannouncedStaysUnannounced(Run(s, StopAfterSettling(e, consumer)).db, steps, e.task);
  }

  lemma {:induction false} HeartbeatNeverSucceeds(db: Db, order: seq<string>, healthy: set<string>, task: string)
    requires task in db.tasks && !db.tasks[task].state.Succeeded?
    ensures var d := Heartbeat(db, order, healthy); task in d.tasks && !d.tasks[task].state.Succeeded?
    decreases |order|
  {
    if order != [] {
      HeartbeatNeverSucceeds(if ShouldInterrupt(db, order[0], healthy) then Interrupt(db, order[0]) else db,
                             order[1..], healthy, task);
    }
  }

  lemma {:induction false} ApproveGoodsKeepsDone(
    db: Db, request: string, task: string, robot: string, goods: seq<TaskGoods>, t: string)
    requires AllDone(db.status, t)
    ensures var d := ApproveGoods(db, request, task, robot, goods).0;
      AllDone(d.status, t) && d.tasks == db.tasks
    decreases |goods|
  {
    hide AllDone, CanApprove;
    if goods != [] {
      var key := GoodsKey(task, goods[0].goodsId);
      ApproveKeepsDone(db, request, key, robot, goods[0].quantity, t);
      var d := Approve(db, request, key, robot, goods[0].quantity);
      assert d.tasks == db.tasks;
      hide Approve;
      ApproveGoodsKeepsDone(d, request, task, robot, goods[1..], t);
    }
  }

  lemma ApplyLeavesDone(db: Db, req: ApplyRequest, task: string)
    requires task in db.tasks && AllDone(db.status, task) && !db.tasks[task].state.Succeeded?
    ensures var d := Apply(db, req).0;
      task in d.tasks && !d.tasks[task].state.Succeeded? && AllDone(d.status, task)
  {
    hide AllDone;
    if ApplyRefusal(db, req).None? {
      ApproveGoodsKeepsDone(db, req.request, req.task, req.robot, req.goods, task);
    }
  }
}
