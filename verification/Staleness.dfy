/** Which suspended operations can still take a task out of SUCCEEDED. */
module Staleness {
  import opened Tables
  import opened Ledger
  import opened TaskRules
  import opened TaskLifecycle
  import opened SqliteDb
  import opened Interleaving

  // ---- When SUCCEEDED is overwritten -----------------------------------------

  // A suspended operation whose next call writes another state to the task.
  predicate Overwrites(pc: Pc, task: string, healthy: set<string>) {
    match pc
    case Cancelling(t, _) => t == task
    case Accepting(t) => t == task
    case Applying(req, seen, next) =>
      req.task == task && next >= |req.goods| && (seen.state.Pending? || seen.state.Accepted?)
    case Beating(active, next) =>
      next < |active| && active[next].taskId == task && AllAbnormal(active[next].robotIds, healthy)
    case _ => false
  }

  lemma ContinueLeavesSucceeded(db: Db, pc: Pc, healthy: set<string>, task: string)
    requires task in db.tasks && db.tasks[task].state.Succeeded?
    ensures var d := Continue(db, pc, healthy).0;
      task in d.tasks && (!d.tasks[task].state.Succeeded? <==> Overwrites(pc, task, healthy))
  {
    hide AllDone, CanSettle, CanApprove, AllAbnormal;
    match pc
    case Recorded(e) => assert Settle(db, e.request, e.robot, Outcome(e)).tasks == db.tasks;
    case _ =>
  }

  // The one call that takes a task out of SUCCEEDED.
  lemma SucceededIsLeftExactly(s: Sys, a: Action, task: string)
    requires task in s.db.tasks && s.db.tasks[task].state.Succeeded?
    ensures task in Next(s, a).db.tasks
    ensures !Next(s, a).db.tasks[task].state.Succeeded? <==>
            a.Advance? && a.tid in s.threads && Overwrites(s.threads[a.tid], task, a.healthy)
  {
    hide Begin, Continue, Overwrites;
    if a.Start? {
      BeginRecords(s.db, a.op);
    } else if a.Advance? && a.tid in s.threads {
      ContinueLeavesSucceeded(s.db, s.threads[a.tid], a.healthy, task);
    }
  }

  // A suspended operation that can still come to write another state to the task.
  ghost predicate Stale(pc: Pc, task: string) {
    match pc
    case Cancelling(t, _) => t == task
    case Accepting(t) => t == task
    case Applying(req, seen, next) =>
      req.task == task && next >= |req.goods| && (seen.state.Pending? || seen.state.Accepted?)
    case Beating(active, next) =>
      exists i :: next <= i < |active| && active[i].taskId == task && active[i].robotIds != []
    case _ => false
  }

  ghost predicate NoneStale(s: Sys, task: string) {
    forall tid | tid in s.threads :: !Stale(s.threads[tid], task)
  }

  ghost predicate HasSucceeded(db: Db, task: string) {
    task in db.tasks && db.tasks[task].state.Succeeded?
  }

  lemma OverwritingIsStale(pc: Pc, task: string, healthy: set<string>)
    ensures Overwrites(pc, task, healthy) ==> Stale(pc, task)
  {
  }

  // What starts while the task is SUCCEEDED does not start stale for it.
  lemma BeginIsNotStale(db: Db, op: Op, task: string)
    requires HasSucceeded(db, task)
    ensures var pc := Begin(db, op).1; pc.Some? ==> !Stale(pc.value, task)
  {
    if op.OpBeat? && ListsActive(db, op.active) {
      forall i | 0 <= i < |op.active| ensures op.active[i].taskId != task {
        assert IsActive(db.tasks[op.active[i].taskId]);
      }
    }
  }

  // An application still at its goods finds nothing pending and ends.
  lemma ContinueIsNotStale(db: Db, pc: Pc, healthy: set<string>, task: string)
    requires HasSucceeded(db, task) && SucceededSound(db) && !Stale(pc, task)
    ensures var after := Continue(db, pc, healthy).1; after.Some? ==> !Stale(after.value, task)
  {
    hide CanSettle, AllAbnormal;
    if pc.Applying? && pc.req.task == task && pc.next < |pc.req.goods| {
      assert AllDone(db.status, task);
      assert !CanApprove(db, pc.req.request, GoodsKey(task, pc.req.goods[pc.next].goodsId), pc.req.robot,
                         pc.req.goods[pc.next].quantity);
    }
    hide CanApprove, AllDone;
  }

  lemma NextKeepsSucceeded(s: Sys, a: Action, task: string)
    requires SucceededSound(s.db) && HasSucceeded(s.db, task) && NoneStale(s, task)
    ensures HasSucceeded(Next(s, a).db, task) && NoneStale(Next(s, a), task)
  {
    hide Begin, Continue, Stale, SucceededSound, Overwrites;
    SucceededIsLeftExactly(s, a, task);
    if a.Start? {
      BeginIsNotStale(s.db, a.op, task);
    } else if a.Advance? && a.tid in s.threads {
      OverwritingIsStale(s.threads[a.tid], task, a.healthy);
      ContinueIsNotStale(s.db, s.threads[a.tid], a.healthy, task);
    }
  }

  lemma {:induction false} RunKeepsSucceeded(s: Sys, actions: seq<Action>, task: string)
    requires Inv(s) && HasSucceeded(s.db, task) && NoneStale(s, task)
    ensures HasSucceeded(Run(s, actions).db, task)
    decreases |actions|
  {
    hide Next, NoneStale, HasSucceeded, Safe;
    if actions != [] {
      NextKeeps(s, actions[0]);
      SafeParts(s.db);
      NextKeepsSucceeded(s, actions[0], task);
      RunKeepsSucceeded(Next(s, actions[0]), actions[1..], task);
    }
  }

  // A beat that has the task ahead reaches it, and finds all robots abnormal.
  lemma {:induction false} DriveBeat(
    s: Sys, tid: nat, active: seq<ActiveTask>, next: nat, i: nat) returns (actions: seq<Action>)
    requires tid in s.threads && s.threads[tid] == Beating(active, next) && next <= i < |active|
    requires active[i].robotIds != [] && active[i].taskId in s.db.tasks
    ensures var d := Run(s, actions).db;
      active[i].taskId in d.tasks && d.tasks[active[i].taskId].state.Interrupted?
    decreases i - next
  {
    var a := Advance(tid, {});
    var n := Next(s, a);
    var rest := [];
    if next < i {
      rest := DriveBeat(n, tid, active, next + 1, i);
    } else {
      assert AllAbnormal(active[i].robotIds, {});
    }
    RunStep(s, a, rest);
    actions := [a] + rest;
  }

  lemma DriveStale(s: Sys, tid: nat, task: string) returns (actions: seq<Action>)
    requires tid in s.threads && Stale(s.threads[tid], task) && task in s.db.tasks
    ensures !HasSucceeded(Run(s, actions).db, task)
  {
    if s.threads[tid].Beating? {
      var active, next := s.threads[tid].active, s.threads[tid].next;
      var i :| next <= i < |active| && active[i].taskId == task && active[i].robotIds != [];
      actions := DriveBeat(s, tid, active, next, i);
    } else {
      var a := Advance(tid, {});
      RunStep(s, a, []);
      actions := [a] + [];
      assert !HasSucceeded(Next(s, a).db, task);
    }
  }

  /** SUCCEEDED is not final between threads: from a state in which a task is
      SUCCEEDED, some run takes it out of that state exactly when some suspended
      operation is stale for it. No operation becomes stale for a task that is
      SUCCEEDED. */
  lemma SucceededCanBeLeftExactly(s: Sys, task: string)
    requires Inv(s) && HasSucceeded(s.db, task)
    ensures (exists actions :: !HasSucceeded(Run(s, actions).db, task)) <==> !NoneStale(s, task)
  {
    if !NoneStale(s, task) {
      var tid :| tid in s.threads && Stale(s.threads[tid], task);
      var actions := DriveStale(s, tid, task);
    } else {
      forall actions ensures HasSucceeded(Run(s, actions).db, task) {
        RunKeepsSucceeded(s, actions, task);
      }
    }
  }

  // The report completes the last units of the active task it names.
  ghost predicate LastReport(db: Db, e: AmrEvent) {
    && e.task in db.tasks && IsActive(db.tasks[e.task])
    && e.eventType.CarryCompleted? && e.request != "" && HasOpen(db.allocs, e.request, e.robot)
    && var a := db.allocs[FindOpen(db.allocs, e.request, e.robot)];
       a.task == e.task && HoldsLastUnits(db.status, a)
  }

  lemma LastReportFinishes(db: Db, e: AmrEvent)
    requires LedgerInv(db) && LastReport(db, e)
    ensures var d := RecordReport(db, e);
      && CanCarry(d, e) && d.tasks == db.tasks
      && var s := Settle(d, e.request, e.robot, Completed);
         s.tasks == db.tasks && AllDone(s.status, e.task)
  {
    hide LedgerInv, RecordReport, AllDone, HoldsLastUnits;
    RecordOnly(db, e);
    var d := RecordReport(db, e);
    SettleNeverRollsBack(d, e.request, e.robot, Completed);
    SettleFinishesOnly(d, e.request, e.robot, Completed);
  }

  lemma ReportCalls(db: Db, d: Db, f: Db, e: AmrEvent)
    requires e.eventType.CarryCompleted? && e.request != "" && CanCarry(d, e)
    requires d == RecordReport(db, e) && f == Settle(d, e.request, e.robot, Completed)
    requires e.task in f.tasks && AllDone(f.status, e.task)
    ensures Begin(db, OpReport(e)) == (d, Some(Recorded(e)))
    ensures Continue(d, Recorded(e), {}) == (f, Some(Settled(e.task)))
    ensures Continue(f, Settled(e.task), {}) == (f, Some(Found(e.task)))
    ensures Continue(f, Found(e.task), {}) == (f, Some(Finishing(e.task)))
    ensures Continue(f, Finishing(e.task), {})
         == (SetStateLogged(f, e.task, Succeeded, "all goods completed", "AMR"), None)
  {
    hide RecordReport, Settle, CanCarry, AllDone, SetStateLogged;
  }

  // The database calls of one operation that handles the last report.
  lemma LastReportCalls(db: Db, e: AmrEvent)
    requires LedgerInv(db) && LastReport(db, e)
    ensures var d := RecordReport(db, e);
      var f := Settle(d, e.request, e.robot, Completed);
      && Begin(db, OpReport(e)) == (d, Some(Recorded(e)))
      && Continue(d, Recorded(e), {}) == (f, Some(Settled(e.task)))
      && Continue(f, Settled(e.task), {}) == (f, Some(Found(e.task)))
      && Continue(f, Found(e.task), {}) == (f, Some(Finishing(e.task)))
      && Continue(f, Finishing(e.task), {})
         == (SetStateLogged(f, e.task, Succeeded, "all goods completed", "AMR"), None)
  {
    hide LedgerInv, RecordReport, Settle, CanCarry, AllDone, SetStateLogged, Begin, Continue;
    LastReportFinishes(db, e);
    var d := RecordReport(db, e);
    ReportCalls(db, d, Settle(d, e.request, e.robot, Completed), e);
  }

  lemma RunSix(s: Sys, a: Action, b: Action, c: Action)
    ensures Run(s, [a] + ([b] + ([c] + ([c] + ([c] + [c]))))) == Next(Next(Next(Next(Next(Next(s, a), b), c), c), c), c)
  {
    hide Next;
    var s1 := Next(s, a);
    var s2 := Next(s1, b);
    RunStep(s, a, [b] + ([c] + ([c] + ([c] + [c]))));
    RunStep(s1, b, [c] + ([c] + ([c] + [c])));
    RunStep(s2, c, [c] + ([c] + [c]));
    RunStep(Next(s2, c), c, [c] + [c]);
    RunStep(Next(Next(s2, c), c), c, [c]);
    assert [c] + [] == [c];
    RunStep(Next(Next(Next(s2, c), c), c), c, []);
  }

  // One thread reads the task to cancel it, another handles the last report.
  function CancelAgainstReport(e: AmrEvent, canceller: nat, consumer: nat): seq<Action> {
    var next := Advance(consumer, {});
    [Start(canceller, OpCancel(e.task))] + ([Start(consumer, OpReport(e))] + ([next] + ([next] + ([next] + [next]))))
  }

  lemma ReportWins(s: Sys, e: AmrEvent, canceller: nat, consumer: nat)
    requires LedgerInv(s.db) && LastReport(s.db, e)
    requires canceller !in s.threads && consumer !in s.threads && canceller != consumer
    ensures var won := Run(s, CancelAgainstReport(e, canceller, consumer));
      var f := Settle(RecordReport(s.db, e), e.request, e.robot, Completed);
      && won.db == SetStateLogged(f, e.task, Succeeded, "all goods completed", "AMR")
      && won.threads == s.threads[canceller := Cancelling(e.task, s.db.tasks[e.task])]
  {
    LastReportCalls(s.db, e);
    var next := Advance(consumer, {});
    var a, b := Start(canceller, OpCancel(e.task)), Start(consumer, OpReport(e));
    var c := Cancelling(e.task, s.db.tasks[e.task]);
    assert Begin(s.db, OpCancel(e.task)) == (s.db, Some(c));
    hide LedgerInv, LastReport, RecordReport, Settle, Begin, Continue, SetStateLogged, Next;
    RunSix(s, a, b, next);
    var d := RecordReport(s.db, e);
    var f := Settle(d, e.request, e.robot, Completed);
    var t := s.threads[canceller := c];
    Starts(s, canceller, OpCancel(e.task));
    Starts(Sys(s.db, t), consumer, OpReport(e));
    Advances(d, t, consumer, Recorded(e));
    Advances(f, t, consumer, Settled(e.task));
    Advances(f, t, consumer, Found(e.task));
    Advances(f, t, consumer, Finishing(e.task));
  }

  lemma Starts(s: Sys, tid: nat, op: Op)
    requires tid !in s.threads && Begin(s.db, op).1.Some?
    ensures Next(s, Start(tid, op)) == Sys(Begin(s.db, op).0, s.threads[tid := Begin(s.db, op).1.value])
  {
    hide Begin;
  }

  // One more call of a thread that was added to the threads `t`.
  lemma Advances(db: Db, t: map<nat, Pc>, tid: nat, pc: Pc)
    requires tid !in t
    ensures var (d, after) := Continue(db, pc, {});
      Next(Sys(db, t[tid := pc]), Advance(tid, {})) == Sys(d, if after.None? then t else t[tid := after.value])
  {
    hide Continue;
    var after := Continue(db, pc, {}).1;
    assert t[tid := pc] - {tid} == t;
    assert after.Some? ==> t[tid := pc][tid := after.value] == t[tid := after.value];
  }

  /** SUCCEEDED is not final between threads: in every state where a report is
      about to complete an active task, a cancellation that has already read the
      task lets the report store SUCCEEDED and then writes CANCELLED over it,
      with every unit completed. */
  lemma CancellationOverwritesSuccess(s: Sys, e: AmrEvent, canceller: nat, consumer: nat)
    requires LedgerInv(s.db) && LastReport(s.db, e)
    requires canceller !in s.threads && consumer !in s.threads && canceller != consumer
    ensures var won := Run(s, CancelAgainstReport(e, canceller, consumer));
      && e.task in won.db.tasks && won.db.tasks[e.task].state.Succeeded?
      && var lost := Next(won, Advance(canceller, {}));
         && e.task in lost.db.tasks && lost.db.tasks[e.task].state.Cancelled?
         && AllDone(lost.db.status, e.task) && lost.threads == s.threads
  {
    LastReportFinishes(s.db, e);
    ReportWins(s, e, canceller, consumer);
    hide LedgerInv, LastReport, RecordReport, Settle, CanSettle, CanCarry, AllDone, Run, Next, HoldsLastUnits;
    var won := Run(s, CancelAgainstReport(e, canceller, consumer));
    Advances(won.db, s.threads, canceller, Cancelling(e.task, s.db.tasks[e.task]));
  }
}
