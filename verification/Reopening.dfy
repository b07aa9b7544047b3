/** Which suspended operations can still take a task out of a terminal state back
    to ACCEPTED or RUNNING. */
module Reopening {
  import opened Tables
  import opened Ledger
  import opened TaskRules
  import opened TaskLifecycle
  import opened Allocations
  import opened SqliteDb
  import opened Interleaving
  import opened Announcements
  import opened Operations

  predicate IsTerminal(db: Db, task: string) { task in db.tasks && Terminal(db.tasks[task].state) }

  predicate SawOpen(seen: TaskRow) { seen.state.Pending? || seen.state.Accepted? }

  // ---- One call -----------------------------------------------------------------

  // The operation's next call writes ACCEPTED or RUNNING to the task.
  predicate Reopens(pc: Pc, task: string) {
    match pc
    case Accepting(t) => t == task
    case Applying(req, seen, next) => req.task == task && next >= |req.goods| && SawOpen(seen)
    case _ => false
  }

  lemma ContinueReopensExactly(db: Db, pc: Pc, healthy: set<string>, task: string)
    requires IsTerminal(db, task)
    ensures var d := Continue(db, pc, healthy).0;
      task in d.tasks && (!IsTerminal(d, task) <==> Reopens(pc, task))
  {
    hide AllDone, CanSettle, CanApprove, AllAbnormal;
    if pc.Recorded? {
      assert Settle(db, pc.e.request, pc.e.robot, Outcome(pc.e)).tasks == db.tasks;
    }
  }

  /** One call takes a task out of a terminal state exactly when it is the last
      call of an acceptance of it, or of an application that read it PENDING or
      ACCEPTED and has approved its goods. */
  lemma TerminalIsLeftByCallExactly(s: Sys, a: Action, task: string)
    requires IsTerminal(s.db, task)
    ensures task in Next(s, a).db.tasks
    ensures !IsTerminal(Next(s, a).db, task) <==> a.Advance? && a.tid in s.threads && Reopens(s.threads[a.tid], task)
  {
    hide Begin, Continue, Reopens;
    if a.Start? {
      BeginRecords(s.db, a.op);
    } else if a.Advance? && a.tid in s.threads {
      ContinueReopensExactly(s.db, s.threads[a.tid], a.healthy, task);
    }
  }

  // ---- What an application can still be approved ------------------------------------

  // Units of `key` held under an empty request id: no report gives them back.
  function HeldForGood(allocs: seq<Allocation>, key: GoodsKey): int {
    if allocs == [] then 0
    else HeldForGood(allocs[..|allocs| - 1], key) + Stuck(allocs[|allocs| - 1], key)
  }

  function Stuck(a: Allocation, key: GoodsKey): int {
    if a.request == "" then Weight(a, key, InProgress) else 0
  }

  // The most that can ever be pending again.
  function Recoverable(db: Db, key: GoodsKey): int
    requires key in db.status
  {
    db.status[key].total - db.status[key].completed - HeldForGood(db.allocs, key)
  }

  predicate Obtainable(db: Db, request: string, key: GoodsKey, robot: string, quantity: int) {
    key in db.status && 0 < quantity <= Recoverable(db, key) && !Allocated(db.allocs, request, robot)
  }

  // A suspended operation that can still come to write ACCEPTED or RUNNING to
  // the task. An application can only have its last item still to be approved:
  // an earlier approval under its request id bars every later one.
  predicate MayReopen(db: Db, pc: Pc, task: string) {
    match pc
    case Accepting(t) => t == task
    case Applying(req, seen, next) =>
      req.task == task && SawOpen(seen) &&
      (next >= |req.goods| ||
       (next == |req.goods| - 1 &&
        Obtainable(db, req.request, GoodsKey(task, req.goods[next].goodsId), req.robot, req.goods[next].quantity)))
    case _ => false
  }

  ghost predicate NoneMayReopen(s: Sys, task: string) {
    forall tid | tid in s.threads :: !MayReopen(s.db, s.threads[tid], task)
  }

  lemma {:induction false} HeldForGoodAppend(allocs: seq<Allocation>, a: Allocation, key: GoodsKey)
    ensures HeldForGood(allocs + [a], key) == HeldForGood(allocs, key) + Stuck(a, key)
  {
    assert (allocs + [a])[..|allocs|] == allocs;
  }

  lemma {:induction false} HeldForGoodUpdate(allocs: seq<Allocation>, i: nat, a: Allocation, key: GoodsKey)
    requires i < |allocs| && allocs[i].request != "" && a.request != ""
    ensures HeldForGood(allocs[i := a], key) == HeldForGood(allocs, key)
  {
    var n := |allocs| - 1;
    if i == n {
      assert allocs[i := a][..n] == allocs[..n];
    } else {
      HeldForGoodUpdate(allocs[..n], i, a, key);
      assert allocs[i := a][..n] == allocs[..n][i := a];
    }
  }

  // Held for good is held; with no other open allocation of the item it is all.
  lemma {:induction false} HeldForGoodIsHeld(allocs: seq<Allocation>, key: GoodsKey)
    requires forall i | 0 <= i < |allocs| :: allocs[i].quantity > 0
    ensures HeldForGood(allocs, key) <= Held(allocs, key, InProgress)
    ensures (forall i | 0 <= i < |allocs| :: !OpenWithId(allocs[i], key)) ==>
              HeldForGood(allocs, key) == Held(allocs, key, InProgress)
  {
    if allocs != [] {
      HeldForGoodIsHeld(allocs[..|allocs| - 1], key);
    }
  }

  predicate OpenWithId(a: Allocation, key: GoodsKey) { KeyOf(a) == key && a.state.InProgress? && a.request != "" }

  lemma PendingIsRecoverable(db: Db, key: GoodsKey)
    requires LedgerInv(db) && key in db.status
    ensures db.status[key].pending <= Recoverable(db, key)
    ensures (forall i | 0 <= i < |db.allocs| :: !OpenWithId(db.allocs[i], key)) ==>
              db.status[key].pending == Recoverable(db, key)
  {
    RowFacts(db, key);
    forall i | 0 <= i < |db.allocs| ensures db.allocs[i].quantity > 0 {
      AllocFacts(db, i);
    }
    hide LedgerInv;
    HeldForGoodIsHeld(db.allocs, key);
  }

  lemma ApproveShrinks(db: Db, request: string, k: GoodsKey, robot: string, quantity: int, key: GoodsKey)
    requires CanApprove(db, request, k, robot, quantity) && key in db.status
    ensures var d := Approve(db, request, k, robot, quantity);
      && key in d.status && Recoverable(d, key) <= Recoverable(db, key)
      && d.tasks == db.tasks && d.status.Keys == db.status.Keys
      && Allocated(d.allocs, request, robot)
      && forall q, r :: Allocated(db.allocs, q, r) ==> Allocated(d.allocs, q, r)
  {
    ApprovedIs(db, request, k, robot, quantity);
    var a := Allocation(request, k.task, k.goods, robot, quantity, InProgress);
    HeldForGoodAppend(db.allocs, a, key);
    hide Approve, CanApprove, HeldForGood;
    var d := Approve(db, request, k, robot, quantity);
    assert d.allocs[|db.allocs|] == a;
    forall q, r | Allocated(db.allocs, q, r) ensures Allocated(d.allocs, q, r) {
      var i :| 0 <= i < |db.allocs| && db.allocs[i].request == q && db.allocs[i].robot == r;
      assert d.allocs[i] == db.allocs[i];
    }
  }

  lemma SettleShrinks(db: Db, request: string, robot: string, state: AllocState, key: GoodsKey)
    requires LedgerInv(db) && request != "" && key in db.status
    ensures var d := Settle(db, request, robot, state);
      && key in d.status && Recoverable(d, key) <= Recoverable(db, key)
      && (state.Aborted? ==> Recoverable(d, key) == Recoverable(db, key))
      && d.tasks == db.tasks && d.status.Keys == db.status.Keys
      && forall q, r :: Allocated(db.allocs, q, r) <==> Allocated(d.allocs, q, r)
  {
    if CanSettle(db, request, robot, state) {
      var i := FindOpen(db.allocs, request, robot);
      AllocFacts(db, i);
      SettledIs(db, request, robot, state);
      HeldForGoodUpdate(db.allocs, i, db.allocs[i].(state := state), key);
      assert state.Completed? || state.Aborted?;
      hide LedgerInv, Settle, CanSettle, HeldForGood, FindOpen, HasOpen;
      SameOwners(db.allocs, i, state);
    } else {
      hide CanSettle;
    }
  }

  lemma SameOwners(allocs: seq<Allocation>, i: nat, state: AllocState)
    requires i < |allocs|
    ensures forall q, r :: Allocated(allocs, q, r) <==> Allocated(allocs[i := allocs[i].(state := state)], q, r)
  {
    var after := allocs[i := allocs[i].(state := state)];
    assert forall j | 0 <= j < |allocs| :: after[j].request == allocs[j].request && after[j].robot == allocs[j].robot;
  }

  // What a suspended operation needs of a report it has recorded.
  predicate PcRecordedOk(pc: Pc) { pc.Recorded? && IsCarry(pc.e) ==> pc.e.request != "" }

  // No call makes anything obtainable that was not.
  lemma ContinueShrinks(
    db: Db, pc: Pc, healthy: set<string>, request: string, key: GoodsKey, robot: string, quantity: int)
    requires LedgerInv(db) && PcRecordedOk(pc) && key.task in db.tasks
    ensures Obtainable(Continue(db, pc, healthy).0, request, key, robot, quantity)
      ==> Obtainable(db, request, key, robot, quantity)
  {
    hide LedgerInv, AllDone, AllAbnormal, Recoverable, Allocated, CanSettle, CanApprove, Settle, Approve;
    match pc
    case Creating(t) => CreateShrinks(db, t, key);
    case Applying(req, _, next) =>
      if next < |req.goods| {
        var k, q := GoodsKey(req.task, req.goods[next].goodsId), req.goods[next].quantity;
        if CanApprove(db, req.request, k, req.robot, q) {
          if key in db.status {
            ApproveShrinks(db, req.request, k, req.robot, q, key);
          } else {
            ApprovedIs(db, req.request, k, req.robot, q);
          }
        }
      } else {
        SameShrinks(db, Continue(db, pc, healthy).0, key);
      }
    case Recorded(e) =>
      if IsCarry(e) {
        if key in db.status {
          SettleShrinks(db, e.request, e.robot, Outcome(e), key);
        } else {
          SettleKeepsKeys(db, e.request, e.robot, Outcome(e));
        }
      }
    case _ => SameShrinks(db, Continue(db, pc, healthy).0, key);
  }

  lemma SettleKeepsKeys(db: Db, request: string, robot: string, state: AllocState)
    ensures Settle(db, request, robot, state).status.Keys == db.status.Keys
  {
    hide StatusCheck;
  }

  lemma SameShrinks(db: Db, d: Db, key: GoodsKey)
    requires d.status == db.status && d.allocs == db.allocs
    ensures key in db.status ==> Recoverable(d, key) == Recoverable(db, key)
  {
  }

  lemma CreateShrinks(db: Db, t: TransportTask, key: GoodsKey)
    requires LedgerInv(db) && key.task in db.tasks
    ensures var d := CreateTask(db, t);
      && d.allocs == db.allocs && (key in d.status <==> key in db.status)
      && (key in db.status ==> Recoverable(d, key) == Recoverable(db, key))
  {
    if CanCreate(db, t) {
      CreateOpensLedger(db, t);
      hide LedgerInv, Tables.CreateTask;
    }
  }

  // ---- A terminal task that no operation may reopen stays terminal --------------------

  lemma BeginMayNot(db: Db, op: Op, task: string)
    requires IsTerminal(db, task)
    ensures var (d, pc) := Begin(db, op); pc.Some? ==> !MayReopen(d, pc.value, task)
  {
    hide ListsActive, Obtainable;
  }

  // An operation itself comes no nearer to reopening the task.
  lemma ContinueMayNot(db: Db, pc: Pc, healthy: set<string>, task: string)
    requires LedgerInv(db) && IsTerminal(db, task) && !MayReopen(db, pc, task)
    ensures var (d, after) := Continue(db, pc, healthy); after.Some? ==> !MayReopen(d, after.value, task)
  {
    hide LedgerInv, AllDone, AllAbnormal, CanSettle, Settle, Approve;
    if pc.Applying? && pc.next < |pc.req.goods| {
      var req := pc.req;
      var k, q := GoodsKey(req.task, req.goods[pc.next].goodsId), req.goods[pc.next].quantity;
      if CanApprove(db, req.request, k, req.robot, q) {
        PendingIsRecoverable(db, k);
        ApproveShrinks(db, req.request, k, req.robot, q, k);
      }
      hide CanApprove, Allocated, Recoverable;
    }
  }

  lemma OtherMayNot(db: Db, d: Db, pc: Pc, task: string)
    requires !MayReopen(db, pc, task)
    requires forall request, key: GoodsKey, robot, quantity | key.task == task ::
      Obtainable(d, request, key, robot, quantity) ==> Obtainable(db, request, key, robot, quantity)
    ensures !MayReopen(d, pc, task)
  {
    hide Obtainable;
  }

  lemma NextKeepsTerminal(s: Sys, a: Action, task: string)
    requires LedgerInv(s.db) && RecordedOk(s) && IsTerminal(s.db, task) && NoneMayReopen(s, task)
    ensures IsTerminal(Next(s, a).db, task) && NoneMayReopen(Next(s, a), task)
  {
    assert task in s.db.tasks;
    hide LedgerInv, Begin, Continue, MayReopen, Obtainable, IsTerminal;
    var n := Next(s, a);
    TerminalIsLeftByCallExactly(s, a, task);
    if a.Advance? && a.tid in s.threads {
      ReopeningMay(s.db, s.threads[a.tid], task);
    }
    ActionShrinks(s, a, task);
    if a.Start? && a.tid !in s.threads {
      BeginMayNot(s.db, a.op, task);
      StartLeavesOthers(s, a.tid, a.op);
    } else if a.Advance? && a.tid in s.threads {
      ContinueMayNot(s.db, s.threads[a.tid], a.healthy, task);
      AdvanceLeavesOthers(s, a.tid, a.healthy);
    }
    hide Next;
    forall tid | tid in n.threads ensures !MayReopen(n.db, n.threads[tid], task) {
      if tid in s.threads && n.threads[tid] == s.threads[tid] {
        OtherMayNot(s.db, n.db, s.threads[tid], task);
      } else {
        NewPc(s, a, tid);
      }
    }
  }

  // A thread stands elsewhere only after its own action.
  lemma NewPc(s: Sys, a: Action, tid: nat)
    requires tid in Next(s, a).threads
    requires !(tid in s.threads && Next(s, a).threads[tid] == s.threads[tid])
    ensures !a.Restart? && a.tid == tid && (a.Start? ==> tid !in s.threads) && (a.Advance? ==> tid in s.threads)
  {
    hide Begin, Continue;
  }

  lemma ReopeningMay(db: Db, pc: Pc, task: string)
    ensures Reopens(pc, task) ==> MayReopen(db, pc, task)
  {
    hide Obtainable;
  }

  lemma ActionShrinks(s: Sys, a: Action, task: string)
    requires LedgerInv(s.db) && RecordedOk(s) && task in s.db.tasks
    ensures forall request, key: GoodsKey, robot, quantity | key.task == task ::
      Obtainable(Next(s, a).db, request, key, robot, quantity) ==> Obtainable(s.db, request, key, robot, quantity)
  {
    hide LedgerInv, Begin, Continue, Recoverable, Allocated;
    forall request, key: GoodsKey, robot, quantity
      | key.task == task && Obtainable(Next(s, a).db, request, key, robot, quantity)
      ensures Obtainable(s.db, request, key, robot, quantity)
    {
      if a.Start? && a.tid !in s.threads {
        BeginRecords(s.db, a.op);
        assert key in s.db.status;
        SameShrinks(s.db, Next(s, a).db, key);
      } else if a.Advance? && a.tid in s.threads {
        ContinueShrinks(s.db, s.threads[a.tid], a.healthy, request, key, robot, quantity);
      }
    }
  }

  lemma {:induction false} RunKeepsTerminal(s: Sys, actions: seq<Action>, task: string)
    requires Inv(s) && RecordedOk(s) && IsTerminal(s.db, task) && NoneMayReopen(s, task)
    ensures IsTerminal(Run(s, actions).db, task)
    decreases |actions|
  {
    hide Next, NoneMayReopen, IsTerminal, Safe, LedgerInv, RecordedOk;
    if actions != [] {
      NextKeeps(s, actions[0]);
      NextKeepsRecorded(s, actions[0]);
      SafeParts(s.db);
      NextKeepsTerminal(s, actions[0], task);
      RunKeepsTerminal(Next(s, actions[0]), actions[1..], task);
    }
  }

  // ---- An operation that may reopen the task can be driven to do so --------------------

  function Aborts(a: Allocation): AmrEvent {
    AmrEvent("", a.task, a.robot, CarryAborted, "", a.request, "", "", "")
  }

  function OpenWithIdCount(allocs: seq<Allocation>, key: GoodsKey): nat {
    if allocs == [] then 0
    else OpenWithIdCount(allocs[..|allocs| - 1], key) + if OpenWithId(allocs[|allocs| - 1], key) then 1 else 0
  }

  lemma {:induction false} OpenWithIdFalls(allocs: seq<Allocation>, i: nat, key: GoodsKey)
    requires i < |allocs| && OpenWithId(allocs[i], key)
    ensures OpenWithIdCount(allocs[i := allocs[i].(state := Aborted)], key) == OpenWithIdCount(allocs, key) - 1
  {
    var n := |allocs| - 1;
    var after := allocs[i := allocs[i].(state := Aborted)];
    if i == n {
      assert after[..n] == allocs[..n];
    } else {
      OpenWithIdFalls(allocs[..n], i, key);
      assert after[..n] == allocs[..n][i := allocs[i].(state := Aborted)];
    }
  }

  // Aborting one open allocation of the item loses nothing that is recoverable.
  lemma AbortOne(db: Db, i: nat, key: GoodsKey)
    requires LedgerInv(db) && i < |db.allocs| && OpenWithId(db.allocs[i], key)
    ensures var d := Report(db, Aborts(db.allocs[i]));
      && key in db.status && key in d.status && Recoverable(d, key) == Recoverable(db, key)
      && d.tasks == db.tasks && d.allocs == db.allocs[i := db.allocs[i].(state := Aborted)]
  {
    var e := Aborts(db.allocs[i]);
    RecordOnly(db, e);
    var r := RecordReport(db, e);
    SameShrinks(db, r, key);
    AllocFacts(db, i);
    FoundOpen(db, i);
    SettleNeverRollsBack(r, e.request, e.robot, Aborted);
    SettledIs(r, e.request, e.robot, Aborted);
    SettleShrinks(r, e.request, e.robot, Aborted, key);
    hide LedgerInv, RecordReport, CanSettle, Settle, FindOpen, HasOpen, Recoverable, AllDone;
  }

  lemma {:induction false} BiggerThanAll(tids: set<nat>) returns (n: nat)
    ensures forall tid | tid in tids :: tid < n
    decreases |tids|
  {
    n := 0;
    if tids != {} {
      var tid :| tid in tids;
      var m := BiggerThanAll(tids - {tid});
      n := if m <= tid then tid + 1 else m;
      assert forall t | t in tids :: t == tid || t in tids - {tid};
    }
  }

  // Abort reports give back all of the item that can be given back.
  lemma DriveAborts(s: Sys, key: GoodsKey, tid: nat) returns (actions: seq<Action>)
    requires Inv(s) && key in s.db.status && tid !in s.threads
    ensures NoRestarts(actions)
    ensures var n := Run(s, actions);
      && Inv(n) && n.threads == s.threads && n.db.tasks == s.db.tasks
      && key in n.db.status && Recoverable(n.db, key) == Recoverable(s.db, key)
      && (forall q, r :: Allocated(n.db.allocs, q, r) <==> Allocated(s.db.allocs, q, r))
      && (forall i | 0 <= i < |n.db.allocs| :: !OpenWithId(n.db.allocs[i], key))
    decreases OpenWithIdCount(s.db.allocs, key)
  {
    hide Safe, PcOk, Recoverable, Allocated, Report, Next, OpenWithIdCount;
    actions := [];
    if i: nat :| i < |s.db.allocs| && OpenWithId(s.db.allocs[i], key) {
      SafeParts(s.db);
      hide LedgerInv;
      AbortOne(s.db, i, key);
      OpenWithIdFalls(s.db.allocs, i, key);
      SameOwners(s.db.allocs, i, Aborted);
      var once := StepIsUninterruptedRun(s, OpReport(Aborts(s.db.allocs[i])), tid, {});
      RunKeepsInv(s, once);
      var n := Run(s, once);
      hide Run;
      var rest := DriveAborts(n, key, tid);
      RunAppend(s, once, rest);
      actions := once + rest;
    }
  }

  lemma DriveApplying(s: Sys, tid: nat, task: string) returns (actions: seq<Action>)
    requires Inv(s) && task in s.db.tasks && tid in s.threads && s.threads[tid].Applying?
    requires MayReopen(s.db, s.threads[tid], task)
    ensures NoRestarts(actions)
    ensures var d := Run(s, actions).db; task in d.tasks && d.tasks[task].state.Running?
  {
    hide Safe, LedgerInv, PcOk, Next, Recoverable, Allocated;
    var pc := s.threads[tid];
    var last := Advance(tid, {});
    if pc.next >= |pc.req.goods| {
      LastCallRuns(s, tid, task);
      RunStep(s, last, []);
      actions := [last] + [];
    } else {
      var key := GoodsKey(task, pc.req.goods[pc.next].goodsId);
      var free := BiggerThanAll(s.threads.Keys);
      var aborts := DriveAborts(s, key, free);
      var n := Run(s, aborts);
      hide Run;
      LastItemIsApproved(n, tid, task);
      var m := Next(n, last);
      LastCallRuns(m, tid, task);
      RunStep(n, last, [last]);
      RunStep(m, last, []);
      assert [last] + [] == [last];
      RunAppend(s, aborts, [last] + [last]);
      RunNone(Next(m, last));
      actions := aborts + ([last] + [last]);
    }
  }

  lemma LastCallRuns(s: Sys, tid: nat, task: string)
    requires task in s.db.tasks && tid in s.threads && Reopens(s.threads[tid], task) && s.threads[tid].Applying?
    ensures var d := Next(s, Advance(tid, {})).db; task in d.tasks && d.tasks[task].state.Running?
  {
  }

  // With nothing else to give back, what is obtainable is pending.
  lemma LastItemIsApproved(s: Sys, tid: nat, task: string)
    requires Inv(s) && task in s.db.tasks && tid in s.threads && s.threads[tid].Applying?
    requires MayReopen(s.db, s.threads[tid], task) && s.threads[tid].next < |s.threads[tid].req.goods|
    requires var key := GoodsKey(task, s.threads[tid].req.goods[s.threads[tid].next].goodsId);
      forall i | 0 <= i < |s.db.allocs| :: !OpenWithId(s.db.allocs[i], key)
    ensures var n := Next(s, Advance(tid, {}));
      task in n.db.tasks && tid in n.threads && n.threads[tid].Applying? && Reopens(n.threads[tid], task)
  {
    var req, next := s.threads[tid].req, s.threads[tid].next;
    var key := GoodsKey(task, req.goods[next].goodsId);
    SafeParts(s.db);
    PendingIsRecoverable(s.db, key);
    assert CanApprove(s.db, req.request, key, req.robot, req.goods[next].quantity);
    ApprovedIs(s.db, req.request, key, req.robot, req.goods[next].quantity);
    hide Safe, LedgerInv, CanApprove, Approve, Recoverable, Allocated;
  }

  lemma DriveReopening(s: Sys, tid: nat, task: string) returns (actions: seq<Action>)
    requires Inv(s) && IsTerminal(s.db, task) && tid in s.threads && MayReopen(s.db, s.threads[tid], task)
    ensures !IsTerminal(Run(s, actions).db, task)
  {
    if s.threads[tid].Applying? {
      actions := DriveApplying(s, tid, task);
    } else {
      var a := Advance(tid, {});
      TerminalIsLeftByCallExactly(s, a, task);
      hide Next;
      RunStep(s, a, []);
      actions := [a] + [];
      RunNone(Next(s, a));
    }
  }

  /** From a state in which a task is terminal some run takes it back to ACCEPTED
      or RUNNING exactly when some suspended operation may reopen it: an
      acceptance about to be written, or an application that read the task
      PENDING or ACCEPTED and has nothing, or one obtainable item, left to
      approve. No operation comes to be one while the task is terminal. */
  lemma TerminalCanBeLeftExactly(s: Sys, task: string)
    requires Inv(s) && RecordedOk(s) && IsTerminal(s.db, task)
    ensures (exists actions :: !IsTerminal(Run(s, actions).db, task)) <==> !NoneMayReopen(s, task)
  {
    hide Inv, RecordedOk, MayReopen, Run, IsTerminal;
    if !NoneMayReopen(s, task) {
      var tid :| tid in s.threads && MayReopen(s.db, s.threads[tid], task);
      var actions := DriveReopening(s, tid, task);
    } else {
      forall actions ensures IsTerminal(Run(s, actions).db, task) {
        RunKeepsTerminal(s, actions, task);
      }
    }
  }
}
