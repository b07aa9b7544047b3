/** The Edge's threads interleaved at the granularity of database calls. HTTP
    workers, the MQTT consumer and the heartbeat timer share only the mutex of
    the database, so between two calls of one operation any other thread may
    run, and the operation goes on with what it read before. Any number of
    threads may run any operation; a restart loses them and keeps the tables. */
module Interleaving {
  import opened Tables
  import opened Ledger
  import opened TaskRules
  import opened TaskLifecycle
  import opened SqliteDb

  // Where an operation stands between two database calls, with its snapshots.
  datatype Pc =
    | Creating(t: TransportTask)
    | Cancelling(task: string, seen: TaskRow)
    | Applying(req: ApplyRequest, seen: TaskRow, next: nat)
    | Recorded(e: AmrEvent)
    | Accepting(task: string)
    | Settled(task: string)
    | Found(task: string)
    | Finishing(task: string)
    | Beating(active: seq<ActiveTask>, next: nat)

  datatype Op =
    | OpCreate(t: TransportTask, warehouse: string)
    | OpCancel(task: string)
    | OpApply(req: ApplyRequest)
    | OpReport(e: AmrEvent)
    | OpBeat(active: seq<ActiveTask>)

  // `healthy` is what the robot registry says when a beat looks at it.
  datatype Action = Start(tid: nat, op: Op) | Advance(tid: nat, healthy: set<string>) | Restart

  datatype Sys = Sys(db: Db, threads: map<nat, Pc>)

  // An operation goes on at `pc`, or has ended.
  function Put(threads: map<nat, Pc>, tid: nat, pc: Option<Pc>): map<nat, Pc> {
    if pc.None? then threads - {tid} else threads[tid := pc.value]
  }

  // The first call of an operation: the database after it, and where it stands.
  ghost function Begin(db: Db, op: Op): (Db, Option<Pc>) {
    match op
    case OpCreate(t, warehouse) =>
      (db, if WellFormed(t) && t.taskId !in db.tasks then Some(Creating(Prepared(t, warehouse))) else None)
    case OpCancel(task) => (db, if CancelCode(db, task) == 0 then Some(Cancelling(task, db.tasks[task])) else None)
    case OpApply(req) =>
      (db, if ApplyRefusal(db, req).None? then Some(Applying(req, db.tasks[req.task], 0)) else None)
    case OpReport(e) =>
      (RecordReport(db, e),
       if (IsCarry(e) && e.request != "") || (e.eventType.Status? && e.taskState == "ACCEPTED")
       then Some(Recorded(e)) else None)
    case OpBeat(active) => (db, if ListsActive(db, active) then Some(Beating(active, 0)) else None)
  }

  // The next call of an operation that stands at `pc`.
  ghost function Continue(db: Db, pc: Pc, healthy: set<string>): (Db, Option<Pc>) {
    match pc
    case Creating(t) => (CreateTask(db, t), None)
    case Cancelling(task, _) => (SetState(db, task, Cancelled, CANCELLED_BY_API), None)
    case Applying(req, seen, next) =>
      if next < |req.goods| then
        var key, quantity := GoodsKey(req.task, req.goods[next].goodsId), req.goods[next].quantity;
        if CanApprove(db, req.request, key, req.robot, quantity)
        then (Approve(db, req.request, key, req.robot, quantity), Some(Applying(req, seen, next + 1)))
        else (db, None)
      else if seen.state.Pending? || seen.state.Accepted?
      then (SetStateLogged(db, req.task, Running, "first goods approved", "EDGE"), None)
      else (db, None)
    case Recorded(e) =>
      if IsCarry(e) then
        (Settle(db, e.request, e.robot, Outcome(e)),
         if CanCarry(db, e) && e.eventType.CarryCompleted? then Some(Settled(e.task)) else None)
      else (db, if e.task in db.tasks && db.tasks[e.task].state.Pending? then Some(Accepting(e.task)) else None)
    case Accepting(task) => (SetStateLogged(db, task, Accepted, "first AMR accepted", "AMR"), None)
    case Settled(task) => (db, if task in db.tasks then Some(Found(task)) else None)
    case Found(task) => (db, if AllDone(db.status, task) then Some(Finishing(task)) else None)
    case Finishing(task) => (SetStateLogged(db, task, Succeeded, "all goods completed", "AMR"), None)
    case Beating(active, next) =>
      if next < |active| then
        (if AllAbnormal(active[next].robotIds, healthy) then Interrupt(db, active[next].taskId) else db,
         Some(Beating(active, next + 1)))
      else (db, None)
  }

  ghost function Next(s: Sys, a: Action): Sys {
    match a
    case Restart => Sys(s.db, map[])
    case Start(tid, op) =>
      if tid in s.threads then s
      else var (d, pc) := Begin(s.db, op); Sys(d, Put(s.threads, tid, pc))
    case Advance(tid, healthy) =>
      if tid !in s.threads then s
      else var (d, pc) := Continue(s.db, s.threads[tid], healthy); Sys(d, Put(s.threads, tid, pc))
  }

  ghost function Run(s: Sys, actions: seq<Action>): Sys
    decreases |actions|
  {
    if actions == [] then s else Run(Next(s, actions[0]), actions[1..])
  }

  // ---- Safety under every interleaving --------------------------------------

  // What a suspended operation relies on; none of it can be taken back.
  ghost predicate PcOk(db: Db, pc: Pc) {
    match pc
    case Creating(t) => t.state.Pending? && t.goods != [] && ValidGoods(t.goods)
    case Applying(req, _, _) => req.task in db.tasks && req.robot in db.tasks[req.task].robotIds
    case Finishing(task) => AllDone(db.status, task)
    case _ => true
  }

  ghost predicate Inv(s: Sys) {
    Safe(s.db) && forall tid | tid in s.threads :: PcOk(s.db, s.threads[tid])
  }

  lemma PcStays(a: Db, b: Db, pc: Pc)
    requires Grows(a, b) && PcOk(a, pc)
    ensures PcOk(b, pc)
  {
  }

  lemma GrowsFromItself(db: Db)
    ensures Grows(db, db)
  {
  }

  lemma BeginKeeps(db: Db, op: Op)
    requires Safe(db)
    ensures var (d, pc) := Begin(db, op);
      Safe(d) && Grows(db, d) && (pc.Some? ==> PcOk(d, pc.value))
  {
    hide Safe, Grows, AllDone, ListsActive;
    GrowsFromItself(db);
    if op.OpReport? {
      CallKeepsSafe(db, CallRecord(op.e));
    }
  }

  lemma ContinueKeeps(db: Db, pc: Pc, healthy: set<string>)
    requires Safe(db) && PcOk(db, pc)
    ensures var (d, after) := Continue(db, pc, healthy);
      Safe(d) && Grows(db, d) && (after.Some? ==> PcOk(d, after.value))
  {
    hide Safe, AllDone;
    GrowsFromItself(db);
    match pc
    case Creating(t) => CallKeepsSafe(db, CallCreate(t));
    case Cancelling(task, _) => CallKeepsSafe(db, CallSetState(task, Cancelled, CANCELLED_BY_API));
    case Applying(req, seen, next) =>
      if next < |req.goods| {
        var key, quantity := GoodsKey(req.task, req.goods[next].goodsId), req.goods[next].quantity;
        CallKeepsSafe(db, CallApprove(req.request, key, req.robot, quantity));
      } else {
        CallKeepsSafe(db, CallSetStateLogged(req.task, Running, "first goods approved", "EDGE"));
      }
    case Recorded(e) => CallKeepsSafe(db, CallSettle(e.request, e.robot, Outcome(e)));
    case Accepting(task) => CallKeepsSafe(db, CallSetStateLogged(task, Accepted, "first AMR accepted", "AMR"));
    case Settled(_) =>
    case Found(_) =>
    case Finishing(task) => CallKeepsSafe(db, CallSetStateLogged(task, Succeeded, "all goods completed", "AMR"));
    case Beating(active, next) =>
      if next < |active| {
        CallKeepsSafe(db, CallSetStateLogged(active[next].taskId, Interrupted, "ALL_AMRS_ABNORMAL", "TIMEOUT"));
      }
  }

  lemma NextKeeps(s: Sys, a: Action)
    requires Inv(s)
    ensures Inv(Next(s, a)) && Grows(s.db, Next(s, a).db)
  {
    hide Safe, Grows, PcOk, Begin, Continue;
    GrowsFromItself(s.db);
    var n := Next(s, a);
    if a.Start? {
      BeginKeeps(s.db, a.op);
    } else if a.Advance? && a.tid in s.threads {
      ContinueKeeps(s.db, s.threads[a.tid], a.healthy);
    }
    forall tid | tid in n.threads ensures PcOk(n.db, n.threads[tid]) {
      if a.Restart? || tid != a.tid || (a.Start? && tid in s.threads) {
        assert tid in s.threads && n.threads[tid] == s.threads[tid];
        PcStays(s.db, n.db, s.threads[tid]);
      } else if a.Start? {
        assert n.threads[tid] == Begin(s.db, a.op).1.value;
        assert n.db == Begin(s.db, a.op).0;
        assert PcOk(n.db, n.threads[tid]);
      } else {
        assert tid in s.threads;
        assert n.threads[tid] == Continue(s.db, s.threads[tid], a.healthy).1.value;
        assert n.db == Continue(s.db, s.threads[tid], a.healthy).0;
        assert PcOk(n.db, n.threads[tid]);
      }
    }
  }

  lemma {:induction false} RunKeepsInv(s: Sys, actions: seq<Action>)
    requires Inv(s)
    ensures Inv(Run(s, actions))
    decreases |actions|
  {
    hide Inv, Next;
    if actions != [] {
      NextKeeps(s, actions[0]);
      RunKeepsInv(Next(s, actions[0]), actions[1..]);
    }
  }

  const START := Sys(EMPTY, map[])

  /** Under every interleaving of operations and restarts, stale snapshots and
      all: the ledger balances, a stored SUCCEEDED means every unit is
      completed, every allocation's robot is assigned to its task, and the audit
      log explains every state. */
  lemma EveryInterleavingIsSafe(actions: seq<Action>, task: string)
    ensures var d := Run(START, actions).db;
      && LedgerInv(d) && AllocsAssigned(d)
      && (task in d.tasks && d.tasks[task].state.Succeeded? ==> EveryUnitCompleted(d, task))
      && (task in d.tasks ==> Explained(d, task))
  {
    assert Inv(START) by { EmptyIsSafe(); }
    RunKeepsInv(START, actions);
    var d := Run(START, actions).db;
    if task in d.tasks && d.tasks[task].state.Succeeded? {
      DoneMeansCompleted(d, task);
    }
  }

  // ---- Steps of a run -----------------------------------------------------------

  // The first call of an operation only records a report.
  lemma BeginRecords(db: Db, op: Op)
    ensures var d := Begin(db, op).0;
      d.tasks == db.tasks && d.status == db.status && d.allocs == db.allocs && d.log == db.log
  {
    hide ListsActive;
  }

  lemma StartLeavesOthers(s: Sys, tid: nat, op: Op)
    requires tid !in s.threads
    ensures var n := Next(s, Start(tid, op));
      && n.db == Begin(s.db, op).0
      && (forall t | t != tid :: t in n.threads <==> t in s.threads)
      && (forall t | t in s.threads :: t in n.threads && n.threads[t] == s.threads[t])
      && (tid in n.threads <==> Begin(s.db, op).1.Some?)
      && (tid in n.threads ==> n.threads[tid] == Begin(s.db, op).1.value)
  {
    hide Begin;
  }

  lemma AdvanceLeavesOthers(s: Sys, tid: nat, healthy: set<string>)
    requires tid in s.threads
    ensures var n := Next(s, Advance(tid, healthy)); var (d, after) := Continue(s.db, s.threads[tid], healthy);
      && n.db == d
      && (forall t | t != tid :: t in n.threads <==> t in s.threads)
      && (forall t | t != tid && t in s.threads :: n.threads[t] == s.threads[t])
      && (tid in n.threads <==> after.Some?)
      && (tid in n.threads ==> n.threads[tid] == after.value)
  {
    var n := Next(s, Advance(tid, healthy));
    var (d, after) := Continue(s.db, s.threads[tid], healthy);
    hide Continue;
    assert n == Sys(d, Put(s.threads, tid, after));
  }

  lemma RunStep(s: Sys, a: Action, rest: seq<Action>)
    ensures Run(s, [a] + rest) == Run(Next(s, a), rest)
  {
    hide Next;
    assert ([a] + rest)[1..] == rest;
  }

  lemma RunNone(s: Sys)
    ensures Run(s, []) == s
  {
  }

  lemma RunOne(s: Sys, a: Action)
    ensures Run(s, [a]) == Next(s, a)
  {
    hide Next;
    assert [a] + [] == [a];
    RunStep(s, a, []);
  }

  lemma {:induction false} RunAppend(s: Sys, a: seq<Action>, b: seq<Action>)
    ensures Run(s, a + b) == Run(Run(s, a), b)
    decreases |a|
  {
    hide Next;
    if a == [] {
      assert a + b == b;
    } else {
      assert (a + b)[1..] == a[1..] + b;
      RunAppend(Next(s, a[0]), a[1..], b);
    }
  }

  predicate NoRestarts(actions: seq<Action>) { forall i | 0 <= i < |actions| :: !actions[i].Restart? }
}
