/** The report protocol at the granularity of database calls: a report is handled
    call by call among the calls of other threads, acknowledged only when its
    handler has ended, and a restart of the Edge may cut any handler short. */
module CrashDelivery {
  import opened Tables
  import opened Ledger
  import opened TaskRules
  import opened TaskLifecycle
  import opened Allocations
  import opened Interleaving
  import opened PendingReports
  import D = Delivery

  // `serving` are the reports whose handlers have begun and not ended.
  datatype World = World(
    stored: seq<PendingReport>,
    emitted: set<PendingReport>,
    kept: set<PendingReport>,
    backed: set<PendingReport>,
    wire: set<PendingReport>,
    acks: set<seq<string>>,
    handled: set<PendingReport>,
    settles: seq<(string, string)>,
    serving: map<nat, PendingReport>,
    sys: Sys)

  datatype Event =
    | AtRobot(v: D.Event)
    | Receive(tid: nat, r: PendingReport)
    | AtEdge(a: Action)

  function HandlingOp(p: Payload): Op {
    match p
    case StatusPayload(e) => OpReport(e)
    case GoodsPayload(_, req) => OpApply(req)
  }

  // The robot's and the network's part of the world.
  function Outbox(w: World): D.World {
    D.World(w.stored, w.emitted, w.kept, w.backed, w.wire, w.acks, w.handled, w.settles, w.sys.db)
  }

  function WithOutbox(w: World, o: D.World): World {
    w.(stored := o.stored, emitted := o.emitted, kept := o.kept, backed := o.backed, wire := o.wire,
    acks := o.acks, handled := o.handled)
  }

  // The handler of `r` has ended: a status report is acknowledged.
  function Ended(w: World, r: PendingReport): World {
    w.(handled := w.handled + {r},
    acks := if r.payload.StatusPayload? then w.acks + {[PayloadId(r.payload)]} else w.acks)
  }

  // The settlement the next call of an operation commits.
  function Committed(db: Db, pc: Pc): seq<(string, string)> {
    if pc.Recorded? && IsCarry(pc.e) && CanSettle(db, pc.e.request, pc.e.robot, Outcome(pc.e))
    then [(pc.e.request, pc.e.robot)] else []
  }

  ghost function Step(w: World, a: Action): World {
    var n := Interleaving.Next(w.sys, a);
    match a
    case Restart => w.(sys := n, serving := map[])
    case Start(_, _) => w.(sys := n)
    case Advance(tid, _) =>
      var m := w.(sys := n,
                  settles := w.settles + if tid in w.sys.threads then Committed(w.sys.db, w.sys.threads[tid]) else []);
      if tid in w.serving && tid !in n.threads
      then Ended(m, w.serving[tid]).(serving := w.serving - {tid}) else m
  }

  ghost function Next(w: World, v: Event): World {
    match v
    case AtRobot(u) => if u.Emit? || u.Flush? || u.AckArrives? then WithOutbox(w, D.Next(Outbox(w), u)) else w
    case Receive(tid, r) =>
      if r !in w.wire || tid in w.sys.threads then w
      else
        var n := w.(sys := Interleaving.Next(w.sys, Start(tid, HandlingOp(r.payload))));
        if tid in n.sys.threads then n.(serving := w.serving[tid := r]) else Ended(n, r)
    case AtEdge(a) => Step(w, a)
  }

  ghost function Run(w: World, events: seq<Event>): World
    decreases |events|
  {
    if events == [] then w else Run(Next(w, events[0]), events[1..])
  }

  const START := World([], {}, {}, {}, {}, {}, {}, [], map[], Sys(EMPTY, map[]))

  // ---- Calls of suspended operations ---------------------------------------------

  lemma BeginIsCalls(db: Db, op: Op) returns (calls: seq<Call>)
    ensures Begin(db, op).0 == ExecAll(db, calls)
  {
    calls := if op.OpReport? then [CallRecord(op.e)] else [];
    if op.OpReport? {
      ExecOne(db, CallRecord(op.e));
    }
  }

  lemma ContinueIsCalls(db: Db, pc: Pc, healthy: set<string>) returns (calls: seq<Call>)
    ensures Continue(db, pc, healthy).0 == ExecAll(db, calls)
  {
    hide AllDone, CanSettle, CanApprove, AllAbnormal, ExecAll;
    var c := CallOf(pc);
    calls := [];
    if Continue(db, pc, healthy).0 == db {
      ExecNone(db);
    } else {
      calls := [c];
      ExecOne(db, c);
    }
  }

  lemma ExecNone(db: Db)
    ensures ExecAll(db, []) == db
  {
  }

  // The writing call an operation makes next, if it makes one.
  function CallOf(pc: Pc): Call {
    match pc
    case Creating(t) => CallCreate(t)
    case Cancelling(task, _) => CallSetState(task, Cancelled, CANCELLED_BY_API)
    case Applying(req, _, next) =>
      if next < |req.goods|
      then CallApprove(req.request, GoodsKey(req.task, req.goods[next].goodsId), req.robot, req.goods[next].quantity)
      else CallSetStateLogged(req.task, Running, "first goods approved", "EDGE")
    case Recorded(e) => CallSettle(e.request, e.robot, Outcome(e))
    case Accepting(task) => CallSetStateLogged(task, Accepted, "first AMR accepted", "AMR")
    case Settled(task) => CallSetStateLogged(task, Succeeded, "all goods completed", "AMR")
    case Found(task) => CallSetStateLogged(task, Succeeded, "all goods completed", "AMR")
    case Finishing(task) => CallSetStateLogged(task, Succeeded, "all goods completed", "AMR")
    case Beating(active, next) =>
      CallSetStateLogged(if next < |active| then active[next].taskId else "",
                         Interrupted, "ALL_AMRS_ABNORMAL", "TIMEOUT")
  }

  // Allocations stay allocated, and settled ones settled, under every action.
  lemma ActionKeepsSettled(s: Sys, a: Action, request: string, robot: string)
    requires LedgerInv(s.db)
    ensures var d := Interleaving.Next(s, a).db;
      && (Allocated(s.db.allocs, request, robot) ==> Allocated(d.allocs, request, robot))
      && (IsSettled(s.db.allocs, request, robot) ==> IsSettled(d.allocs, request, robot))
  {
    hide LedgerInv, Begin, Continue, IsSettled, Allocated;
    var calls := [];
    ExecNone(s.db);
    if a.Start? && a.tid !in s.threads {
      calls := BeginIsCalls(s.db, a.op);
    } else if a.Advance? && a.tid in s.threads {
      calls := ContinueIsCalls(s.db, s.threads[a.tid], a.healthy);
    }
    if IsSettled(s.db.allocs, request, robot) {
      SettledStaysSettled(s.db, calls, request, robot);
    }
    if Allocated(s.db.allocs, request, robot) {
      D.RunKeepsAllocated(s.db, calls, request, robot);
    }
  }

  // After the settling call the allocation is settled, whoever settled it.
  lemma SettlingSettles(db: Db, request: string, robot: string, state: AllocState)
    requires LedgerInv(db) && Allocated(db.allocs, request, robot) && (state.Completed? || state.Aborted?)
    ensures IsSettled(Settle(db, request, robot, state).allocs, request, robot)
    ensures CanSettle(db, request, robot, state) ==> !IsSettled(db.allocs, request, robot)
  {
    SettleNeverRollsBack(db, request, robot, state);
    var i :| 0 <= i < |db.allocs| && db.allocs[i].request == request && db.allocs[i].robot == robot;
    var d := Settle(db, request, robot, state);
    hide Settle, CanSettle;
    assert |d.allocs| == |db.allocs| && d.allocs[i].request == request && d.allocs[i].robot == robot by {
      SettleShape(db, request, robot, state);
    }
    forall j | 0 <= j < |d.allocs| ensures !IsOpen(d.allocs[j], request, robot) {
      SettleShape(db, request, robot, state);
    }
  }

  lemma SettleShape(db: Db, request: string, robot: string, state: AllocState)
    requires LedgerInv(db) && (state.Completed? || state.Aborted?)
    ensures var d := Settle(db, request, robot, state);
      && |d.allocs| == |db.allocs|
      && forall j | 0 <= j < |db.allocs| ::
        && d.allocs[j].request == db.allocs[j].request && d.allocs[j].robot == db.allocs[j].robot
        && !IsOpen(d.allocs[j], request, robot)
  {
    SettleNeverRollsBack(db, request, robot, state);
    hide StatusCheck, Held;
  }

  // ---- The invariant ---------------------------------------------------------------

  // A backed report under handling is about to be settled, or is.
  ghost predicate ServedOk(db: Db, pc: Pc, p: Payload) {
    p.StatusPayload? && (pc == Recorded(p.e) || IsSettled(db.allocs, p.e.request, p.e.robot))
  }

  ghost predicate ServingOk(w: World) {
    forall tid | tid in w.serving ::
      && tid in w.sys.threads && w.serving[tid] in w.wire
      && (w.serving[tid] in w.backed ==> ServedOk(w.sys.db, w.sys.threads[tid], w.serving[tid].payload))
  }

  ghost predicate BackedOk(w: World) {
    forall r | r in w.backed :: D.BackedOk(w.sys.db.allocs, r in w.handled, r.payload)
  }

  ghost predicate SettlesOk(w: World) {
    && D.NoTwice(w.settles)
    && forall i | 0 <= i < |w.settles| :: IsSettled(w.sys.db.allocs, w.settles[i].0, w.settles[i].1)
  }

  ghost predicate WorldInv(w: World) {
    Inv(w.sys) && D.OutboxInv(Outbox(w)) && ServingOk(w) && BackedOk(w) && SettlesOk(w)
  }

  // ---- The robot ------------------------------------------------------------------

  lemma RobotKeeps(w: World, u: D.Event)
    requires WorldInv(w) && (u.Emit? || u.Flush? || u.AckArrives?)
    ensures WorldInv(Next(w, AtRobot(u)))
  {
    hide Inv, IsSettled, Allocated, D.NoTwice, Flushed, Without, AfterEmit;
    D.NextKeepsOutbox(Outbox(w), u);
    var n := Next(w, AtRobot(u));
    assert Outbox(n) == D.Next(Outbox(w), u);
    assert w.wire <= n.wire && n.handled == w.handled && n.sys == w.sys;
    forall r | r in n.backed && r !in w.backed
      ensures r !in w.handled && r !in w.wire && D.BackedOk(n.sys.db.allocs, false, r.payload)
    {
      assert u.Emit? && r == u.r && r !in w.emitted;
    }
  }

  // ---- The Edge ---------------------------------------------------------------------

  lemma OutboxIgnoresEdge(o: D.World, q: D.World)
    requires D.OutboxInv(o) && q.(settles := o.settles, db := o.db) == o
    ensures D.OutboxInv(q)
  {
  }

  lemma EndedKeepsOutbox(w: World, r: PendingReport)
    requires D.OutboxInv(Outbox(w)) && r in w.wire
    ensures D.OutboxInv(Outbox(Ended(w, r)))
  {
    var o := D.Next(Outbox(w), D.Deliver(r));
    D.DeliverKeepsOutbox(Outbox(w), r);
    hide D.OutboxInv, Do, D.Committed;
    OutboxIgnoresEdge(o, Outbox(Ended(w, r)));
  }

  // Every action keeps what was settled, allocated and being served by others.
  lemma ActionKeeps(w: World, a: Action, n: World)
    requires WorldInv(w) && n == w.(sys := Interleaving.Next(w.sys, a))
    ensures Inv(n.sys) && D.OutboxInv(Outbox(n)) && BackedOk(n) && SettlesOk(n)
    ensures forall tid | tid in w.serving && w.serving[tid] in w.backed ::
      IsSettled(w.sys.db.allocs, w.serving[tid].payload.e.request, w.serving[tid].payload.e.robot) ==>
        IsSettled(n.sys.db.allocs, w.serving[tid].payload.e.request, w.serving[tid].payload.e.robot)
  {
    hide Safe, LedgerInv, IsSettled, Allocated, D.NoTwice, Interleaving.Next, PcOk;
    NextKeeps(w.sys, a);
    SafeParts(w.sys.db);
    OutboxIgnoresEdge(Outbox(w), Outbox(n));
    hide D.OutboxInv;
    forall request, robot
      ensures Allocated(w.sys.db.allocs, request, robot) ==> Allocated(n.sys.db.allocs, request, robot)
      ensures IsSettled(w.sys.db.allocs, request, robot) ==> IsSettled(n.sys.db.allocs, request, robot)
    {
      ActionKeepsSettled(w.sys, a, request, robot);
    }
  }

  lemma WorldParts(w: World)
    requires WorldInv(w)
    ensures Inv(w.sys) && LedgerInv(w.sys.db) && D.OutboxInv(Outbox(w))
    ensures ServingOk(w) && BackedOk(w) && SettlesOk(w)
  {
    SafeParts(w.sys.db);
    hide LedgerInv, D.OutboxInv, ServingOk, BackedOk, SettlesOk;
  }

  lemma BackedAt(w: World, r: PendingReport)
    requires BackedOk(w) && r in w.backed
    ensures r.payload.StatusPayload? && IsCarry(r.payload.e) && r.payload.e.request != ""
    ensures Allocated(w.sys.db.allocs, r.payload.e.request, r.payload.e.robot)
  {
    hide IsSettled, Allocated;
    assert D.BackedOk(w.sys.db.allocs, r in w.handled, r.payload);
  }

  lemma ReceiveKeeps(w: World, tid: nat, r: PendingReport)
    requires WorldInv(w) && r in w.wire && tid !in w.sys.threads
    ensures WorldInv(Next(w, Receive(tid, r)))
  {
    hide Inv, LedgerInv, D.OutboxInv, IsSettled, Allocated, D.NoTwice, D.BackedOk, SettlesOk, Begin;
    var a := Start(tid, HandlingOp(r.payload));
    var n := w.(sys := Interleaving.Next(w.sys, a));
    WorldParts(w);
    ActionKeeps(w, a, n);
    ServingOfStart(w, a, n);
    hide ServingOk, BackedOk;
    StartLeavesOthers(w.sys, tid, HandlingOp(r.payload));
    if r in w.backed {
      BackedBegins(w, r);
      assert n.sys.threads[tid] == Recorded(r.payload.e);
    }
    hide Interleaving.Next, HandlingOp;
    if tid !in n.sys.threads {
      EndedKeepsOutbox(n, r);
      EndedKeepsRest(n, r);
      ServingOfSame(n, Ended(n, r));
    } else {
      var m := n.(serving := w.serving[tid := r]);
      assert Outbox(m) == Outbox(n);
      BackedOfSame(n, m);
      SettlesOfSame(n, m);
      ServesOneMore(n, tid, r);
    }
  }

  lemma ServingOfSame(w: World, m: World)
    requires ServingOk(w) && m.serving == w.serving && m.sys == w.sys && m.wire == w.wire && m.backed == w.backed
    ensures ServingOk(m)
  {
    hide ServedOk;
  }

  lemma ServesOneMore(w: World, tid: nat, r: PendingReport)
    requires ServingOk(w) && tid in w.sys.threads && r in w.wire
    requires r in w.backed ==> r.payload.StatusPayload? && w.sys.threads[tid] == Recorded(r.payload.e)
    ensures ServingOk(w.(serving := w.serving[tid := r]))
  {
  }

  // Starting an operation leaves every handler where it was.
  lemma ServingOfStart(w: World, a: Action, n: World)
    requires WorldInv(w) && a.Start? && a.tid !in w.sys.threads && n == w.(sys := Interleaving.Next(w.sys, a))
    ensures ServingOk(n)
  {
    ActionKeeps(w, a, n);
    WorldParts(w);
    StartLeavesOthers(w.sys, a.tid, a.op);
    hide Inv, LedgerInv, D.OutboxInv, BackedOk, SettlesOk, IsSettled, Interleaving.Next;
  }

  lemma SettlesOfSame(w: World, m: World)
    requires SettlesOk(w) && m.settles == w.settles && m.sys == w.sys
    ensures SettlesOk(m)
  {
    hide IsSettled, D.NoTwice;
  }

  // Ending a handler is sound when its report's allocation, if backed, is settled.
  lemma EndedKeepsRest(w: World, r: PendingReport)
    requires BackedOk(w) && SettlesOk(w)
    requires r in w.backed ==> r.payload.StatusPayload?
    requires r in w.backed ==> IsSettled(w.sys.db.allocs, r.payload.e.request, r.payload.e.robot)
    ensures BackedOk(Ended(w, r)) && SettlesOk(Ended(w, r))
  {
    hide IsSettled, Allocated, D.NoTwice;
    forall q | q in w.backed ensures D.BackedOk(w.sys.db.allocs, q in Ended(w, r).handled, q.payload) {
      assert D.BackedOk(w.sys.db.allocs, q in w.handled, q.payload);
    }
  }

  // The handler of a backed report does not end with its first call.
  lemma BackedBegins(w: World, r: PendingReport)
    requires BackedOk(w) && r in w.backed
    ensures r.payload.StatusPayload?
    ensures Begin(w.sys.db, HandlingOp(r.payload)).1 == Some(Recorded(r.payload.e))
  {
    assert D.BackedOk(w.sys.db.allocs, r in w.handled, r.payload);
  }

  // What one call of a suspended operation commits.
  lemma CommittedIsNew(db: Db, pc: Pc, healthy: set<string>)
    requires LedgerInv(db)
    ensures forall i | 0 <= i < |Committed(db, pc)| ::
      && !IsSettled(db.allocs, Committed(db, pc)[i].0, Committed(db, pc)[i].1)
      && IsSettled(Continue(db, pc, healthy).0.allocs, Committed(db, pc)[i].0, Committed(db, pc)[i].1)
    ensures |Committed(db, pc)| <= 1
  {
    if Committed(db, pc) != [] {
      var e := pc.e;
      OpenIsAllocated(db, e.request, e.robot, Outcome(e));
      SettlingSettles(db, e.request, e.robot, Outcome(e));
      hide LedgerInv, CanSettle, Settle, IsSettled;
    }
  }

  lemma OpenIsAllocated(db: Db, request: string, robot: string, state: AllocState)
    requires CanSettle(db, request, robot, state)
    ensures Allocated(db.allocs, request, robot)
  {
    var i := FindOpen(db.allocs, request, robot);
    assert IsOpen(db.allocs[i], request, robot);
    hide StatusCheck;
  }

  // The settling call of a carry report's handler.
  lemma ServedSettles(db: Db, e: AmrEvent, healthy: set<string>)
    requires LedgerInv(db) && IsCarry(e) && Allocated(db.allocs, e.request, e.robot)
    ensures IsSettled(Continue(db, Recorded(e), healthy).0.allocs, e.request, e.robot)
  {
    SettlingSettles(db, e.request, e.robot, Outcome(e));
    hide LedgerInv, Settle, CanSettle, IsSettled, Allocated;
  }

  lemma SettlesGrow(w: World, db: Db, more: seq<(string, string)>)
    requires SettlesOk(w) && |more| <= 1
    requires forall i | 0 <= i < |w.settles| :: IsSettled(db.allocs, w.settles[i].0, w.settles[i].1)
    requires forall i | 0 <= i < |more| ::
      !IsSettled(w.sys.db.allocs, more[i].0, more[i].1) && IsSettled(db.allocs, more[i].0, more[i].1)
    ensures D.NoTwice(w.settles + more)
    ensures forall i | 0 <= i < |w.settles + more| ::
      IsSettled(db.allocs, (w.settles + more)[i].0, (w.settles + more)[i].1)
  {
    hide IsSettled;
  }

  // After a call of the handler of a backed report its allocation is settled.
  lemma AdvanceServes(w: World, tid: nat, healthy: set<string>)
    requires WorldInv(w) && tid in w.serving && w.serving[tid] in w.backed
    ensures tid in w.sys.threads && w.serving[tid].payload.StatusPayload?
    ensures var n, e := Interleaving.Next(w.sys, Advance(tid, healthy)), w.serving[tid].payload.e;
      IsSettled(n.db.allocs, e.request, e.robot)
  {
    WorldParts(w);
    var r := w.serving[tid];
    BackedAt(w, r);
    hide WorldInv, Inv, LedgerInv, D.OutboxInv, BackedOk, SettlesOk, IsSettled, Allocated, Continue;
    var e := r.payload.e;
    assert ServedOk(w.sys.db, w.sys.threads[tid], r.payload);
    AdvanceLeavesOthers(w.sys, tid, healthy);
    if w.sys.threads[tid] == Recorded(e) {
      ServedSettles(w.sys.db, e, healthy);
    } else {
      ActionKeepsSettled(w.sys, Advance(tid, healthy), e.request, e.robot);
    }
  }

  // Served reports stay served by the threads an advance leaves.
  lemma AdvanceKeepsServing(w: World, tid: nat, healthy: set<string>, n: World)
    requires WorldInv(w) && tid in w.sys.threads
    requires n == w.(sys := Interleaving.Next(w.sys, Advance(tid, healthy)))
    ensures forall t | t in w.serving && t in n.sys.threads ::
      && w.serving[t] in w.wire
      && (w.serving[t] in w.backed ==> ServedOk(n.sys.db, n.sys.threads[t], w.serving[t].payload))
    ensures forall t | t in w.serving && t != tid :: t in n.sys.threads
  {
    WorldParts(w);
    AdvanceLeavesOthers(w.sys, tid, healthy);
    hide WorldInv, Inv, LedgerInv, D.OutboxInv, SettlesOk, IsSettled, Allocated, Continue, Interleaving.Next;
    forall t | t in w.serving && t in n.sys.threads && w.serving[t] in w.backed
      ensures ServedOk(n.sys.db, n.sys.threads[t], w.serving[t].payload)
    {
      var e := w.serving[t].payload.e;
      BackedAt(w, w.serving[t]);
      if t == tid {
        AdvanceServes(w, tid, healthy);
      } else {
        ActionKeepsSettled(w.sys, Advance(tid, healthy), e.request, e.robot);
        assert ServedOk(w.sys.db, w.sys.threads[t], w.serving[t].payload);
      }
    }
  }

  lemma AdvanceKeepsSettles(w: World, tid: nat, healthy: set<string>, m: World)
    requires WorldInv(w) && tid in w.sys.threads
    requires m == w.(sys := Interleaving.Next(w.sys, Advance(tid, healthy)),
                     settles := w.settles + Committed(w.sys.db, w.sys.threads[tid]))
    ensures SettlesOk(m)
  {
    var n := w.(sys := m.sys);
    ActionKeeps(w, Advance(tid, healthy), n);
    WorldParts(w);
    AdvanceLeavesOthers(w.sys, tid, healthy);
    CommittedIsNew(w.sys.db, w.sys.threads[tid], healthy);
    hide WorldInv, Inv, LedgerInv, D.OutboxInv, BackedOk, ServingOk, IsSettled, Continue, Interleaving.Next, Committed;
    hide D.NoTwice;
    SettlesGrow(w, n.sys.db, Committed(w.sys.db, w.sys.threads[tid]));
  }

  lemma ServingOfAdvance(w: World, tid: nat, healthy: set<string>, f: World)
    requires WorldInv(w) && tid in w.sys.threads
    requires f.sys == Interleaving.Next(w.sys, Advance(tid, healthy)) && f.wire == w.wire && f.backed == w.backed
    requires f.serving == if tid in f.sys.threads then w.serving else w.serving - {tid}
    ensures ServingOk(f)
  {
    AdvanceKeepsServing(w, tid, healthy, w.(sys := f.sys));
    hide WorldInv, ServedOk, Interleaving.Next;
  }

  lemma AdvanceIs(w: World, tid: nat, healthy: set<string>, m: World)
    requires ServingOk(w) && tid in w.sys.threads
    requires m == w.(sys := Interleaving.Next(w.sys, Advance(tid, healthy)),
                     settles := w.settles + Committed(w.sys.db, w.sys.threads[tid]))
    ensures Step(w, Advance(tid, healthy))
         == if tid in w.serving && tid !in m.sys.threads
            then Ended(m, w.serving[tid]).(serving := w.serving - {tid}) else m
    ensures tid in w.serving ==> w.serving[tid] in w.wire
    ensures tid !in w.serving ==> w.serving - {tid} == w.serving
  {
    hide ServedOk, Interleaving.Next, Committed;
  }

  lemma AdvanceKeeps(w: World, tid: nat, healthy: set<string>)
    requires WorldInv(w) && tid in w.sys.threads
    ensures WorldInv(Step(w, Advance(tid, healthy)))
  {
    hide Inv, LedgerInv, ServingOk, SettlesOk, BackedOk, IsSettled, Committed, Interleaving.Next, D.OutboxInv, Step;
    var a := Advance(tid, healthy);
    var n := w.(sys := Interleaving.Next(w.sys, a));
    var m := n.(settles := w.settles + Committed(w.sys.db, w.sys.threads[tid]));
    ActionKeeps(w, a, n);
    AdvanceKeepsSettles(w, tid, healthy, m);
    OutboxIgnoresEdge(Outbox(n), Outbox(m));
    BackedOfSame(n, m);
    AdvanceIs(w, tid, healthy, m);
    var f := Step(w, a);
    ServingOfAdvance(w, tid, healthy, f);
    if tid in w.serving && tid !in n.sys.threads {
      var r := w.serving[tid];
      if r in w.backed {
        AdvanceServes(w, tid, healthy);
      }
      EndedKeepsOutbox(m, r);
      EndedKeepsRest(m, r);
      assert Outbox(f) == Outbox(Ended(m, r));
      SettlesOfSame(Ended(m, r), f);
      BackedOfSame(Ended(m, r), f);
    }
  }

  lemma BackedOfSame(w: World, m: World)
    requires BackedOk(w) && m.backed == w.backed && m.handled == w.handled && m.sys == w.sys
    ensures BackedOk(m)
  {
    hide D.BackedOk;
  }

  lemma AtEdgeKeeps(w: World, a: Action)
    requires WorldInv(w)
    ensures WorldInv(Step(w, a))
  {
    if a.Advance? && a.tid in w.sys.threads {
      AdvanceKeeps(w, a.tid, a.healthy);
    } else {
      var n := w.(sys := Interleaving.Next(w.sys, a));
      ActionKeeps(w, a, n);
      if a.Start? && a.tid !in w.sys.threads {
        StartLeavesOthers(w.sys, a.tid, a.op);
      }
      hide Inv, D.OutboxInv, IsSettled, Allocated, D.NoTwice, Begin;
      if a.Restart? {
        OutboxOfRestart(n);
      } else if a.Advance? {
        assert n == w && Step(w, a) == w by {
          assert w.settles + [] == w.settles;
        }
      }
    }
  }

  lemma OutboxOfRestart(n: World)
    requires D.OutboxInv(Outbox(n)) && BackedOk(n) && SettlesOk(n)
    ensures var r := n.(serving := map[]); D.OutboxInv(Outbox(r)) && BackedOk(r) && SettlesOk(r)
  {
    assert Outbox(n.(serving := map[])) == Outbox(n);
    hide D.OutboxInv;
  }

  lemma NextKeepsWorld(w: World, v: Event)
    requires WorldInv(w)
    ensures WorldInv(Next(w, v))
  {
    hide WorldInv, Step, Interleaving.Next, D.Next;
    match v
    case AtRobot(u) => if u.Emit? || u.Flush? || u.AckArrives? { RobotKeeps(w, u); }
    case Receive(tid, r) => if r in w.wire && tid !in w.sys.threads { ReceiveKeeps(w, tid, r); }
    case AtEdge(a) => AtEdgeKeeps(w, a);
  }

  lemma {:induction false} RunKeepsWorld(w: World, events: seq<Event>)
    requires WorldInv(w)
    ensures WorldInv(Run(w, events))
    decreases |events|
  {
    hide WorldInv, Next;
    if events != [] {
      NextKeepsWorld(w, events[0]);
      RunKeepsWorld(Next(w, events[0]), events[1..]);
    }
  }

  /** Exactly-once effect under crashes: in every run, with handlers interleaved
      call by call and cut short by restarts, no allocation is settled twice,
      every report put in the outbox is still stored or its handler ran to its
      end, and if its goods were approved before it was produced, it is still
      stored or its allocation is settled. */
  lemma ExactlyOnceDespiteCrashes(events: seq<Event>, r: PendingReport)
    ensures var w := Run(START, events);
      && D.NoTwice(w.settles)
      && (r in w.kept ==> r in w.stored || r in w.handled)
      && (r in w.kept && r in w.backed ==> r.payload.StatusPayload?)
      && (r in w.kept && r in w.backed ==>
            r in w.stored || IsSettled(w.sys.db.allocs, r.payload.e.request, r.payload.e.robot))
  {
    assert WorldInv(START) by { EmptyIsSafe(); }
    RunKeepsWorld(START, events);
    var w := Run(START, events);
    hide Run, Inv;
    if r in w.backed {
      assert D.BackedOk(w.sys.db.allocs, r in w.handled, r.payload);
    }
  }
}
