/** The report protocol from outbox to ledger: a robot that stores, resends and
    clears its reports, a network that drops, duplicates and reorders, and an
    Edge that handles a report and then acknowledges it, while anything else
    happens at the Edge. */
module Delivery {
  import opened Tables
  import opened Ledger
  import opened TaskRules
  import opened TaskLifecycle
  import opened Allocations
  import opened Settlement
  import opened PendingReports

  // wire and acks hold every message ever sent: delivering one any number of
  // times, in any order, or never, is what the network may do.
  datatype World = World(
    stored: seq<PendingReport>,
    emitted: set<PendingReport>,     // every report the robot produced
    kept: set<PendingReport>,        // those that were put in the outbox
    backed: set<PendingReport>,      // carry reports produced after their allocation
    wire: set<PendingReport>,
    acks: set<seq<string>>,
    handled: set<PendingReport>,
    settles: seq<(string, string)>,  // each settlement the Edge committed
    db: Db)

  datatype Event =
    | Emit(r: PendingReport, connected: bool, published: bool)
    | Flush(connected: bool, taken: set<string>)
    | Deliver(r: PendingReport)
    | AckArrives(ids: seq<string>)
    | EdgeStep(s: Step)

  // Message ids are unique, and a message carries its own id.
  predicate Producible(w: World, r: PendingReport) {
    && IsReadable(r) && PayloadId(r.payload) == r.messageId
    && forall s | s in w.emitted :: s.messageId != r.messageId
  }

  predicate IsBacked(db: Db, p: Payload) {
    p.StatusPayload? && IsCarry(p.e) && p.e.request != "" && Allocated(db.allocs, p.e.request, p.e.robot)
  }

  function Committed(db: Db, s: Step): seq<(string, string)> {
    if s.StepReport? && CanCarry(RecordReport(db, s.e), s.e) then [(s.e.request, s.e.robot)] else []
  }

  function HandlingStep(p: Payload): Step {
    match p
    case StatusPayload(e) => StepReport(e)
    case GoodsPayload(_, req) => StepApply(req)
  }

  ghost function AtEdge(w: World, s: Step): World {
    w.(db := Do(w.db, s), settles := w.settles + Committed(w.db, s))
  }

  ghost function Next(w: World, v: Event): World {
    match v
    case Emit(r, connected, published) =>
      if !Producible(w, r) then w
      else
        w.(emitted := w.emitted + {r},
        stored := AfterEmit(w.stored, r, connected, published),
        kept := if connected && published then w.kept else w.kept + {r},
        backed := if IsBacked(w.db, r.payload) then w.backed + {r} else w.backed,
        wire := if connected && published then w.wire + {r} else w.wire)
    case Flush(connected, taken) => w.(wire := w.wire + set r | r in Flushed(w.stored, connected, taken))
    case Deliver(r) =>
      if r !in w.wire then w
      else
        AtEdge(w, HandlingStep(r.payload)).(
        handled := w.handled + {r},
        acks := if r.payload.StatusPayload? then w.acks + {[PayloadId(r.payload)]} else w.acks)
    case AckArrives(ids) => if ids !in w.acks then w else w.(stored := Without(w.stored, ids))
    case EdgeStep(s) => AtEdge(w, s)
  }

  ghost function Run(w: World, events: seq<Event>): World
    decreases |events|
  {
    if events == [] then w else Run(Next(w, events[0]), events[1..])
  }

  const START := World([], {}, {}, {}, {}, {}, {}, [], EMPTY)

  // ---- The robot's side: nothing stored is lost -----------------------------

  ghost predicate AckSound(w: World) {
    forall ids, id | ids in w.acks && id in ids ::
      exists r :: r in w.handled && r.messageId == id && r.payload.StatusPayload?
  }

  ghost predicate OutboxInv(w: World) {
    && (forall r | r in w.stored :: r in w.kept)
    && w.kept <= w.emitted && w.wire <= w.emitted && w.handled <= w.wire && w.backed <= w.emitted
    && (forall r, s | r in w.emitted && s in w.emitted && r.messageId == s.messageId :: r == s)
    && (forall r | r in w.emitted :: PayloadId(r.payload) == r.messageId)
    && (forall r | r in w.kept :: r in w.stored || (r in w.handled && r.payload.StatusPayload?))
    && AckSound(w)
  }

  lemma EmitKeepsOutbox(w: World, r: PendingReport, connected: bool, published: bool)
    requires OutboxInv(w) && Producible(w, r)
    ensures OutboxInv(Next(w, Emit(r, connected, published)))
  {
    AddKeepsExactly(w.stored, r);
    forall i | 0 <= i < |w.stored| ensures w.stored[i].messageId != r.messageId {
      assert w.stored[i] in w.stored;
    }
  }

  lemma FlushKeepsOutbox(w: World, connected: bool, taken: set<string>)
    requires OutboxInv(w)
    ensures OutboxInv(Next(w, Flush(connected, taken)))
  {
    FlushedExactly(w.stored, connected, taken);
  }

  lemma AckKeepsOutbox(w: World, ids: seq<string>)
    requires OutboxInv(w)
    ensures OutboxInv(Next(w, AckArrives(ids)))
  {
    if ids in w.acks {
      WithoutExactly(w.stored, ids);
      var n := Next(w, AckArrives(ids));
      forall r | r in n.kept ensures r in n.stored || (r in n.handled && r.payload.StatusPayload?) {
        if r in w.stored && r.messageId in ids {
          var s :| s in w.handled && s.messageId == r.messageId && s.payload.StatusPayload?;
          assert s == r;
        }
      }
    }
  }

  lemma DeliverKeepsOutbox(w: World, r: PendingReport)
    requires OutboxInv(w)
    ensures OutboxInv(Next(w, Deliver(r)))
  {
    hide Do, Committed;
    var n := Next(w, Deliver(r));
    if r in w.wire {
      forall ids, id | ids in n.acks && id in ids
        ensures exists s :: s in n.handled && s.messageId == id && s.payload.StatusPayload?
      {
        if ids in w.acks {
          var s :| s in w.handled && s.messageId == id && s.payload.StatusPayload?;
          assert s in n.handled;
        } else {
          assert r in n.handled && r.messageId == id;
        }
      }
    }
  }

  lemma NextKeepsOutbox(w: World, v: Event)
    requires OutboxInv(w)
    ensures OutboxInv(Next(w, v))
  {
    match v
    case Emit(r, connected, published) => if Producible(w, r) { EmitKeepsOutbox(w, r, connected, published); }
    case Flush(connected, taken) => FlushKeepsOutbox(w, connected, taken);
    case Deliver(r) => DeliverKeepsOutbox(w, r);
    case AckArrives(ids) => AckKeepsOutbox(w, ids);
    case EdgeStep(s) => hide Do, Committed;
  }

  lemma {:induction false} RunKeepsOutbox(w: World, events: seq<Event>)
    requires OutboxInv(w)
    ensures OutboxInv(Run(w, events))
    decreases |events|
  {
    hide OutboxInv, Next;
    if events != [] {
      NextKeepsOutbox(w, events[0]);
      RunKeepsOutbox(Next(w, events[0]), events[1..]);
    }
  }

  /** In every run, every report that was ever put in the outbox is still stored
      there or has been handled by the Edge. */
  lemma StoredOrHandled(events: seq<Event>, r: PendingReport)
    ensures var w := Run(START, events); r in w.kept ==> r in w.stored || r in w.handled
  {
    RunKeepsOutbox(START, events);
  }

  // ---- The Edge's side: each allocation is settled at most once -------------

  predicate NoTwice(settles: seq<(string, string)>) {
    forall i, j | 0 <= i < j < |settles| :: settles[i] != settles[j]
  }

  // A backed carry report has its allocation, settled once it was handled.
  predicate BackedOk(allocs: seq<Allocation>, handled: bool, p: Payload) {
    && p.StatusPayload? && IsCarry(p.e) && p.e.request != ""
    && Allocated(allocs, p.e.request, p.e.robot)
    && (handled ==> IsSettled(allocs, p.e.request, p.e.robot))
  }

  ghost predicate EdgeInv(w: World) {
    && Safe(w.db)
    && NoTwice(w.settles)
    && (forall i | 0 <= i < |w.settles| :: IsSettled(w.db.allocs, w.settles[i].0, w.settles[i].1))
    && (forall r | r in w.backed :: BackedOk(w.db.allocs, r in w.handled, r.payload))
  }

  lemma StepKeepsSettled(db: Db, s: Step, request: string, robot: string)
    requires LedgerInv(db)
    ensures IsSettled(db.allocs, request, robot) ==> IsSettled(Do(db, s).allocs, request, robot)
    ensures Allocated(db.allocs, request, robot) ==> Allocated(Do(db, s).allocs, request, robot)
  {
    hide LedgerInv, Do, IsSettled, Allocated;
    var calls := StepIsCalls(db, s);
    if IsSettled(db.allocs, request, robot) {
      SettledStaysSettled(db, calls, request, robot);
    }
    if Allocated(db.allocs, request, robot) {
      RunKeepsAllocated(db, calls, request, robot);
    }
  }

  lemma RunKeepsAllocated(db: Db, calls: seq<Call>, request: string, robot: string)
    requires Allocated(db.allocs, request, robot)
    ensures Allocated(ExecAll(db, calls).allocs, request, robot)
  {
    RunExtends(db, calls);
    var i :| 0 <= i < |db.allocs| && db.allocs[i].request == request && db.allocs[i].robot == robot;
    assert Ages(db.allocs[i], ExecAll(db, calls).allocs[i]);
  }

  // A committed settlement finds the allocation open and leaves it settled.
  lemma SettlementSettles(db: Db, e: AmrEvent)
    requires LedgerInv(db) && CanCarry(RecordReport(db, e), e)
    ensures !IsSettled(db.allocs, e.request, e.robot)
    ensures IsSettled(Report(db, e).allocs, e.request, e.robot)
  {
    hide LedgerInv, Report, StatusCheck;
    RecordOnly(db, e);
    var i := FindOpen(db.allocs, e.request, e.robot);
    assert Allocated(db.allocs, e.request, e.robot);
    CarriedIsSettled(db, e);
    StepKeepsAllocatedReport(db, e);
  }

  lemma StepKeepsAllocatedReport(db: Db, e: AmrEvent)
    requires LedgerInv(db) && Allocated(db.allocs, e.request, e.robot)
    ensures Allocated(Report(db, e).allocs, e.request, e.robot)
  {
    hide LedgerInv, Report, Allocated;
    StepKeepsSettled(db, StepReport(e), e.request, e.robot);
  }

  lemma AtEdgeKeeps(w: World, s: Step)
    requires EdgeInv(w)
    ensures EdgeInv(AtEdge(w, s))
  {
    hide Safe, LedgerInv, Do, IsSettled, Allocated;
    SafeParts(w.db);
    StepKeeps(w.db, s);
    var n := AtEdge(w, s);
    forall q, r
      ensures IsSettled(w.db.allocs, q, r) ==> IsSettled(n.db.allocs, q, r)
      ensures Allocated(w.db.allocs, q, r) ==> Allocated(n.db.allocs, q, r)
    {
      StepKeepsSettled(w.db, s, q, r);
    }
    SettlementIsNew(w.db, s);
    hide AtEdge, Committed;
    assert n.settles == w.settles + Committed(w.db, s);
  }

  lemma SettlementIsNew(db: Db, s: Step)
    requires LedgerInv(db)
    ensures |Committed(db, s)| <= 1
    ensures forall i | 0 <= i < |Committed(db, s)| ::
              && !IsSettled(db.allocs, Committed(db, s)[i].0, Committed(db, s)[i].1)
              && IsSettled(Do(db, s).allocs, Committed(db, s)[i].0, Committed(db, s)[i].1)
  {
    hide LedgerInv, Do, IsSettled, CanCarry, RecordReport;
    if s.StepReport? {
      DoReport(db, s);
      if CanCarry(RecordReport(db, s.e), s.e) {
        SettlementSettles(db, s.e);
      }
    }
  }

  lemma DoReport(db: Db, s: Step)
    requires s.StepReport?
    ensures Do(db, s) == Report(db, s.e)
  {
    hide Report;
  }

  lemma HandledIsSettled(db: Db, e: AmrEvent)
    requires LedgerInv(db) && IsCarry(e) && e.request != "" && Allocated(db.allocs, e.request, e.robot)
    ensures IsSettled(Do(db, StepReport(e)).allocs, e.request, e.robot)
  {
    hide LedgerInv, Report, Do, Allocated, HasOpen;
    DoReport(db, StepReport(e));
    CarriedIsSettled(db, e);
    StepKeepsAllocatedReport(db, e);
  }

  lemma DeliverKeepsEdge(w: World, r: PendingReport)
    requires EdgeInv(w) && r in w.wire
    ensures EdgeInv(Next(w, Deliver(r)))
  {
    hide Safe, LedgerInv, Do, Committed, Allocated, IsSettled, NoTwice;
    var s := HandlingStep(r.payload);
    var m, n := AtEdge(w, s), Next(w, Deliver(r));
    AtEdgeKeeps(w, s);
    if r in w.backed {
      SafeParts(w.db);
      HandledIsSettled(w.db, r.payload.e);
    }
    assert n.db == m.db && n.settles == m.settles && n.backed == m.backed == w.backed;
    assert m.handled == w.handled && n.handled == w.handled + {r};
    assert r in w.backed ==> n.db == Do(w.db, StepReport(r.payload.e));
    hide AtEdge, Next;
    forall q | q in n.backed ensures BackedOk(n.db.allocs, q in n.handled, q.payload) {
      assert BackedOk(m.db.allocs, q in m.handled, q.payload);
    }
  }

  lemma NextKeepsEdge(w: World, v: Event)
    requires EdgeInv(w) && OutboxInv(w)
    ensures EdgeInv(Next(w, v))
  {
    hide Safe, IsSettled, Allocated, AtEdge;
    match v
    case Emit(r, connected, published) =>
      if Producible(w, r) && r in w.handled { assert false; }
    case Flush(connected, taken) =>
    case Deliver(r) => if r in w.wire { DeliverKeepsEdge(w, r); }
    case AckArrives(ids) =>
    case EdgeStep(s) => AtEdgeKeeps(w, s);
  }

  lemma {:induction false} RunKeepsEdge(w: World, events: seq<Event>)
    requires EdgeInv(w) && OutboxInv(w)
    ensures EdgeInv(Run(w, events)) && OutboxInv(Run(w, events))
    decreases |events|
  {
    hide EdgeInv, OutboxInv, Next;
    if events != [] {
      NextKeepsEdge(w, events[0]);
      NextKeepsOutbox(w, events[0]);
      RunKeepsEdge(Next(w, events[0]), events[1..]);
    }
  }

  /** Exactly-once effect: in every run no allocation is settled twice, and a
      carry report that was put in the outbox after its goods were approved is
      still stored or its allocation is settled. */
  lemma ExactlyOnceEffect(events: seq<Event>, r: PendingReport)
    ensures var w := Run(START, events);
      && NoTwice(w.settles)
      && (r in w.kept && r in w.backed ==> r.payload.StatusPayload?)
      && (r in w.kept && r in w.backed ==>
            r in w.stored || IsSettled(w.db.allocs, r.payload.e.request, r.payload.e.robot))
  {
    assert EdgeInv(START) by { EmptyIsSafe(); }
    RunKeepsEdge(START, events);
  }

  /** A stored status report is never beyond recovery: from every reachable
      state one flush, one delivery and one acknowledgement that get through
      have it handled and cleared. */
  lemma StoredReportCanBeCleared(w: World, r: PendingReport)
    requires OutboxInv(w) && r in w.stored && r.payload.StatusPayload?
    ensures var sent := Next(w, Flush(true, {r.messageId}));
      var done := Next(Next(sent, Deliver(r)), AckArrives([r.messageId]));
      r in done.handled && r !in done.stored && forall s | s in w.stored && s != r :: s in done.stored
  {
    hide Do, Committed;
    FlushedExactly(w.stored, true, {r.messageId});
    var sent := Next(w, Flush(true, {r.messageId}));
    assert r in sent.wire;
    var got := Next(sent, Deliver(r));
    assert got.stored == w.stored && PayloadId(r.payload) == r.messageId;
    assert [r.messageId] in got.acks;
    WithoutExactly(w.stored, [r.messageId]);
    forall s | s in w.stored && s != r ensures s.messageId != r.messageId {
      assert s in w.emitted && r in w.emitted;
    }
  }

  // ---- What the protocol does not give ----------------------------------------

  /** An application for goods that was put in the outbox stays there for ever:
      the Edge acknowledges status reports only, so every flush repeats it. */
  lemma {:induction false} StoredApplicationStays(w: World, events: seq<Event>, r: PendingReport)
    requires OutboxInv(w) && r in w.stored && r.payload.GoodsPayload?
    ensures r in Run(w, events).stored
    decreases |events|
  {
    if events != [] {
      var v := events[0];
      NextKeepsOutbox(w, v);
      assert r in Next(w, v).stored by {
        if v.Emit? {
          AddKeepsExactly(w.stored, v.r);
        } else if v.AckArrives? && v.ids in w.acks {
          WithoutExactly(w.stored, v.ids);
          forall s | s in w.handled && s.messageId == r.messageId ensures !s.payload.StatusPayload? {
            assert s == r;
          }
        }
      }
      hide OutboxInv, Next;
      StoredApplicationStays(Next(w, v), events[1..], r);
    }
  }

  /** A report the broker took at once is never stored, so if the network drops
      it the Edge never handles it. */
  lemma {:induction false} DroppedPublishIsLost(w: World, events: seq<Event>, r: PendingReport)
    requires OutboxInv(w) && r in w.emitted && r !in w.kept && r !in w.handled
    requires forall i | 0 <= i < |events| :: events[i] != Deliver(r)
    ensures r !in Run(w, events).handled && r !in Run(w, events).stored
    decreases |events|
  {
    if events != [] {
      var v := events[0];
      NextKeepsOutbox(w, v);
      assert r in Next(w, v).emitted && r !in Next(w, v).kept && r !in Next(w, v).handled;
      hide OutboxInv, Next;
      DroppedPublishIsLost(Next(w, v), events[1..], r);
    }
  }
}
