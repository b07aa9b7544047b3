/** Report streams: the ledger and the task states they lead to do not depend on
    the order of the reports, nor on repeats. */
module Settlement {
  import opened Tables
  import opened Ledger
  import opened TaskRules
  import opened TaskLifecycle
  import opened Allocations

  ghost function ReportAll(db: Db, rs: seq<AmrEvent>): Db
    decreases |rs|
  {
    if rs == [] then db else ReportAll(Report(db, rs[0]), rs[1..])
  }

  lemma {:induction false} ReportAllKeeps(db: Db, rs: seq<AmrEvent>)
    requires Safe(db)
    ensures Safe(ReportAll(db, rs)) && AllClimb(db, ReportAll(db, rs))
    decreases |rs|
  {
    hide Safe, Report;
    if rs != [] {
      ReportKeeps(db, rs[0]);
      ReportAllKeeps(Report(db, rs[0]), rs[1..]);
    }
  }

  // ---- The fate of one allocation under a stream ------------------------------

  // The report settles the allocation if it is still open when it arrives.
  predicate Matches(e: AmrEvent, a: Allocation) {
    IsCarry(e) && e.request != "" && a.request == e.request && a.robot == e.robot
  }

  function Fate(a: Allocation, rs: seq<AmrEvent>): Allocation {
    if rs == [] then a
    else if a.state.InProgress? && Matches(rs[0], a) then a.(state := Outcome(rs[0]))
    else Fate(a, rs[1..])
  }

  lemma SettledFate(a: Allocation, rs: seq<AmrEvent>)
    requires !a.state.InProgress?
    ensures Fate(a, rs) == a
  {
  }

  // What a report does to the allocations, the goods and the rows of the ledger.
  lemma ReportSettles(db: Db, e: AmrEvent)
    ensures var d := Report(db, e);
      && d.allocs == (if CanCarry(db, e) then Settle(db, e.request, e.robot, Outcome(e)).allocs else db.allocs)
      && d.tasks.Keys == db.tasks.Keys && d.goods == db.goods && d.status.Keys == db.status.Keys
  {
    hide AllDone, StatusCheck;
    var d := RecordReport(db, e);
    assert d == db.(reports := d.reports);
    hide RecordReport;
  }

  lemma ReportAges(db: Db, e: AmrEvent)
    ensures |Report(db, e).allocs| == |db.allocs| && Extends(db.allocs, Report(db, e).allocs)
    ensures Report(db, e).tasks.Keys == db.tasks.Keys
  {
    hide StatusCheck, Report;
    ReportSettles(db, e);
  }

  lemma ReportDecidesFate(db: Db, e: AmrEvent, i: nat)
    requires LedgerInv(db) && i < |db.allocs|
    ensures |Report(db, e).allocs| == |db.allocs|
    ensures Report(db, e).allocs[i] == Fate(db.allocs[i], [e])
  {
    ReportSettles(db, e);
    SettleNeverRollsBack(db, e.request, e.robot, Outcome(e));
    assert IsOpen(db.allocs[i], e.request, e.robot) ==>
             HasOpen(db.allocs, e.request, e.robot) && i == FindOpen(db.allocs, e.request, e.robot);
    hide LedgerInv, Report, CanSettle;
    assert [e][1..] == [];
  }

  lemma {:induction false} StreamDecidesFates(db: Db, rs: seq<AmrEvent>, i: nat)
    requires Safe(db) && i < |db.allocs|
    ensures |ReportAll(db, rs).allocs| == |db.allocs|
    ensures ReportAll(db, rs).allocs[i] == Fate(db.allocs[i], rs)
    decreases |rs|
  {
    hide Safe, Report, LedgerInv;
    if rs != [] {
      SafeParts(db);
      ReportDecidesFate(db, rs[0], i);
      ReportKeeps(db, rs[0]);
      StreamDecidesFates(Report(db, rs[0]), rs[1..], i);
      assert Fate(db.allocs[i], [rs[0]]) == Report(db, rs[0]).allocs[i];
      assert [rs[0]][1..] == [];
      if Fate(db.allocs[i], [rs[0]]) != db.allocs[i] {
        SettledFate(Report(db, rs[0]).allocs[i], rs[1..]);
      }
    }
  }

  lemma {:induction false} StreamKeepsGoods(db: Db, rs: seq<AmrEvent>)
    ensures ReportAll(db, rs).goods == db.goods && ReportAll(db, rs).status.Keys == db.status.Keys
    decreases |rs|
  {
    hide Report;
    if rs != [] {
      ReportSettles(db, rs[0]);
      StreamKeepsGoods(Report(db, rs[0]), rs[1..]);
    }
  }

  // In the ledger, the allocations decide every quantity.
  lemma AllocationsDecideStatus(a: Db, b: Db)
    requires LedgerInv(a) && LedgerInv(b)
    requires a.goods == b.goods && a.status.Keys == b.status.Keys && a.allocs == b.allocs
    ensures a.status == b.status
  {
    forall k | k in a.status ensures a.status[k] == b.status[k] {
      RowFacts(a, k);
      RowFacts(b, k);
    }
  }

  // ---- Order does not matter ----------------------------------------------------

  // Both settle the same request of the same robot.
  predicate Collide(e: AmrEvent, f: AmrEvent) {
    IsCarry(e) && IsCarry(f) && e.request == f.request && e.robot == f.robot
  }

  predicate DistinctRequests(rs: seq<AmrEvent>) {
    forall i, j | 0 <= i < j < |rs| :: !Collide(rs[i], rs[j])
  }

  lemma {:induction false} MatchedFate(a: Allocation, rs: seq<AmrEvent>, i: nat)
    requires DistinctRequests(rs) && i < |rs| && Matches(rs[i], a) && a.state.InProgress?
    ensures Fate(a, rs) == a.(state := Outcome(rs[i]))
    decreases |rs|
  {
    if i > 0 {
      assert !Collide(rs[0], rs[i]);
      assert !Matches(rs[0], a);
      MatchedFate(a, rs[1..], i - 1);
    }
  }

  lemma {:induction false} UnmatchedFate(a: Allocation, rs: seq<AmrEvent>)
    requires forall i | 0 <= i < |rs| :: !Matches(rs[i], a)
    ensures Fate(a, rs) == a
    decreases |rs|
  {
    if rs != [] {
      UnmatchedFate(a, rs[1..]);
    }
  }

  lemma SameMembers(rs: seq<AmrEvent>, qs: seq<AmrEvent>, i: nat) returns (j: nat)
    requires multiset(rs) == multiset(qs) && i < |rs|
    ensures j < |qs| && qs[j] == rs[i]
  {
    assert rs[i] in multiset(rs);
    assert rs[i] in qs;
    j :| 0 <= j < |qs| && qs[j] == rs[i];
  }

  lemma PermutedDistinct(rs: seq<AmrEvent>, qs: seq<AmrEvent>)
    requires multiset(rs) == multiset(qs) && DistinctRequests(rs)
    ensures DistinctRequests(qs)
  {
    forall i, j | 0 <= i < j < |qs|
      ensures !Collide(qs[i], qs[j])
    {
      if qs[i] == qs[j] && IsCarry(qs[i]) {
        var e := qs[i];
        assert qs == qs[..i] + [e] + qs[i + 1..j] + [e] + qs[j + 1..];
        assert multiset(qs)[e] >= 2;
        TwiceInside(rs, e);
      } else if qs[i] != qs[j] {
        var a := SameMembers(qs, rs, i);
        var b := SameMembers(qs, rs, j);
        assert !Collide(rs[a], rs[b]) && !Collide(rs[b], rs[a]);
      }
    }
  }

  lemma {:induction false} TwiceInside(rs: seq<AmrEvent>, e: AmrEvent)
    requires multiset(rs)[e] >= 2 && IsCarry(e)
    ensures !DistinctRequests(rs)
  {
    assert e in multiset(rs);
    var i :| 0 <= i < |rs| && rs[i] == e;
    assert rs == rs[..i] + [e] + rs[i + 1..];
    assert multiset(rs) == multiset(rs[..i] + rs[i + 1..]) + multiset{e};
    assert e in multiset(rs[..i] + rs[i + 1..]);
    var j :| 0 <= j < |rs[..i] + rs[i + 1..]| && (rs[..i] + rs[i + 1..])[j] == e;
    var k := if j < i then j else j + 1;
    assert rs[k] == e && Collide(rs[k], rs[i]) && Collide(rs[i], rs[k]);
  }

  lemma PermutedFate(a: Allocation, rs: seq<AmrEvent>, qs: seq<AmrEvent>)
    requires multiset(rs) == multiset(qs) && DistinctRequests(rs)
    ensures Fate(a, rs) == Fate(a, qs)
  {
    if !a.state.InProgress? {
      SettledFate(a, rs);
      SettledFate(a, qs);
    } else if i :| 0 <= i < |rs| && Matches(rs[i], a) {
      PermutedDistinct(rs, qs);
      var j := SameMembers(rs, qs, i);
      MatchedFate(a, rs, i);
      MatchedFate(a, qs, j);
    } else {
      forall j | 0 <= j < |qs| ensures !Matches(qs[j], a) {
        var i := SameMembers(qs, rs, j);
      }
      UnmatchedFate(a, rs);
      UnmatchedFate(a, qs);
    }
  }

  /** Reports whose carry reports are for pairwise different requests lead to the
      same ledger in every order. */
  lemma OrderDoesNotChangeLedger(db: Db, rs: seq<AmrEvent>, qs: seq<AmrEvent>)
    requires Safe(db) && multiset(rs) == multiset(qs) && DistinctRequests(rs)
    ensures var a, b := ReportAll(db, rs), ReportAll(db, qs);
      a.goods == b.goods && a.status == b.status && a.allocs == b.allocs
  {
    hide Safe, Report, Fate, DistinctRequests;
    var a, b := ReportAll(db, rs), ReportAll(db, qs);
    ReportAllKeeps(db, rs);
    ReportAllKeeps(db, qs);
    StreamKeepsGoods(db, rs);
    StreamKeepsGoods(db, qs);
    if |db.allocs| == 0 {
      NoAllocations(db, rs);
      NoAllocations(db, qs);
    } else {
      StreamDecidesFates(db, rs, 0);
      StreamDecidesFates(db, qs, 0);
    }
    forall i | 0 <= i < |db.allocs| ensures a.allocs[i] == b.allocs[i] {
      StreamDecidesFates(db, rs, i);
      StreamDecidesFates(db, qs, i);
      PermutedFate(db.allocs[i], rs, qs);
    }
    assert a.allocs == b.allocs;
    SafeParts(a);
    SafeParts(b);
    AllocationsDecideStatus(a, b);
  }

  lemma {:induction false} NoAllocations(db: Db, rs: seq<AmrEvent>)
    requires db.allocs == []
    ensures ReportAll(db, rs).allocs == []
    decreases |rs|
  {
    if rs != [] {
      NoAllocations(Report(db, rs[0]), rs[1..]);
    }
  }

  // ---- Task states under a stream of reports ---------------------------------------

  // A carry report names the task its allocation belongs to.
  predicate NamesOwn(allocs: seq<Allocation>, e: AmrEvent) {
    IsCarry(e) ==> forall i | 0 <= i < |allocs| ::
      allocs[i].request == e.request && allocs[i].robot == e.robot ==> allocs[i].task == e.task
  }

  predicate AllNameOwn(allocs: seq<Allocation>, rs: seq<AmrEvent>) {
    forall j | 0 <= j < |rs| :: NamesOwn(allocs, rs[j])
  }

  predicate AcceptsTask(e: AmrEvent, task: string) {
    e.eventType.Status? && e.taskState == "ACCEPTED" && e.task == task
  }

  predicate SomeAccepts(rs: seq<AmrEvent>, task: string) {
    exists i :: 0 <= i < |rs| && AcceptsTask(rs[i], task)
  }

  function Reached(was: TaskState, completed: bool, accepted: bool): TaskState {
    if completed then Succeeded else if was.Pending? && accepted then Accepted else was
  }

  lemma NamesOwnKept(db: Db, e: AmrEvent, r: AmrEvent)
    requires NamesOwn(db.allocs, r)
    ensures NamesOwn(Report(db, e).allocs, r)
  {
    ReportAges(db, e);
    hide Report;
  }

  // What one report makes of the state of a task.
  lemma OwnReportState(db: Db, e: AmrEvent, task: string)
    requires LedgerInv(db) && NamesOwn(db.allocs, e) && task in db.tasks
    ensures var d := Report(db, e);
      && task in d.tasks
      && (AllDone(db.status, task) ==> AllDone(d.status, task))
      && d.tasks[task].state
         == Reached(db.tasks[task].state, AllDone(d.status, task) && !AllDone(db.status, task), AcceptsTask(e, task))
  {
    hide LedgerInv, AllDone, StatusCheck, HoldsLastUnits, RecordReport, CanSettle, HasOpen;
    RecordOnly(db, e);
    var d := RecordReport(db, e);
    if CanCarry(d, e) {
      OpenIsItsOwn(d, e);
      SettleFinishesOnly(d, e.request, e.robot, Outcome(e));
    }
  }

  lemma OpenIsItsOwn(db: Db, e: AmrEvent)
    requires NamesOwn(db.allocs, e) && CanCarry(db, e)
    ensures db.allocs[FindOpen(db.allocs, e.request, e.robot)].task == e.task
  {
    hide StatusCheck;
  }

  lemma SomeAcceptsFirst(rs: seq<AmrEvent>, task: string)
    requires rs != []
    ensures SomeAccepts(rs, task) <==> AcceptsTask(rs[0], task) || SomeAccepts(rs[1..], task)
  {
    assert forall i | 0 <= i < |rs| - 1 :: rs[1..][i] == rs[i + 1];
    hide AcceptsTask;
    if i :| 0 <= i < |rs| && AcceptsTask(rs[i], task) {
      assert i > 0 ==> AcceptsTask(rs[1..][i - 1], task);
    }
  }

  lemma {:induction false} StreamStates(db: Db, rs: seq<AmrEvent>, task: string)
    requires Safe(db) && AllNameOwn(db.allocs, rs) && task in db.tasks
    ensures var d := ReportAll(db, rs);
      && task in d.tasks
      && (AllDone(db.status, task) ==> AllDone(d.status, task))
      && d.tasks[task].state
         == Reached(db.tasks[task].state, AllDone(d.status, task) && !AllDone(db.status, task), SomeAccepts(rs, task))
    decreases |rs|
  {
    hide Safe, LedgerInv, NamesOwn, AllDone, AcceptsTask, SomeAccepts;
    if rs == [] {
      NoneAccepts(task);
    } else {
      var e := rs[0];
      var d := Report(db, e);
      SafeParts(db);
      ReportKeeps(db, e);
      OwnReportState(db, e, task);
      SomeAcceptsFirst(rs, task);
      forall j | 0 <= j < |rs[1..]| ensures NamesOwn(d.allocs, rs[1..][j]) {
        NamesOwnKept(db, e, rs[j + 1]);
      }
      hide Report;
      StreamStates(d, rs[1..], task);
    }
  }

  lemma NoneAccepts(task: string)
    ensures !SomeAccepts([], task)
  {
  }

  lemma PermutedAccepts(rs: seq<AmrEvent>, qs: seq<AmrEvent>, task: string)
    requires multiset(rs) == multiset(qs) && SomeAccepts(rs, task)
    ensures SomeAccepts(qs, task)
  {
    var i :| 0 <= i < |rs| && AcceptsTask(rs[i], task);
    var j := SameMembers(rs, qs, i);
  }

  /** When each carry report also names its allocation's own task, the task states
      are the same in every order: a task becomes SUCCEEDED if the reports
      complete it, else ACCEPTED if it was PENDING and some report accepts it,
      and otherwise keeps its state. */
  lemma OrderDoesNotChangeStates(db: Db, rs: seq<AmrEvent>, qs: seq<AmrEvent>, task: string)
    requires Safe(db) && task in db.tasks
    requires multiset(rs) == multiset(qs) && DistinctRequests(rs) && AllNameOwn(db.allocs, rs)
    ensures var a, b := ReportAll(db, rs), ReportAll(db, qs);
      && task in a.tasks && task in b.tasks && a.tasks[task].state == b.tasks[task].state
      && a.tasks[task].state
         == Reached(db.tasks[task].state, AllDone(a.status, task) && !AllDone(db.status, task), SomeAccepts(rs, task))
  {
    forall j | 0 <= j < |qs| ensures NamesOwn(db.allocs, qs[j]) {
      var i := SameMembers(qs, rs, j);
    }
    hide Safe, AllDone, NamesOwn, ReportAll, SomeAccepts, DistinctRequests;
    OrderDoesNotChangeLedger(db, rs, qs);
    StreamStates(db, rs, task);
    StreamStates(db, qs, task);
    if SomeAccepts(rs, task) {
      PermutedAccepts(rs, qs, task);
    }
    if SomeAccepts(qs, task) {
      PermutedAccepts(qs, rs, task);
    }
  }

  // ---- Repeats do not matter ------------------------------------------------------

  // q reports again what e reported.
  predicate Repeats(q: AmrEvent, e: AmrEvent) {
    if IsCarry(q) then IsCarry(e) && q.request == e.request && q.robot == e.robot
    else q.eventType == e.eventType && q.task == e.task && q.taskState == e.taskState
  }

  predicate RepeatsOneOf(q: AmrEvent, seen: seq<AmrEvent>) {
    exists i :: 0 <= i < |seen| && Repeats(q, seen[i])
  }

  // The stream without the reports that repeat an earlier one.
  function DropRepeats(rs: seq<AmrEvent>, seen: seq<AmrEvent>): seq<AmrEvent>
    decreases |rs|
  {
    if rs == [] then []
    else if RepeatsOneOf(rs[0], seen) then DropRepeats(rs[1..], seen)
    else [rs[0]] + DropRepeats(rs[1..], seen + [rs[0]])
  }

  // A report that can no longer do anything.
  predicate Inert(db: Db, q: AmrEvent) {
    if IsCarry(q) then q.request == "" || !HasOpen(db.allocs, q.request, q.robot)
    else q.eventType.Status? && q.taskState == "ACCEPTED" && q.task in db.tasks ==> !db.tasks[q.task].state.Pending?
  }

  predicate SameCore(a: Db, b: Db) { a.(reports := b.reports) == b }

  lemma InertReportChangesNothing(db: Db, q: AmrEvent)
    requires Inert(db, q)
    ensures SameCore(Report(db, q), db)
  {
  }

  lemma RecordedCore(db: Db, e: AmrEvent)
    ensures SameCore(RecordReport(db, e), db)
  {
  }

  // The reaction to a report reads neither the report table nor a timestamp.
  lemma ReactIgnoresReportTable(a: Db, b: Db, e: AmrEvent, f: AmrEvent)
    requires SameCore(a, b) && SameButTime(e, f)
    ensures SameCore(React(a, e), React(b, f))
  {
    hide AllDone, StatusCheck, FindOpen, HasOpen;
    assert CanCarry(a, e) <==> CanCarry(b, f);
    assert Outcome(e) == Outcome(f);
    assert SameCore(Settle(a, e.request, e.robot, Outcome(e)), Settle(b, f.request, f.robot, Outcome(f)));
    hide Settle, CanSettle, CanCarry;
  }

  predicate SameButTime(e: AmrEvent, f: AmrEvent) { e.(timestamp := f.timestamp) == f }

  lemma ReportIgnoresReportTable(a: Db, b: Db, e: AmrEvent, f: AmrEvent)
    requires SameCore(a, b) && SameButTime(e, f)
    ensures SameCore(Report(a, e), Report(b, f))
  {
    RecordedCore(a, e);
    RecordedCore(b, f);
    var x, y := RecordReport(a, e), RecordReport(b, f);
    hide RecordReport, React;
    assert SameCore(x, y);
    ReactIgnoresReportTable(x, y, e, f);
  }

  /** No timestamp is compared: two streams that differ in nothing but their
      timestamps lead to the same ledger, task states and audit log, so a report
      that is older than the state it overwrites overwrites it all the same. */
  lemma {:induction false} TimestampsAreIgnored(a: Db, b: Db, rs: seq<AmrEvent>, qs: seq<AmrEvent>)
    requires SameCore(a, b) && |rs| == |qs| && forall i | 0 <= i < |rs| :: SameButTime(rs[i], qs[i])
    ensures SameCore(ReportAll(a, rs), ReportAll(b, qs))
    decreases |rs|
  {
    hide Report, SameCore, SameButTime;
    if rs != [] {
      ReportIgnoresReportTable(a, b, rs[0], qs[0]);
      TimestampsAreIgnored(Report(a, rs[0]), Report(b, qs[0]), rs[1..], qs[1..]);
    }
  }

  lemma InertStaysInert(db: Db, e: AmrEvent, q: AmrEvent)
    requires Safe(db) && Inert(db, q)
    ensures Inert(Report(db, e), q)
  {
    hide Safe, Report;
    ReportKeeps(db, e);
    ReportAges(db, e);
    var d := Report(db, e);
    assert forall i | 0 <= i < |d.allocs| ::
        IsOpen(d.allocs[i], q.request, q.robot) ==> IsOpen(db.allocs[i], q.request, q.robot);
  }

  lemma ReportedIsInert(db: Db, e: AmrEvent, q: AmrEvent)
    requires LedgerInv(db) && Repeats(q, e)
    ensures Inert(Report(db, e), q)
  {
    if IsCarry(q) {
      if q.request != "" {
        CarriedIsSettled(db, e);
      }
    } else {
      hide LedgerInv, AllDone, CanSettle;
    }
  }

  lemma CarriedIsSettled(db: Db, e: AmrEvent)
    requires LedgerInv(db) && IsCarry(e) && e.request != ""
    ensures !HasOpen(Report(db, e).allocs, e.request, e.robot)
  {
    var d := Report(db, e);
    ReportAges(db, e);
    hide Report, LedgerInv;
    forall i | 0 <= i < |d.allocs| ensures !IsOpen(d.allocs[i], e.request, e.robot) {
      ReportDecidesFate(db, e, i);
    }
  }

  ghost predicate AllInert(db: Db, seen: seq<AmrEvent>) {
    forall i, q | 0 <= i < |seen| && Repeats(q, seen[i]) :: Inert(db, q)
  }

  lemma AllInertAfter(db: Db, e: AmrEvent, seen: seq<AmrEvent>)
    requires Safe(db) && AllInert(db, seen)
    ensures AllInert(Report(db, e), seen + [e]) && AllInert(Report(db, e), seen)
  {
    hide Safe, Inert, Report, Repeats;
    forall i, q | 0 <= i < |seen + [e]| && Repeats(q, (seen + [e])[i])
      ensures Inert(Report(db, e), q)
    {
      if i < |seen| {
        InertStaysInert(db, e, q);
      } else {
        SafeParts(db);
        ReportedIsInert(db, e, q);
      }
    }
    forall i, q | 0 <= i < |seen| && Repeats(q, seen[i]) ensures Inert(Report(db, e), q) {
      InertStaysInert(db, e, q);
    }
  }

  lemma {:induction false} DropRepeatsFrom(db: Db, d: Db, rs: seq<AmrEvent>, seen: seq<AmrEvent>)
    requires Safe(db) && SameCore(db, d) && AllInert(db, seen)
    ensures SameCore(ReportAll(db, rs), ReportAll(d, DropRepeats(rs, seen)))
    decreases |rs|
  {
    hide Safe, Report, Repeats, Inert, SameCore;
    if rs != [] {
      var e := rs[0];
      ReportKeeps(db, e);
      AllInertAfter(db, e, seen);
      hide AllInert;
      if RepeatsOneOf(e, seen) {
        SeenIsInert(db, e, seen);
        InertReportChangesNothing(db, e);
        SameCoreTrans(Report(db, e), db, d);
        DropRepeatsFrom(Report(db, e), d, rs[1..], seen);
      } else {
        ReportIgnoresReportTable(db, d, e, e);
        DropRepeatsFrom(Report(db, e), Report(d, e), rs[1..], seen + [e]);
        var rest := DropRepeats(rs[1..], seen + [e]);
        assert ([e] + rest)[1..] == rest;
      }
    }
  }

  lemma SeenIsInert(db: Db, e: AmrEvent, seen: seq<AmrEvent>)
    requires RepeatsOneOf(e, seen) && AllInert(db, seen)
    ensures Inert(db, e)
  {
    hide Repeats, Inert;
    var i :| 0 <= i < |seen| && Repeats(e, seen[i]);
  }

  lemma SameCoreTrans(a: Db, b: Db, c: Db)
    requires SameCore(a, b) && SameCore(b, c)
    ensures SameCore(a, c)
  {
  }

  /** A stream of reports and the same stream without its repeats end in the same
      ledger, the same task states and the same audit log. */
  lemma RepeatsChangeNothing(db: Db, rs: seq<AmrEvent>)
    requires Safe(db)
    ensures SameCore(ReportAll(db, rs), ReportAll(db, DropRepeats(rs, [])))
  {
    DropRepeatsFrom(db, db, rs, []);
  }

  predicate NoRepeats(d: seq<AmrEvent>, seen: seq<AmrEvent>) {
    && (forall i, j | 0 <= i < |d| && 0 <= j < |seen| :: !Repeats(d[i], seen[j]))
    && (forall i, j | 0 <= j < i < |d| :: !Repeats(d[i], d[j]))
  }

  lemma NoRepeatsCons(e: AmrEvent, rest: seq<AmrEvent>, seen: seq<AmrEvent>)
    requires NoRepeats(rest, seen + [e]) && !RepeatsOneOf(e, seen)
    ensures NoRepeats([e] + rest, seen)
  {
    hide Repeats;
    var d, more := [e] + rest, seen + [e];
    assert more[|seen|] == e && forall j | 0 <= j < |seen| :: more[j] == seen[j];
    forall i, j | 0 <= i < |d| && 0 <= j < |seen| ensures !Repeats(d[i], seen[j]) {
      if i > 0 {
        assert d[i] == rest[i - 1] && seen[j] == more[j];
      }
    }
    forall i, j | 0 <= j < i < |d| ensures !Repeats(d[i], d[j]) {
      assert d[i] == rest[i - 1] && d[j] == if j == 0 then more[|seen|] else rest[j - 1];
    }
  }

  /** And the stream without repeats has none, and is a part of the stream. */
  lemma {:induction false} DropRepeatsHasNone(rs: seq<AmrEvent>, seen: seq<AmrEvent>)
    ensures NoRepeats(DropRepeats(rs, seen), seen)
    ensures multiset(DropRepeats(rs, seen)) <= multiset(rs)
    decreases |rs|
  {
    if rs == [] {
      return;
    }
    hide NoRepeats, RepeatsOneOf;
    assert rs == [rs[0]] + rs[1..];
    if RepeatsOneOf(rs[0], seen) {
      DropRepeatsHasNone(rs[1..], seen);
    } else {
      var more := seen + [rs[0]];
      DropRepeatsHasNone(rs[1..], more);
      NoRepeatsCons(rs[0], DropRepeats(rs[1..], more), seen);
    }
  }
}
