/** The Edge's heartbeat: a task whose robots are all abnormal is interrupted. */
module HeartbeatModule {
  import opened Tables
  import opened TaskRules
  import opened SqliteDb
  import opened TaskLifecycle
  import opened StateMessages
  import opened TaskServiceModule
  import R = Robots

  // `known` is the registry: each robot's last status.
  predicate Abnormal(s: R.RunStatus, now: int) {
    !s.online || s.state == R.OFFLINE || s.state == R.ERROR || now - s.timestamp > 300
  }

  function Healthy(known: map<string, R.RunStatus>, now: int): set<string> {
    set r | r in known && !Abnormal(known[r], now)
  }

  // Whether a beat interrupts a task with this row.
  ghost predicate AllLost(row: TaskRow, known: map<string, R.RunStatus>, now: int) {
    && (row.state == Pending || row.state == Accepted || row.state == Running)
    && row.robotIds != []
    && forall r | r in row.robotIds && r in known ::
         || !known[r].online || known[r].state == R.OFFLINE || known[r].state == R.ERROR
         || now - known[r].timestamp > 300
  }

  /** A beat interrupts exactly the active tasks that have robots and of whose
      robots each is unknown, not online, offline, in error, or silent for more
      than 300 seconds. */
  ghost predicate BeatMeans(db: Db, known: map<string, R.RunStatus>, now: int, d: Db) {
    && d.tasks.Keys == db.tasks.Keys
    && (forall t | t in db.tasks :: var r := db.tasks[t];
          d.tasks[t] == if AllLost(r, known, now)
                        then TaskRow(r.warehouseId, r.taskType, Interrupted, r.robotIds, r.goal, "ALL_AMRS_ABNORMAL")
                        else r)
    && d.goods == db.goods && d.status == db.status && d.allocs == db.allocs && d.reports == db.reports
  }

  // One message for each interrupted task that has goods, and no other.
  ghost predicate BeatTells(db: Db, known: map<string, R.RunStatus>, now: int, told: seq<StateMessage>) {
    && (forall i | 0 <= i < |told| :: var t := told[i].taskId;
          t in db.tasks && AllLost(db.tasks[t], known, now) && HasGoods(db, t))
    && (forall t | t in db.tasks && AllLost(db.tasks[t], known, now) && HasGoods(db, t) ::
          exists i :: 0 <= i < |told| && told[i].taskId == t)
    && (forall i, j | 0 <= i < j < |told| :: told[i].taskId != told[j].taskId)
  }

  function Ids(active: seq<ActiveTask>): (ids: seq<string>)
    ensures |ids| == |active| && forall i | 0 <= i < |ids| :: ids[i] == active[i].taskId
  {
    seq(|active|, i requires 0 <= i < |active| => active[i].taskId)
  }

  // The rest of the list is as it was when it was read.
  ghost predicate StillActive(db: Db, active: seq<ActiveTask>, from: nat) {
    forall i | from <= i < |active| ::
      && active[i].taskId in db.tasks && IsActive(db.tasks[active[i].taskId])
      && active[i].robotIds == db.tasks[active[i].taskId].robotIds
  }

  lemma {:induction false} HeartbeatLeavesOthers(db: Db, order: seq<string>, healthy: set<string>, task: string)
    requires task in db.tasks && task !in order
    ensures var d := Heartbeat(db, order, healthy); task in d.tasks && d.tasks[task] == db.tasks[task]
    decreases |order|
  {
    if order != [] {
      assert order[0] in order && order[0] != task;
      HeartbeatLeavesOthers(if ShouldInterrupt(db, order[0], healthy) then Interrupt(db, order[0]) else db,
                            order[1..], healthy, task);
    }
  }

  lemma {:induction false} HeartbeatReaches(db: Db, order: seq<string>, healthy: set<string>, i: nat)
    requires i < |order| && order[i] in db.tasks
    requires forall j, k | 0 <= j < k < |order| :: order[j] != order[k]
    ensures var d := Heartbeat(db, order, healthy);
      && order[i] in d.tasks
      && d.tasks[order[i]] == (if ShouldInterrupt(db, order[i], healthy)
                               then db.tasks[order[i]].(state := Interrupted, reason := "ALL_AMRS_ABNORMAL")
                               else db.tasks[order[i]])
    decreases |order|
  {
    var d := if ShouldInterrupt(db, order[0], healthy) then Interrupt(db, order[0]) else db;
    if i == 0 {
      HeartbeatLeavesOthers(d, order[1..], healthy, order[0]);
    } else {
      assert order[i] == order[1..][i - 1] && order[i] != order[0];
      HeartbeatReaches(d, order[1..], healthy, i - 1);
    }
  }

  /** One beat interrupts exactly the active tasks that have robots and of whose
      robots none is known and healthy; every other task row is untouched. A
      robot that never registered counts as abnormal. */
  lemma HeartbeatInterruptsExactly(db: Db, active: seq<ActiveTask>, healthy: set<string>, task: string)
    requires ListsActive(db, active) && task in db.tasks
    ensures var d := Heartbeat(db, Ids(active), healthy);
      && task in d.tasks
      && d.tasks[task] == (if ShouldInterrupt(db, task, healthy)
                           then db.tasks[task].(state := Interrupted, reason := "ALL_AMRS_ABNORMAL")
                           else db.tasks[task])
  {
    var ids := Ids(active);
    if i :| 0 <= i < |active| && active[i].taskId == task {
      HeartbeatReaches(db, ids, healthy, i);
    } else {
      assert !IsActive(db.tasks[task]);
      HeartbeatLeavesOthers(db, ids, healthy, task);
    }
  }

  class EdgeServerApp {
    const service: TaskService

    constructor (service: TaskService)
      ensures this.service == service
    {
      this.service := service;
    }

    method AllRobotsAbnormal(robotIds: seq<string>, known: map<string, R.RunStatus>, now: int)
      returns (all: bool)
      ensures all <==> robotIds != [] && forall i | 0 <= i < |robotIds| && robotIds[i] in known ::
                         || !known[robotIds[i]].online
                         || known[robotIds[i]].state == R.OFFLINE || known[robotIds[i]].state == R.ERROR
                         || now - known[robotIds[i]].timestamp > 300
    {
      all := robotIds != [];
      for i := 0 to |robotIds|
        invariant all <==> robotIds != []
        invariant forall j | 0 <= j < i && robotIds[j] in known :: Abnormal(known[robotIds[j]], now)
      {
        if robotIds[i] !in known {
          continue;
        }
        if !Abnormal(known[robotIds[i]], now) {
          all := false;
          break;
        }
      }
    }

    // Interrupts one task and makes the message that tells its state.
    method InterruptAndTell(task: string) returns (told: Option<StateMessage>)
      requires service.db.Valid() && task in service.db.tasks
      modifies service.db
      ensures service.db.Valid()
      ensures service.db.State() == Interrupt(old(service.db.State()), task)
      ensures told.Some? <==> HasGoods(old(service.db.State()), task)
      ensures told.Some? ==> told.value.taskId == task && TellsInterrupted(service.db.State(), told.value)
    {
      hide SQLiteDB.Valid, ListsStatusOf, AllDone, SumsOwnColumns, SumsLedger;
      var marked := service.MarkTaskInterrupted(task, "ALL_AMRS_ABNORMAL");
      if marked {
        told := service.BuildTaskStateMessage(task);
      }
    }

    // `told` are the published messages, in order.
    method CheckAmrHeartbeat(known: map<string, R.RunStatus>, now: int)
      returns (active: seq<ActiveTask>, told: seq<StateMessage>)
      requires service.db.Valid()
      modifies service.db
      ensures service.db.Valid()
      ensures ListsActive(old(service.db.State()), active)
      ensures service.db.State() == Heartbeat(old(service.db.State()), Ids(active), Healthy(known, now))
      ensures BeatMeans(old(service.db.State()), known, now, service.db.State())
      ensures BeatTells(old(service.db.State()), known, now, told)
      ensures forall m | m in told :: TellsInterrupted(service.db.State(), m)
    {
      hide SQLiteDB.Valid, TellsInterrupted, HasGoods, Interrupt, AllAbnormal, Healthy, Abnormal, BeatMeans, BeatTells;
      hide ToldIds, TaskIds;
      active := service.GetActiveTasks();
      told := [];
      ghost var start, ids, healthy := service.db.State(), Ids(active), Healthy(known, now);
      AllStillActive(start, active);
      hide ListsActive, StillActive, Heartbeat, IsActive;
      NothingTold(start, active, healthy);
      assert ids[0..] == ids;
      for i := 0 to |active|
        invariant service.db.Valid() && service.db.status == start.status
        invariant StillActive(service.db.State(), active, i)
        invariant Heartbeat(start, ids, healthy) == Heartbeat(service.db.State(), ids[i..], healthy)
        invariant TaskIds(told) == ToldIds(start, active[..i], healthy)
        invariant forall m | m in told :: TellsInterrupted(service.db.State(), m)
      {
        ghost var before := service.db.State();
        ToldGrow(start, active, i, healthy);
        BeatStep(before, active, i, healthy);
        SameGoods(start, before, active[i].taskId);
        AbnormalSpelled(active[i].robotIds, known, now);
        var allAbnormal := AllRobotsAbnormal(active[i].robotIds, known, now);
        if !allAbnormal {
          continue;
        }
        var message := InterruptAndTell(active[i].taskId);
        InterruptKeepsTold(before, active[i].taskId, told);
        if message.Some? {
          OneMoreTold(told, message.value);
          told := told + [message.value];
        }
      }
      assert active[..|active|] == active;
      BeatEnds(start, service.db.State(), active, known, now, told);
    }
  }

  ghost predicate HasGoods(db: Db, task: string) {
    exists k :: k in db.status && k.task == task
  }

  // The message tells the state of an interrupted task.
  ghost predicate TellsInterrupted(db: Db, m: StateMessage) {
    && m.taskId in db.tasks && db.tasks[m.taskId].state.Interrupted? && m.state.Interrupted?
    && TellsState(db, m.taskId, Some(m))
  }

  function TaskIds(told: seq<StateMessage>): (ids: seq<string>)
    ensures |ids| == |told| && forall i | 0 <= i < |ids| :: ids[i] == told[i].taskId
  {
    seq(|told|, i requires 0 <= i < |told| => told[i].taskId)
  }

  // The tasks a beat interrupts and can tell the state of.
  ghost function ToldIds(db: Db, active: seq<ActiveTask>, healthy: set<string>): seq<string> {
    if active == [] then []
    else
      var last := active[|active| - 1];
      ToldIds(db, active[..|active| - 1], healthy)
      + (if AllAbnormal(last.robotIds, healthy) && HasGoods(db, last.taskId) then [last.taskId] else [])
  }

  lemma AbnormalSpelled(robotIds: seq<string>, known: map<string, R.RunStatus>, now: int)
    ensures AllAbnormal(robotIds, Healthy(known, now)) <==>
            robotIds != [] && forall i | 0 <= i < |robotIds| && robotIds[i] in known ::
              || !known[robotIds[i]].online
              || known[robotIds[i]].state == R.OFFLINE || known[robotIds[i]].state == R.ERROR
              || now - known[robotIds[i]].timestamp > 300
  {
  }

  lemma LostSpelled(row: TaskRow, known: map<string, R.RunStatus>, now: int)
    ensures AllLost(row, known, now) <==> IsActive(row) && AllAbnormal(row.robotIds, Healthy(known, now))
  {
    AbnormalSpelled(row.robotIds, known, now);
    hide AllAbnormal, Healthy;
    assert forall r :: r in row.robotIds <==> exists i :: 0 <= i < |row.robotIds| && row.robotIds[i] == r;
  }

  lemma BeatIsMeant(db: Db, active: seq<ActiveTask>, known: map<string, R.RunStatus>, now: int)
    requires ListsActive(db, active)
    ensures BeatMeans(db, known, now, Heartbeat(db, Ids(active), Healthy(known, now)))
  {
    var healthy := Healthy(known, now);
    var d := Heartbeat(db, Ids(active), healthy);
    HeartbeatKeepsStatus(db, Ids(active), healthy);
    hide Healthy, Heartbeat, ListsActive, AllAbnormal, AllLost;
    forall t | t in db.tasks
      ensures var r := db.tasks[t];
        d.tasks[t] == if AllLost(r, known, now)
                      then TaskRow(r.warehouseId, r.taskType, Interrupted, r.robotIds, r.goal, "ALL_AMRS_ABNORMAL")
                      else r
    {
      HeartbeatInterruptsExactly(db, active, healthy, t);
      LostSpelled(db.tasks[t], known, now);
    }
  }

  // The told tasks are the interrupted ones that have goods.
  lemma {:induction false} ToldAre(db: Db, active: seq<ActiveTask>, healthy: set<string>, task: string)
    requires forall i, j | 0 <= i < j < |active| :: active[i].taskId != active[j].taskId
    ensures var ids := ToldIds(db, active, healthy);
      && (task in ids <==> exists i :: 0 <= i < |active| && active[i].taskId == task
                                       && AllAbnormal(active[i].robotIds, healthy) && HasGoods(db, task))
      && forall i, j | 0 <= i < j < |ids| :: ids[i] != ids[j]
    decreases |active|
  {
    hide AllAbnormal, HasGoods;
    if active != [] {
      var n := |active| - 1;
      ToldAre(db, active[..n], healthy, task);
      ToldAre(db, active[..n], healthy, active[n].taskId);
      assert active[n].taskId !in ToldIds(db, active[..n], healthy);
    }
  }

  lemma ToldAreMeant(db: Db, active: seq<ActiveTask>, known: map<string, R.RunStatus>, now: int,
                     told: seq<StateMessage>)
    requires ListsActive(db, active) && TaskIds(told) == ToldIds(db, active, Healthy(known, now))
    ensures BeatTells(db, known, now, told)
  {
    var healthy := Healthy(known, now);
    var ids := ToldIds(db, active, healthy);
    hide Healthy, ToldIds, AllAbnormal, AllLost, HasGoods;
    ToldAre(db, active, healthy, "");
    forall t ensures t in ids <==> t in db.tasks && AllLost(db.tasks[t], known, now) && HasGoods(db, t) {
      ToldAre(db, active, healthy, t);
      if t in db.tasks {
        LostSpelled(db.tasks[t], known, now);
      }
    }
    hide ListsActive;
    forall t | t in ids ensures exists i :: 0 <= i < |told| && told[i].taskId == t {
      var i :| 0 <= i < |ids| && ids[i] == t;
      assert told[i].taskId == t;
    }
    assert forall i | 0 <= i < |told| :: ids[i] == told[i].taskId;
  }

  lemma NothingTold(db: Db, active: seq<ActiveTask>, healthy: set<string>)
    ensures ToldIds(db, active[..0], healthy) == [] == TaskIds([])
  {
  }

  lemma OneMoreTold(told: seq<StateMessage>, m: StateMessage)
    ensures TaskIds(told + [m]) == TaskIds(told) + [m.taskId]
  {
  }

  lemma ToldGrow(db: Db, active: seq<ActiveTask>, i: nat, healthy: set<string>)
    requires i < |active|
    ensures ToldIds(db, active[..i + 1], healthy) == ToldIds(db, active[..i], healthy)
         + (if AllAbnormal(active[i].robotIds, healthy) && HasGoods(db, active[i].taskId)
            then [active[i].taskId] else [])
  {
    hide AllAbnormal, HasGoods;
    assert active[..i + 1][..i] == active[..i];
  }

  lemma AllStillActive(db: Db, active: seq<ActiveTask>)
    requires ListsActive(db, active)
    ensures StillActive(db, active, 0)
  {
  }

  // One turn of the loop: the task is interrupted exactly when all its robots
  // are abnormal, and the rest of the list stays as it was read.
  lemma BeatStep(db: Db, active: seq<ActiveTask>, i: nat, healthy: set<string>)
    requires i < |active| && StillActive(db, active, i)
    requires forall j, k | 0 <= j < k < |active| :: active[j].taskId != active[k].taskId
    ensures active[i].taskId in db.tasks
    ensures var d := if AllAbnormal(active[i].robotIds, healthy) then Interrupt(db, active[i].taskId) else db;
      && Heartbeat(db, Ids(active)[i..], healthy) == Heartbeat(d, Ids(active)[i + 1..], healthy)
      && StillActive(d, active, i + 1) && d.status == db.status
  {
    hide AllAbnormal;
    var ids := Ids(active);
    assert ids[i..][1..] == ids[i + 1..] && ids[i..][0] == active[i].taskId;
  }

  lemma BeatEnds(
    start: Db, db: Db, active: seq<ActiveTask>, known: map<string, R.RunStatus>, now: int, told: seq<StateMessage>)
    requires ListsActive(start, active) && TaskIds(told) == ToldIds(start, active, Healthy(known, now))
    requires var ids, healthy := Ids(active), Healthy(known, now);
      Heartbeat(start, ids, healthy) == Heartbeat(db, ids[|ids|..], healthy)
    ensures db == Heartbeat(start, Ids(active), Healthy(known, now))
    ensures BeatMeans(start, known, now, db) && BeatTells(start, known, now, told)
  {
    hide ListsActive, TaskIds, ToldIds, Healthy, BeatMeans, BeatTells;
    BeatIsMeant(start, active, known, now);
    ToldAreMeant(start, active, known, now, told);
  }

  lemma SameGoods(a: Db, b: Db, task: string)
    requires a.status == b.status
    ensures HasGoods(a, task) == HasGoods(b, task)
  {
  }

  lemma InterruptKeepsTold(db: Db, task: string, told: seq<StateMessage>)
    requires forall m | m in told :: TellsInterrupted(db, m)
    ensures forall m | m in told :: TellsInterrupted(Interrupt(db, task), m)
  {
    hide ListsStatusOf, SumsLedger, SumsOwnColumns;
    forall m | m in told ensures TellsInterrupted(Interrupt(db, task), m) {
      assert TellsInterrupted(db, m);
      SameLedgerTold(db, Interrupt(db, task), m);
    }
  }

  lemma SameLedgerTold(a: Db, b: Db, m: StateMessage)
    requires a.status == b.status && a.allocs == b.allocs
    ensures ListsStatusOf(a, m.taskId, m.goods) <==> ListsStatusOf(b, m.taskId, m.goods)
    ensures SumsLedger(a, m) <==> SumsLedger(b, m)
  {
  }
}
