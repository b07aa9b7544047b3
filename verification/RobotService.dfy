/** The registry, its database tables and the service that keeps them together. */
module RobotServiceModule {
  import opened Tables
  import opened IdlePoints
  import opened Robots

  // The robot tables of the Edge database.
  class RobotDatabase {
    var robots: map<string, RobotRow>
    var instances: seq<InstanceRow>
    var statuses: map<string, StatusCells>

    ghost function Rows(): RobotTables
      reads this
    {
      RobotTables(robots, instances, statuses)
    }

    constructor ()
      ensures Rows() == NO_ROBOTS
    {
      robots, instances, statuses := map[], [], map[];
    }

    // One transaction; none of the three tables has a constraint these rows can break.
    method UpsertRobot(base: Base, status: RunStatus) returns (ok: bool)
      modifies this
      ensures ok && Rows() == Upsert(old(Rows()), base, status)
      ensures robots == old(robots)[base.robotId := RobotRow(base.warehouseId, base.timestamp, base.initialPose)]
      ensures instances ==
              if base.instanceId == ""
                 || exists i :: 0 <= i < |old(instances)| && old(instances)[i].robotId == base.robotId
                                && old(instances)[i].instanceId == base.instanceId
              then old(instances)
              else
                old(instances)
                + [InstanceRow(base.robotId, base.instanceId, "amr_" + base.robotId + "_" + base.instanceId)]
      ensures statuses == old(statuses)[base.robotId :=
        StatusCells(status.state, status.online, status.battery, status.pose, status.taskId)]
    {
      robots := robots[base.robotId := RobotRow(base.warehouseId, base.timestamp, base.initialPose)];
      if base.instanceId != "" {
        var modelName := "amr_" + base.robotId + "_" + base.instanceId;
        if !HasInstance(instances, base.robotId, base.instanceId) {
          instances := instances + [InstanceRow(base.robotId, base.instanceId, modelName)];
        }
      }
      statuses := statuses[base.robotId :=
        StatusCells(status.state, status.online, status.battery, status.pose, status.taskId)];
      return true;
    }

    method LatestInstance(robotId: string) returns (instance: string)
      ensures instance == LastInstance(instances, robotId)
      ensures if exists i :: 0 <= i < |instances| && instances[i].robotId == robotId
              then exists i :: 0 <= i < |instances| && instances[i].robotId == robotId
                               && instances[i].instanceId == instance
                               && forall j | i < j < |instances| :: instances[j].robotId != robotId
              else instance == ""
    {
      var n := |instances|;
      assert instances[..n] == instances;
      while n > 0
        invariant 0 <= n <= |instances|
        invariant LastInstance(instances[..n], robotId) == LastInstance(instances, robotId)
        invariant forall j | n <= j < |instances| :: instances[j].robotId != robotId
      {
        assert instances[..n][..n - 1] == instances[..n - 1];
        if instances[n - 1].robotId == robotId {
          return instances[n - 1].instanceId;
        }
        n := n - 1;
      }
      return "";
    }

    // `ids` is the order in which the database returns the robots.
    method LoadRobots(ids: seq<string>) returns (bases: seq<Base>, loaded: seq<RunStatus>)
      requires ListsRobots(Rows(), ids)
      ensures |bases| == |loaded| == |ids|
      ensures forall i | 0 <= i < |ids| ::
        bases[i] == LoadedBase(Rows(), ids[i]) && loaded[i] == LoadedStatus(Rows(), ids[i])
      ensures forall i | 0 <= i < |ids| :: var row := robots[ids[i]];
        && bases[i] == Base(ids[i], bases[i].instanceId, row.warehouseId, "", row.timestamp, row.initialPose)
        && loaded[i] == if ids[i] !in statuses then RunStatus(ids[i], OFFLINE, false, 0, 0.0, ORIGIN, "")
                        else var cells := statuses[ids[i]];
                             RunStatus(ids[i], OFFLINE, false, 0, cells.battery, cells.pose, cells.taskId)
    {
      bases, loaded := [], [];
      for i := 0 to |ids|
        invariant |bases| == |loaded| == i
        invariant forall j | 0 <= j < i ::
          bases[j] == LoadedBase(Rows(), ids[j]) && loaded[j] == LoadedStatus(Rows(), ids[j])
      {
        var id := ids[i];
        var row := robots[id];
        var instance := LatestInstance(id);
        var status := RunStatus(id, OFFLINE, false, 0, 0.0, ORIGIN, "");
        if id in statuses {
          var cells := statuses[id];
          status := status.(battery := cells.battery, pose := cells.pose, taskId := cells.taskId);
        }
        bases := bases + [Base(id, instance, row.warehouseId, "", row.timestamp, row.initialPose)];
        loaded := loaded + [status];
      }
    }
  }

  // Each robot is stored under its own id, which is not empty.
  ghost predicate Keyed(robots: map<string, Entity>) {
    forall id | id in robots :: id != "" && robots[id].base.robotId == id
  }

  class RobotManager {
    var robots: map<string, Entity>
    const allocator: IdlePointAllocator
    ghost var obtained: set<string>

    ghost predicate Valid()
      reads this, allocator
    {
      allocator.Valid() && Keyed(robots)
    }

    ghost function State(rows: RobotTables): Edge
      reads this, allocator
    {
      Edge(allocator.points, allocator.occupied, robots, rows, obtained)
    }

    constructor (a: IdlePointAllocator)
      requires a.Valid()
      ensures Valid() && allocator == a && robots == map[] && obtained == {}
    {
      robots, allocator, obtained := map[], a, {};
    }

    // `instance` is the instance id made from the registration time, `now` the clock.
    method RegisterRobot(robot: Base, instance: string, now: int, ghost rows: RobotTables) returns (ok: bool)
      requires Valid()
      modifies this, allocator`occupied
      ensures Valid() && ok == (robot.robotId != "")
      ensures State(rows) == Register(old(State(rows)), robot, instance, now)
      ensures !ok ==> robots == old(robots) && allocator.occupied == old(allocator.occupied)
      ensures ok && robot.robotId in old(robots) ==> var known := old(robots)[robot.robotId];
        && robots == old(robots)[robot.robotId := Entity(
             Base(robot.robotId, known.base.instanceId, robot.warehouseId, robot.mapVersion, robot.timestamp,
                  known.base.initialPose), known.status)]
        && allocator.occupied == old(allocator.occupied)
      ensures ok && robot.robotId !in old(robots) ==>
        && robot.robotId in robots
        && var pose := robots[robot.robotId].base.initialPose;
        && robots == old(robots)[robot.robotId := Entity(
             Base(robot.robotId, instance, robot.warehouseId, robot.mapVersion, robot.timestamp, pose),
             RunStatus("", INITIALIZING, true, now, 0.0, pose, ""))]
        && (exists point :: Takes(allocator.points, old(allocator.occupied), point, allocator.occupied)
                            && pose == if point.Some? then point.value else Pose(0.0, 0.0, 0.0))
    {
      var id := robot.robotId;
      if id == "" {
        return false;
      }
      if id in robots {
        var known := robots[id];
        var refreshed := robot.(instanceId := known.base.instanceId);
        refreshed := refreshed.(initialPose := known.base.initialPose);
        robots := robots[id := known.(base := refreshed)];
        return true;
      }
      var status := RunStatus("", INITIALIZING, true, now, 0.0, ORIGIN, "");
      var point := allocator.Allocate();
      if point.Some? {
        status := status.(pose := point.value);
        obtained := obtained + {id};
      }
      robots := robots[id := Entity(robot.(instanceId := instance, initialPose := status.pose), status)];
      return true;
    }

    method RestoreRobot(base: Base, status: RunStatus)
      modifies this`robots
      ensures robots ==
              if base.robotId == "" || base.robotId in old(robots) then old(robots)
              else old(robots)[base.robotId :=
                Entity(base, status.(robotId := base.robotId, online := false, state := OFFLINE))]
    {
      if base.robotId == "" || base.robotId in robots {
        return;
      }
      var restored := status.(robotId := base.robotId);
      restored := restored.(online := false);
      restored := restored.(state := OFFLINE);
      robots := robots[base.robotId := Entity(base, restored)];
    }

    method GetRobotBaseInfo(id: string) returns (r: Option<Base>)
      ensures r == if id in robots then Some(robots[id].base) else None
    {
      if id !in robots {
        return None;
      }
      return Some(robots[id].base);
    }

    method GetRobotStatus(id: string) returns (r: Option<RunStatus>)
      ensures r == if id in robots then Some(robots[id].status) else None
    {
      if id !in robots {
        return None;
      }
      return Some(robots[id].status);
    }

    method MarkOffline(id: string, now: int, ghost rows: RobotTables) returns (ok: bool)
      requires Valid()
      modifies this`robots
      ensures Valid() && ok == (id in old(robots)) && State(rows) == GoOffline(old(State(rows)), id, now)
      ensures !ok ==> robots == old(robots)
      ensures ok ==> var base, s := old(robots)[id].base, old(robots)[id].status;
        robots == old(robots)[id :=
          Entity(base, RunStatus(s.robotId, OFFLINE, false, now, s.battery, s.pose, s.taskId))]
    {
      if id !in robots {
        return false;
      }
      var status := robots[id].status;
      status := status.(online := false);
      status := status.(state := OFFLINE);
      status := status.(timestamp := now);
      robots := robots[id := robots[id].(status := status)];
      return true;
    }

    method UpdateRobotStatus(id: string, status: RunStatus, ghost rows: RobotTables) returns (ok: bool)
      requires Valid()
      modifies this`robots
      ensures Valid() && ok == (id in old(robots)) && State(rows) == SetStatus(old(State(rows)), id, status)
      ensures robots == if ok then old(robots)[id := Entity(old(robots)[id].base, status)] else old(robots)
    {
      if id !in robots {
        return false;
      }
      robots := robots[id := robots[id].(status := status)];
      return true;
    }

    // One entry for every known robot, in the order `ids` of the registry.
    method GetRobotList() returns (list: seq<Listed>, ghost ids: seq<string>)
      requires Valid()
      ensures |ids| == |list| == |robots|
      ensures forall i | 0 <= i < |ids| ::
        ids[i] in robots && list[i] == Listed(ids[i], robots[ids[i]].base.instanceId, robots[ids[i]].base.initialPose)
      ensures forall id | id in robots :: id in ids
      ensures forall i, j | 0 <= i < j < |ids| :: ids[i] != ids[j]
    {
      list, ids := [], [];
      var left := robots.Keys;
      while left != {}
        invariant left <= robots.Keys
        invariant |list| == |ids| == |robots| - |left|
        invariant forall i | 0 <= i < |ids| ::
          ids[i] in robots && ids[i] !in left
          && list[i] == Listed(ids[i], robots[ids[i]].base.instanceId, robots[ids[i]].base.initialPose)
        invariant forall id | id in robots :: id in left || id in ids
        invariant forall i, j | 0 <= i < j < |ids| :: ids[i] != ids[j]
      {
        var id :| id in left;
        var base := robots[id].base;
        list := list + [Listed(base.robotId, base.instanceId, base.initialPose)];
        ids := ids + [id];
        left := left - {id};
      }
    }
  }

  datatype MapUpdate = MapUpdate(needed: bool, version: string, url: string)
  datatype RegisterResponse = RegisterResponse(
    robotId: string, requestId: string, code: int, message: string, initialPose: Option<Pose>,
    update: MapUpdate)

  const NO_UPDATE := MapUpdate(false, "", "")

  class RobotService {
    const manager: RobotManager
    const db: RobotDatabase

    ghost predicate Valid()
      reads this, manager, manager.allocator
    {
      manager.Valid()
    }

    ghost function State(): Edge
      reads this, manager, manager.allocator, db
    {
      manager.State(db.Rows())
    }

    constructor (m: RobotManager, d: RobotDatabase)
      requires m.Valid()
      ensures Valid() && manager == m && db == d
    {
      manager, db := m, d;
    }

    // `update` is the outcome of the map lookup, which only fills the reply.
    method HandleRegister(robot: Base, requestId: string, instance: string, now: int, update: Option<MapUpdate>)
      returns (ok: bool, reply: RegisterResponse)
      requires Valid()
      modifies manager, manager.allocator`occupied, db
      ensures Valid() && ok == (robot.robotId != "")
      ensures State() == HandleRegisterSpec(old(State()), robot, instance, now)
      ensures reply.robotId == robot.robotId && reply.requestId == requestId
      ensures ok ==> robot.robotId in manager.robots
      ensures ok ==> var known := manager.robots[robot.robotId];
        && Given(old(State()), robot.robotId, instance, known.base)
        && reply.initialPose == Some(known.base.initialPose)
        && robot.robotId in db.robots && robot.robotId in db.statuses
        && db.robots[robot.robotId] == RobotRow(robot.warehouseId, robot.timestamp, known.base.initialPose)
        && db.statuses[robot.robotId] == StatusCells(known.status.state, known.status.online, known.status.battery,
                                                     known.status.pose, known.status.taskId)
      ensures !ok ==> reply.initialPose == None && reply.message == "register failed"
      ensures ok && update.None? ==> reply.message == "check map failed"
      ensures reply.code == (if ok && update.Some? then 0 else -1)
      ensures reply.update == if ok && update.Some? then update.value else NO_UPDATE
    {
      reply := RegisterResponse(robot.robotId, requestId, -1, "", None, NO_UPDATE);
      if robot.robotId != "" {
        RegisteredIsGiven(State(), robot, instance, now);
      }
      hide Given;
      var registered := manager.RegisterRobot(robot, instance, now, db.Rows());
      if !registered {
        return false, reply.(message := "register failed");
      }
      var base := manager.GetRobotBaseInfo(robot.robotId);
      var status := manager.GetRobotStatus(robot.robotId);
      if base.Some? && status.Some? {
        var _ := db.UpsertRobot(base.value, status.value);
        reply := reply.(initialPose := Some(base.value.initialPose));
      }
      if update.Some? {
        reply := reply.(update := update.value, code := 0);
      } else {
        reply := reply.(message := "check map failed");
      }
      return true, reply;
    }

    method HandleStatus(status: RunStatus)
      requires Valid()
      modifies manager`robots
      ensures Valid() && State() == SetStatus(old(State()), status.robotId, status)
      ensures var id, was := status.robotId, old(manager.robots);
        manager.robots == if id in was then was[id := Entity(was[id].base, status)] else was
    {
      var _ := manager.UpdateRobotStatus(status.robotId, status, db.Rows());
    }

    method HandleWill(id: string, now: int)
      requires Valid()
      modifies manager`robots
      ensures Valid() && State() == GoOffline(old(State()), id, now)
      ensures id !in old(manager.robots) ==> manager.robots == old(manager.robots)
      ensures id in old(manager.robots) ==>
        var base, s := old(manager.robots)[id].base, old(manager.robots)[id].status;
        manager.robots == old(manager.robots)[id :=
          Entity(base, RunStatus(s.robotId, OFFLINE, false, now, s.battery, s.pose, s.taskId))]
    {
      var _ := manager.MarkOffline(id, now, db.Rows());
    }

    // The active map changed: its points replace the old ones, all free.
    method OnActiveMapChanged(stations: Option<seq<Station>>)
      requires Valid()
      modifies manager`obtained, manager.allocator
      ensures Valid()
      ensures State() == LoadMap(old(State()), if stations.Some? then IdlePoses(stations.value) else [])
      ensures manager.allocator.points == (if stations.Some? then IdlePoses(stations.value) else [])
      ensures forall i | 0 <= i < |manager.allocator.occupied| :: !manager.allocator.occupied[i]
      ensures manager.robots == old(manager.robots)
    {
      var _ := manager.allocator.Load(stations);
      manager.obtained := {};
    }
  }

  ghost function Restored(rows: RobotTables, ids: seq<string>): map<string, Entity>
    requires forall i | 0 <= i < |ids| :: ids[i] in rows.robots
  {
    map id | id in ids && id != "" :: RestoredEntity(rows, id)
  }

  // Restoring one more stored robot extends both results by that robot.
  lemma MarkOneMore(points: seq<Pose>, rows: RobotTables, ids: seq<string>, i: nat)
    requires ListsRobots(rows, ids) && i < |ids|
    ensures MarkAll(points, AllFree(|points|), rows, ids[..i + 1])
         == Marked(points, MarkAll(points, AllFree(|points|), rows, ids[..i]), rows.robots[ids[i]].initialPose)
  {
    hide Marked;
    assert ids[..i + 1][..i] == ids[..i];
  }

  lemma RestoreOneMore(rows: RobotTables, ids: seq<string>, i: nat)
    requires ListsRobots(rows, ids) && i < |ids|
    ensures var one := Restored(rows, ids[..i]);
      && ids[i] !in one
      && Restored(rows, ids[..i + 1])
         == if ids[i] == "" then one else one[ids[i] := RestoredEntity(rows, ids[i])]
  {
    hide RestoredEntity;
    assert forall id :: id in ids[..i + 1] <==> id in ids[..i] || id == ids[i];
  }

  /** Start-up: load the active map's points, then mark the point of every
      stored robot and put it back into the registry. */
  method StartRobots(db: RobotDatabase, ids: seq<string>, stations: Option<seq<Station>>, ghost last: Edge)
    returns (service: RobotService)
    requires ListsRobots(db.Rows(), ids) && last.db == db.Rows()
    ensures service.Valid() && service.db == db && fresh(service.manager) && fresh(service.manager.allocator)
    ensures service.State() == Restart(last, if stations.Some? then IdlePoses(stations.value) else [], ids)
    ensures service.manager.robots.Keys == db.robots.Keys - {""}
    ensures forall id | id in db.robots && id != "" :: var row, found := db.robots[id], service.manager.robots[id];
      && found.base == Base(id, LastInstance(db.instances, id), row.warehouseId, "", row.timestamp, row.initialPose)
      && found.status.robotId == id && found.status.state == OFFLINE && !found.status.online
  {
    var allocator := new IdlePointAllocator();
    var _ := allocator.Load(stations);
    var manager := new RobotManager(allocator);
    RestoreRobots(db, allocator, manager, ids);
    ghost var points := allocator.points;
    RestoredIsRestart(last, points, ids);
    RestoredMeans(db.Rows(), ids);
    hide Restart, Restored, MarkAll, IdlePoses;
    manager.obtained := Restart(last, points, ids).obtained;
    service := new RobotService(manager, db);
  }

  lemma RestoredIsRestart(e: Edge, points: seq<Pose>, ids: seq<string>)
    requires ListsRobots(e.db, ids)
    ensures Restart(e, points, ids) == Edge(points, MarkAll(points, AllFree(|points|), e.db, ids),
                                            Restored(e.db, ids), e.db, Restart(e, points, ids).obtained)
  {
    assert forall id :: id in ids <==> id in e.db.robots;
    hide RestoredEntity, MarkAll;
  }

  lemma RestoredMeans(rows: RobotTables, ids: seq<string>)
    requires ListsRobots(rows, ids)
    ensures Restored(rows, ids).Keys == rows.robots.Keys - {""}
    ensures forall id | id in rows.robots && id != "" :: var row, found := rows.robots[id], Restored(rows, ids)[id];
      && found.base == Base(id, LastInstance(rows.instances, id), row.warehouseId, "", row.timestamp, row.initialPose)
      && found.status.robotId == id && found.status.state == OFFLINE && !found.status.online
  {
  }

  method RestoreRobots(db: RobotDatabase, allocator: IdlePointAllocator, manager: RobotManager, ids: seq<string>)
    requires ListsRobots(db.Rows(), ids) && allocator.Valid() && manager.robots == map[]
    requires allocator.occupied == AllFree(|allocator.points|)
    modifies allocator`occupied, manager`robots
    ensures allocator.Valid()
    ensures allocator.occupied == MarkAll(allocator.points, AllFree(|allocator.points|), db.Rows(), ids)
    ensures manager.robots == Restored(db.Rows(), ids)
  {
    var bases, statuses := db.LoadRobots(ids);
    ghost var rows, free := db.Rows(), AllFree(|allocator.points|);
    for i := 0 to |bases|
      invariant allocator.Valid()
      invariant allocator.occupied == MarkAll(allocator.points, free, rows, ids[..i])
      invariant manager.robots == Restored(rows, ids[..i])
    {
      MarkOneMore(allocator.points, rows, ids, i);
      RestoreOneMore(rows, ids, i);
      allocator.MarkOccupied(bases[i].initialPose);
      manager.RestoreRobot(bases[i], statuses[i]);
    }
    assert ids[..|ids|] == ids;
  }
}
