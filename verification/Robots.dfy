/** Robot identity: the in-memory registry, its rows in the database, and the
    start-up that restores one from the other and re-marks the idle points. */
module Robots {
  import opened IdlePoints

  datatype Base = Base(
    robotId: string, instanceId: string, warehouseId: string, mapVersion: string, timestamp: int, initialPose: Pose)
  datatype RunState = OFFLINE | INITIALIZING | IDLE | WORKING | CHARGING | PAUSED | ERROR
  datatype RunStatus = RunStatus(
    robotId: string, state: RunState, online: bool, timestamp: int, battery: real, pose: Pose, taskId: string)
  datatype Entity = Entity(base: Base, status: RunStatus)
  datatype Listed = Listed(robotId: string, instanceId: string, pose: Pose)

  datatype RobotRow = RobotRow(warehouseId: string, timestamp: int, initialPose: Pose)
  datatype InstanceRow = InstanceRow(robotId: string, instanceId: string, modelName: string)
  datatype StatusCells = StatusCells(state: RunState, online: bool, battery: real, pose: Pose, taskId: string)

  datatype RobotTables = RobotTables(
    robots: map<string, RobotRow>, instances: seq<InstanceRow>, statuses: map<string, StatusCells>)

  const NO_ROBOTS := RobotTables(map[], [], map[])

  // ---- The database rows ---------------------------------------------------

  predicate HasInstance(rows: seq<InstanceRow>, robotId: string, instanceId: string) {
    exists i :: 0 <= i < |rows| && rows[i].robotId == robotId && rows[i].instanceId == instanceId
  }

  // The instance of a robot's latest row, or the empty default.
  function LastInstance(rows: seq<InstanceRow>, robotId: string): string {
    if rows == [] then ""
    else if rows[|rows| - 1].robotId == robotId then rows[|rows| - 1].instanceId
    else LastInstance(rows[..|rows| - 1], robotId)
  }

  function ModelName(robotId: string, instanceId: string): string { "amr_" + robotId + "_" + instanceId }

  function Upsert(db: RobotTables, base: Base, status: RunStatus): RobotTables {
    var id := base.robotId;
    RobotTables(
      db.robots[id := RobotRow(base.warehouseId, base.timestamp, base.initialPose)],
      if base.instanceId == "" || HasInstance(db.instances, id, base.instanceId) then db.instances
      else db.instances + [InstanceRow(id, base.instanceId, ModelName(id, base.instanceId))],
      db.statuses[id := StatusCells(status.state, status.online, status.battery, status.pose, status.taskId)])
  }

  // What LoadRobots reads back for one robot.
  function LoadedBase(db: RobotTables, id: string): Base
    requires id in db.robots
  {
    var row := db.robots[id];
    Base(id, LastInstance(db.instances, id), row.warehouseId, "", row.timestamp, row.initialPose)
  }

  function LoadedStatus(db: RobotTables, id: string): RunStatus {
    if id in db.statuses
    then RunStatus(id, OFFLINE, false, 0, db.statuses[id].battery, db.statuses[id].pose, db.statuses[id].taskId)
    else RunStatus(id, OFFLINE, false, 0, 0.0, ORIGIN, "")
  }

  // `ids` lists every stored robot exactly once, in some order.
  predicate ListsRobots(db: RobotTables, ids: seq<string>) {
    && (forall i | 0 <= i < |ids| :: ids[i] in db.robots)
    && (forall id | id in db.robots :: id in ids)
    && (forall i, j | 0 <= i < j < |ids| :: ids[i] != ids[j])
  }

  // ---- The Edge, as far as robots are concerned ----------------------------

  // `obtained` are the robots whose registration got one of the current points.
  datatype Edge = Edge(
    points: seq<Pose>, occupied: seq<bool>, robots: map<string, Entity>, db: RobotTables, obtained: set<string>)

  function Register(e: Edge, robot: Base, instance: string, now: int): Edge
    requires |e.points| == |e.occupied|
  {
    var id := robot.robotId;
    if id == "" then e
    else if id in e.robots then
      var known := e.robots[id];
      e.(robots := e.robots[id := known.(base :=
        robot.(instanceId := known.base.instanceId, initialPose := known.base.initialPose))])
    else
      var i := FirstFree(e.occupied);
      var pose := if i < |e.points| then e.points[i] else ORIGIN;
      e.(robots := e.robots[id := Entity(robot.(instanceId := instance, initialPose := pose),
                                         RunStatus("", INITIALIZING, true, now, 0.0, pose, ""))],
      occupied := if i < |e.points| then e.occupied[i := true] else e.occupied,
      obtained := if i < |e.points| then e.obtained + {id} else e.obtained)
  }

  function Persist(e: Edge, id: string): Edge {
    if id !in e.robots then e else e.(db := Upsert(e.db, e.robots[id].base, e.robots[id].status))
  }

  function SetStatus(e: Edge, id: string, status: RunStatus): Edge {
    if id !in e.robots then e else e.(robots := e.robots[id := e.robots[id].(status := status)])
  }

  function GoOffline(e: Edge, id: string, now: int): Edge {
    if id !in e.robots then e
    else SetStatus(e, id, e.robots[id].status.(online := false, state := OFFLINE, timestamp := now))
  }

  // A new active map: its points, all of them free.
  function LoadMap(e: Edge, points: seq<Pose>): Edge {
    e.(points := points, occupied := AllFree(|points|), obtained := {})
  }

  function RestoredEntity(db: RobotTables, id: string): Entity
    requires id in db.robots
  {
    Entity(LoadedBase(db, id), LoadedStatus(db, id))
  }

  function MarkAll(points: seq<Pose>, occupied: seq<bool>, db: RobotTables, ids: seq<string>): (r: seq<bool>)
    requires |points| == |occupied| && forall i | 0 <= i < |ids| :: ids[i] in db.robots
    ensures |r| == |points|
  {
    if ids == [] then occupied
    else
      var n := |ids| - 1;
      Marked(points, MarkAll(points, occupied, db, ids[..n]), db.robots[ids[n]].initialPose)
  }

  // The process starts again on its database and the given active map.
  function Restart(e: Edge, points: seq<Pose>, ids: seq<string>): Edge
    requires ListsRobots(e.db, ids)
  {
    Edge(points, MarkAll(points, AllFree(|points|), e.db, ids),
         map id | id in e.db.robots && id != "" :: RestoredEntity(e.db, id), e.db,
         if points == e.points then e.obtained * e.db.robots.Keys else {})
  }

  datatype Event =
    | Registers(robot: Base, instance: string, now: int)
    | Persists(id: string)
    | Reports(id: string, status: RunStatus)
    | Dies(id: string, now: int)
    | NewMap(points: seq<Pose>)
    | Restarts(points: seq<Pose>, ids: seq<string>)

  function Next(e: Edge, v: Event): (n: Edge)
    requires |e.points| == |e.occupied|
    ensures |n.points| == |n.occupied|
  {
    match v
    case Registers(robot, instance, now) => Register(e, robot, instance, now)
    case Persists(id) => Persist(e, id)
    case Reports(id, status) => SetStatus(e, id, status)
    case Dies(id, now) => GoOffline(e, id, now)
    case NewMap(points) => LoadMap(e, points)
    case Restarts(points, ids) => if ListsRobots(e.db, ids) then Restart(e, points, ids) else e
  }

  function Run(e: Edge, events: seq<Event>): (n: Edge)
    requires |e.points| == |e.occupied|
    ensures |n.points| == |n.occupied|
    decreases |events|
  {
    if events == [] then e else Run(Next(e, events[0]), events[1..])
  }

  const START := Edge([], [], map[], NO_ROBOTS, {})

  // ---- Identity ----------------------------------------------------------------

  ghost predicate IdentityInv(e: Edge) {
    && |e.points| == |e.occupied|
    && (forall id | id in e.robots :: id != "" && e.robots[id].base.robotId == id)
    && (forall id | id in e.db.robots ::
          && id in e.robots
          && e.robots[id].base.instanceId == LastInstance(e.db.instances, id)
          && e.robots[id].base.initialPose == e.db.robots[id].initialPose)
    && (forall i | 0 <= i < |e.db.instances| :: e.db.instances[i].robotId in e.db.robots)
  }

  lemma {:induction false} LastInstanceExists(rows: seq<InstanceRow>, id: string)
    ensures LastInstance(rows, id) != "" ==> HasInstance(rows, id, LastInstance(rows, id))
    ensures (forall i | 0 <= i < |rows| :: rows[i].robotId != id) ==> LastInstance(rows, id) == ""
  {
    if rows != [] {
      var n := |rows| - 1;
      LastInstanceExists(rows[..n], id);
      if rows[n].robotId != id && LastInstance(rows, id) != "" {
        var i :| 0 <= i < n && rows[..n][i].robotId == id && rows[..n][i].instanceId == LastInstance(rows, id);
        assert rows[i].robotId == id;
      }
    }
  }

  lemma PersistKeepsIdentity(e: Edge, id: string)
    requires IdentityInv(e) && id in e.robots
    ensures IdentityInv(Persist(e, id))
  {
    var n := Persist(e, id);
    var instance := e.robots[id].base.instanceId;
    LastInstanceExists(e.db.instances, id);
    assert id !in e.db.robots ==> !HasInstance(e.db.instances, id, instance);
    if instance != "" && !HasInstance(e.db.instances, id, instance) {
      assert n.db.instances[..|e.db.instances|] == e.db.instances;
    }
    forall other | other in n.db.robots
      ensures n.robots[other].base.instanceId == LastInstance(n.db.instances, other)
    {
    }
  }

  /** Reading a robot back from the database gives what was stored of it, all
      but the map version, and finds it offline. */
  lemma PersistedRobotIsRestored(e: Edge, id: string)
    requires IdentityInv(e) && id in e.robots
    ensures id in Persist(e, id).db.robots
    ensures var was := e.robots[id];
      RestoredEntity(Persist(e, id).db, id) == Entity(
        was.base.(mapVersion := ""),
        RunStatus(id, OFFLINE, false, 0, was.status.battery, was.status.pose, was.status.taskId))
  {
    PersistKeepsIdentity(e, id);
  }

  /** One event keeps a robot's id, instance and initial pose, except that a restart
      forgets the robots that were registered but not yet persisted. */
  lemma IdentityKeptExactly(e: Edge, v: Event, id: string)
    requires IdentityInv(e) && id in e.robots
    ensures IdentityInv(Next(e, v))
    ensures id !in Next(e, v).robots <==> v.Restarts? && ListsRobots(e.db, v.ids) && id !in e.db.robots
    ensures id in Next(e, v).robots ==> var was, now := e.robots[id].base, Next(e, v).robots[id].base;
      now.robotId == was.robotId == id && now.instanceId == was.instanceId && now.initialPose == was.initialPose
    ensures id in e.db.robots ==> id in Next(e, v).db.robots
  {
    EventKeepsIdentity(e, v);
  }

  lemma EventKeepsIdentity(e: Edge, v: Event)
    requires IdentityInv(e)
    ensures IdentityInv(Next(e, v))
  {
    if v.Persists? && v.id in e.robots {
      PersistKeepsIdentity(e, v.id);
    }
  }

  /** A robot's instance and initial pose never change once its registration was
      persisted, in any run of re-registrations, status reports, wills, map
      changes and restarts. */
  lemma {:induction false} IdentityNeverChanges(e: Edge, events: seq<Event>, id: string)
    requires IdentityInv(e) && id in e.db.robots
    ensures id in Run(e, events).robots
    ensures var was, now := e.robots[id].base, Run(e, events).robots[id].base;
      now.robotId == was.robotId == id && now.instanceId == was.instanceId && now.initialPose == was.initialPose
    decreases |events|
  {
    if events != [] {
      IdentityKeptExactly(e, events[0], id);
      IdentityNeverChanges(Next(e, events[0]), events[1..], id);
    }
  }

  // handleRegister: register, then persist what was registered.
  function HandleRegisterSpec(e: Edge, robot: Base, instance: string, now: int): (n: Edge)
    requires |e.points| == |e.occupied|
    ensures |n.points| == |n.occupied|
  {
    if robot.robotId == "" then e else Persist(Register(e, robot, instance, now), robot.robotId)
  }

  // What a robot's registration gives it: a newcomer the instance made then and
  // the first free point, or the origin when none is free, a known robot what it had.
  ghost predicate Given(e: Edge, id: string, instance: string, base: Base)
    requires |e.points| == |e.occupied|
  {
    && base.robotId == id
    && (id in e.robots ==>
          base.instanceId == e.robots[id].base.instanceId && base.initialPose == e.robots[id].base.initialPose)
    && (id !in e.robots ==>
          && base.instanceId == instance
          && (forall i | 0 <= i < |e.points| && !e.occupied[i] && (forall j | 0 <= j < i :: e.occupied[j]) ::
                base.initialPose == e.points[i])
          && ((forall i | 0 <= i < |e.points| :: e.occupied[i]) ==> base.initialPose == Pose(0.0, 0.0, 0.0)))
  }

  lemma RegisteredIsGiven(e: Edge, robot: Base, instance: string, now: int)
    requires |e.points| == |e.occupied| && robot.robotId != ""
    ensures robot.robotId in Register(e, robot, instance, now).robots
    ensures Given(e, robot.robotId, instance, Register(e, robot, instance, now).robots[robot.robotId].base)
  {
  }

  /** Whatever happened before, the instance and the point a completed
      registration gave a robot are its own in every later state. */
  lemma RegistrationFixesIdentity(before: seq<Event>, robot: Base, instance: string, now: int, after: seq<Event>)
    requires robot.robotId != ""
    ensures var b := Run(START, before);
      var e := Run(HandleRegisterSpec(b, robot, instance, now), after);
      robot.robotId in e.robots && Given(b, robot.robotId, instance, e.robots[robot.robotId].base)
  {
    var b := Run(START, before);
    RegisteredIsGiven(b, robot, instance, now);
    RunKeepsIdentity(START, before);
    EventKeepsIdentity(b, Registers(robot, instance, now));
    var r := Register(b, robot, instance, now);
    EventKeepsIdentity(r, Persists(robot.robotId));
    IdentityNeverChanges(Persist(r, robot.robotId), after, robot.robotId);
  }

  lemma {:induction false} RunKeepsIdentity(e: Edge, events: seq<Event>)
    requires IdentityInv(e)
    ensures IdentityInv(Run(e, events))
    decreases |events|
  {
    if events != [] {
      EventKeepsIdentity(e, events[0]);
      RunKeepsIdentity(Next(e, events[0]), events[1..]);
    }
  }
}
