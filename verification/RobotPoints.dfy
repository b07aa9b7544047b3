/** Which robot stands at which idle point, over registrations, map changes and
    restarts. */
module RobotPoints {
  import opened IdlePoints
  import opened Robots

  ghost predicate StandsAt(e: Edge, id: string, i: int) {
    id in e.robots && 0 <= i < |e.points| && e.robots[id].base.initialPose == e.points[i]
  }

  ghost predicate StoodAt(e: Edge, i: int) { exists id :: StandsAt(e, id, i) }

  // The point a robot obtained from the current map is still marked for it.
  ghost predicate Holds(e: Edge, id: string, i: int) {
    StandsAt(e, id, i) && i < |e.occupied| && e.occupied[i]
  }

  // Whatever point a known robot stands at is marked.
  ghost predicate Accounted(e: Edge) {
    |e.points| == |e.occupied| && forall id, i | StandsAt(e, id, i) :: e.occupied[i]
  }

  // A marked point has a known robot at it.
  ghost predicate Taken(e: Edge, i: int) {
    0 <= i < |e.points| && exists id :: id in e.robots && Near(e.points[i], e.robots[id].base.initialPose)
  }

  ghost predicate PointInv(e: Edge) {
    && IdentityInv(e) && Separated(e.points)
    && (forall id | id in e.obtained :: exists i :: Holds(e, id, i))
    && (forall a, b, i | a in e.obtained && b in e.obtained && Holds(e, a, i) && Holds(e, b, i) :: a == b)
    && (forall i | 0 <= i < |e.points| && e.occupied[i] :: Taken(e, i))
  }

  // Every map that is loaded has its points far enough apart.
  predicate SeparatedMap(v: Event) {
    match v
    case NewMap(points) => Separated(points)
    case Restarts(points, _) => Separated(points)
    case _ => true
  }

  lemma PointsDiffer(e: Edge, i: int, j: int)
    requires Separated(e.points) && 0 <= i < |e.points| && 0 <= j < |e.points| && e.points[i] == e.points[j]
    ensures i == j
  {
    assert Near(e.points[i], e.points[j]) && Near(e.points[j], e.points[i]);
  }

  // ---- Registration --------------------------------------------------------------

  lemma RegisterKeepsPoints(e: Edge, robot: Base, instance: string, now: int)
    requires PointInv(e)
    ensures PointInv(Register(e, robot, instance, now))
  {
    EventKeepsIdentity(e, Registers(robot, instance, now));
    var n := Register(e, robot, instance, now);
    var f := FirstFree(e.occupied);
    forall id, i | id in e.robots && 0 <= i < |e.points|
      ensures StandsAt(n, id, i) == StandsAt(e, id, i)
    {
    }
    forall id | id in n.obtained
      ensures exists i :: Holds(n, id, i)
    {
      if id in e.obtained {
        var i :| Holds(e, id, i);
        assert Holds(n, id, i);
      } else {
        assert Holds(n, id, f);
      }
    }
    forall a, b, i | a in n.obtained && b in n.obtained && Holds(n, a, i) && Holds(n, b, i)
      ensures a == b
    {
      NewcomerIsAlone(e, robot, instance, now, a, i);
      NewcomerIsAlone(e, robot, instance, now, b, i);
    }
    forall i | 0 <= i < |n.points| && n.occupied[i]
      ensures Taken(n, i)
    {
      if e.occupied[i] {
        assert Taken(e, i);
        var id :| id in e.robots && Near(e.points[i], e.robots[id].base.initialPose);
        assert id in n.robots && Near(n.points[i], n.robots[id].base.initialPose);
      } else {
        assert Near(n.points[i], n.robots[robot.robotId].base.initialPose);
      }
    }
  }

  // An older holder's point was already marked; a newcomer's was free.
  lemma NewcomerIsAlone(e: Edge, robot: Base, instance: string, now: int, id: string, i: int)
    requires PointInv(e) && id in Register(e, robot, instance, now).obtained
    requires Holds(Register(e, robot, instance, now), id, i)
    ensures if id in e.obtained then Holds(e, id, i) else id == robot.robotId && !e.occupied[i]
  {
    if id in e.obtained {
      var j :| Holds(e, id, j);
      PointsDiffer(e, i, j);
    } else {
      PointsDiffer(e, i, FirstFree(e.occupied));
    }
  }

  /** A first registration obtains a point unless every point has a known robot
      at it; then, and only then, the robot starts at the origin instead. */
  lemma AllocationFailsOnlyWhenFull(e: Edge, robot: Base, instance: string, now: int)
    requires PointInv(e) && robot.robotId != "" && robot.robotId !in e.robots
    ensures var n := Register(e, robot, instance, now);
      && (robot.robotId in n.obtained && robot.robotId !in e.obtained ==>
            exists i :: Holds(n, robot.robotId, i) && !e.occupied[i])
      && (robot.robotId !in n.obtained ==>
            && n.robots[robot.robotId].base.initialPose == ORIGIN
            && forall i | 0 <= i < |e.points| :: Taken(e, i))
    ensures robot.robotId !in e.obtained
    ensures Accounted(e) && (forall i | 0 <= i < |e.points| :: StoodAt(e, i))
      ==> robot.robotId !in Register(e, robot, instance, now).obtained
  {
    var f := FirstFree(e.occupied);
    var n := Register(e, robot, instance, now);
    assert !exists i :: Holds(e, robot.robotId, i);
    if f < |e.points| {
      assert Holds(n, robot.robotId, f);
      if Accounted(e) {
        assert !StoodAt(e, f);
      }
    }
  }

  /** Once every known robot's point is marked, a new robot's point is nobody
      else's, whether the others registered here or were restored. */
  lemma NewPointIsNobodysExactly(e: Edge, robot: Base, instance: string, now: int, other: string)
    requires PointInv(e) && robot.robotId != "" && robot.robotId !in e.robots && other in e.robots
    requires robot.robotId in Register(e, robot, instance, now).obtained
    ensures var n := Register(e, robot, instance, now);
      n.robots[robot.robotId].base.initialPose == n.robots[other].base.initialPose
      <==> StandsAt(e, other, FirstFree(e.occupied))
    ensures Accounted(e) ==> Register(e, robot, instance, now).robots[robot.robotId].base.initialPose
                             != e.robots[other].base.initialPose
  {
    AllocationFailsOnlyWhenFull(e, robot, instance, now);
    assert FirstFree(e.occupied) < |e.points|;
  }

  // ---- Restart ---------------------------------------------------------------------

  lemma {:induction false} MarkAllExactly(
    points: seq<Pose>, occupied: seq<bool>, db: RobotTables, ids: seq<string>, i: int)
    requires |points| == |occupied| && Separated(points) && 0 <= i < |points|
    requires forall k | 0 <= k < |ids| :: ids[k] in db.robots
    ensures occupied[i] ==> MarkAll(points, occupied, db, ids)[i]
    ensures (exists k :: 0 <= k < |ids| && db.robots[ids[k]].initialPose == points[i])
      ==> MarkAll(points, occupied, db, ids)[i]
    ensures MarkAll(points, occupied, db, ids)[i]
      ==> occupied[i] || exists k :: 0 <= k < |ids| && Near(points[i], db.robots[ids[k]].initialPose)
  {
    if ids != [] {
      var n := |ids| - 1;
      hide Near, FirstNear, Separated;
      var before := MarkAll(points, occupied, db, ids[..n]);
      var pose := db.robots[ids[n]].initialPose;
      MarkAllExactly(points, occupied, db, ids[..n], i);
      if points[i] == pose {
        MarkFindsThePoint(points, before, i);
      }
      if exists k :: 0 <= k < |ids| && db.robots[ids[k]].initialPose == points[i] {
        var k :| 0 <= k < |ids| && db.robots[ids[k]].initialPose == points[i];
        assert k < n ==> ids[..n][k] == ids[k];
      }
      if before[i] && !occupied[i] {
        var k :| 0 <= k < n && Near(points[i], db.robots[ids[..n][k]].initialPose);
        assert Near(points[i], db.robots[ids[k]].initialPose);
      }
    }
  }

  lemma RestartMarks(e: Edge, points: seq<Pose>, ids: seq<string>, i: int)
    requires IdentityInv(e) && ListsRobots(e.db, ids) && Separated(points) && 0 <= i < |points|
    ensures var n := Restart(e, points, ids);
      && (forall id | StandsAt(n, id, i) :: n.occupied[i])
      && (n.occupied[i] ==> Taken(n, i))
  {
    var n := Restart(e, points, ids);
    MarkAllExactly(points, AllFree(|points|), e.db, ids, i);
    forall id | StandsAt(n, id, i)
      ensures n.occupied[i]
    {
      assert id in ids;
    }
    if n.occupied[i] {
      var k :| 0 <= k < |ids| && Near(points[i], e.db.robots[ids[k]].initialPose);
      assert ids[k] in n.robots;
    }
  }

  /** After the start-up sequence every restored robot's point is marked. */
  lemma RestartKeepsPoints(e: Edge, points: seq<Pose>, ids: seq<string>)
    requires PointInv(e) && ListsRobots(e.db, ids) && Separated(points)
    ensures PointInv(Restart(e, points, ids)) && Accounted(Restart(e, points, ids))
  {
    var n := Restart(e, points, ids);
    EventKeepsIdentity(e, Restarts(points, ids));
    forall i | 0 <= i < |points|
      ensures (forall id | StandsAt(n, id, i) :: n.occupied[i]) && (n.occupied[i] ==> Taken(n, i))
    {
      RestartMarks(e, points, ids, i);
    }
    forall id | id in n.obtained
      ensures exists i :: Holds(n, id, i)
    {
      var i :| Holds(e, id, i);
      assert StandsAt(n, id, i);
      assert Holds(n, id, i);
    }
    forall a, b, i | a in n.obtained && b in n.obtained && Holds(n, a, i) && Holds(n, b, i)
      ensures a == b
    {
      var j, k :| Holds(e, a, j) && Holds(e, b, k);
      PointsDiffer(e, i, j);
      PointsDiffer(e, i, k);
    }
  }

  // ---- Runs ------------------------------------------------------------------------

  lemma OtherKeepsPoints(e: Edge, v: Event)
    requires PointInv(e) && (v.Persists? || v.Reports? || v.Dies? || v.NewMap?) && SeparatedMap(v)
    ensures PointInv(Next(e, v))
  {
    hide Near, Separated;
    EventKeepsIdentity(e, v);
    var n := Next(e, v);
    if !v.NewMap? {
      forall id, i
        ensures StandsAt(n, id, i) == StandsAt(e, id, i)
      {
      }
      forall id | id in n.obtained
        ensures exists i :: Holds(n, id, i)
      {
        var i :| Holds(e, id, i);
        assert Holds(n, id, i);
      }
      forall a, b, i | a in n.obtained && b in n.obtained && Holds(n, a, i) && Holds(n, b, i)
        ensures a == b
      {
        assert Holds(e, a, i) && Holds(e, b, i);
      }
      forall i | 0 <= i < |n.points| && n.occupied[i]
        ensures Taken(n, i)
      {
        assert Taken(e, i);
        var id :| id in e.robots && Near(e.points[i], e.robots[id].base.initialPose);
        assert id in n.robots && Near(n.points[i], n.robots[id].base.initialPose);
      }
    }
  }

  lemma EventKeepsPoints(e: Edge, v: Event)
    requires PointInv(e) && SeparatedMap(v)
    ensures PointInv(Next(e, v))
  {
    match v
    case Registers(robot, instance, now) => RegisterKeepsPoints(e, robot, instance, now);
    case Restarts(points, ids) =>
      if ListsRobots(e.db, ids) {
        RestartKeepsPoints(e, points, ids);
      }
    case _ => OtherKeepsPoints(e, v);
  }

  /** In every run, through restarts and map changes, two robots that obtained
      one of the current map's points never stand at the same one. */
  lemma {:induction false} PointsAreNeverShared(e: Edge, events: seq<Event>)
    requires PointInv(e) && forall k | 0 <= k < |events| :: SeparatedMap(events[k])
    ensures PointInv(Run(e, events))
    ensures var n := Run(e, events);
      forall a, b | a in n.obtained && b in n.obtained && a != b ::
        a in n.robots && b in n.robots && n.robots[a].base.initialPose != n.robots[b].base.initialPose
    decreases |events|
  {
    if events == [] {
      forall a, b | a in e.obtained && b in e.obtained && a != b
        ensures a in e.robots && b in e.robots && e.robots[a].base.initialPose != e.robots[b].base.initialPose
      {
        var i, j :| Holds(e, a, i) && Holds(e, b, j);
        assert Holds(e, b, i) ==> a == b;
      }
    } else {
      EventKeepsPoints(e, events[0]);
      PointsAreNeverShared(Next(e, events[0]), events[1..]);
    }
  }

  lemma StartHasPointInv()
    ensures PointInv(START)
  {
  }

  /** Every event but a map change keeps the known robots' points marked; a map
      change keeps them marked exactly when no known robot stands at a point of
      the new map. */
  lemma AccountedExactly(e: Edge, v: Event)
    requires PointInv(e) && Accounted(e) && SeparatedMap(v)
    ensures Accounted(Next(e, v))
      <==> (v.NewMap? ==> forall id, i :: !StandsAt(LoadMap(e, v.points), id, i))
  {
    var n := Next(e, v);
    match v {
      case Registers(robot, instance, now) =>
        forall id, i | StandsAt(n, id, i)
          ensures n.occupied[i]
        {
          if id in e.robots {
            assert StandsAt(e, id, i);
          } else if FirstFree(e.occupied) < |e.points| {
            PointsDiffer(e, i, FirstFree(e.occupied));
          }
        }
      case NewMap(points) =>
        assert n == LoadMap(e, points);
      case Restarts(points, ids) =>
        if ListsRobots(e.db, ids) {
          RestartKeepsPoints(e, points, ids);
        }
      case _ =>
        forall id, i | StandsAt(n, id, i)
          ensures n.occupied[i]
        {
          assert StandsAt(e, id, i);
        }
    }
  }

  lemma {:induction false} AccountedUntilMapChange(e: Edge, events: seq<Event>)
    requires PointInv(e) && Accounted(e)
    requires forall k | 0 <= k < |events| :: SeparatedMap(events[k]) && !events[k].NewMap?
    ensures PointInv(Run(e, events)) && Accounted(Run(e, events))
    decreases |events|
  {
    if events != [] {
      EventKeepsPoints(e, events[0]);
      AccountedExactly(e, events[0]);
      AccountedUntilMapChange(Next(e, events[0]), events[1..]);
    }
  }

  /** From a start-up until the next map change, whatever else happens, the
      point a new robot obtains is held by no robot the Edge knows. */
  lemma StartUpSharesNothing(
    before: seq<Event>, points: seq<Pose>, ids: seq<string>, since: seq<Event>,
    robot: Base, instance: string, now: int, other: string)
    requires forall k | 0 <= k < |before| :: SeparatedMap(before[k])
    requires ListsRobots(Run(START, before).db, ids) && Separated(points)
    requires forall k | 0 <= k < |since| :: SeparatedMap(since[k]) && !since[k].NewMap?
    ensures var e := Run(Restart(Run(START, before), points, ids), since);
      && |e.points| == |e.occupied|
      && (robot.robotId != "" && robot.robotId !in e.robots && other in e.robots ==>
            var n := Register(e, robot, instance, now);
            robot.robotId in n.obtained ==>
              n.robots[robot.robotId].base.initialPose != n.robots[other].base.initialPose)
  {
    StartHasPointInv();
    PointsAreNeverShared(START, before);
    var b := Run(START, before);
    RestartKeepsPoints(b, points, ids);
    AccountedUntilMapChange(Restart(b, points, ids), since);
    var e := Run(Restart(b, points, ids), since);
    if robot.robotId != "" && robot.robotId !in e.robots && other in e.robots
       && robot.robotId in Register(e, robot, instance, now).obtained {
      NewPointIsNobodysExactly(e, robot, instance, now, other);
    }
  }

  /** A map change forgets who stands where: the next new robot is given the
      first point even when a known robot already stands there. */
  lemma ReloadForgetsOccupancy(e: Edge, points: seq<Pose>, robot: Base, instance: string, now: int, other: string)
    requires PointInv(e) && Separated(points) && points != []
    requires robot.robotId != "" && robot.robotId !in e.robots
    requires other in e.robots && e.robots[other].base.initialPose == points[0]
    ensures var n := Register(LoadMap(e, points), robot, instance, now);
      n.robots[robot.robotId].base.initialPose == n.robots[other].base.initialPose
  {
    var n := LoadMap(e, points);
    assert FirstFree(n.occupied) == 0;
  }
}
