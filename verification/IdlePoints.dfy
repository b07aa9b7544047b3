/** The allocator of idle (charging) points: first free point first. */
module IdlePoints {
  import opened Tables

  datatype Pose = Pose(x: real, y: real, yaw: real)

  const ORIGIN := Pose(0.0, 0.0, 0.0)
  const EPSILON := 0.000001

  // The stations file: only locations of type IDLE become points.
  datatype Location = Location(id: string, kind: string, pose: Pose)
  datatype Station = Station(id: string, locations: seq<Location>)

  function Abs(r: real): real { if r < 0.0 then -r else r }

  predicate Near(p: Pose, q: Pose): (near: bool)
    ensures near <==>
            -0.000001 < p.x - q.x < 0.000001 && -0.000001 < p.y - q.y < 0.000001 && -0.000001 < p.yaw - q.yaw < 0.000001
  {
    Abs(p.x - q.x) < EPSILON && Abs(p.y - q.y) < EPSILON && Abs(p.yaw - q.yaw) < EPSILON
  }

  // Any two points are at least EPSILON apart in some coordinate.
  predicate Separated(points: seq<Pose>) {
    forall i, j | 0 <= i < j < |points| :: !Near(points[i], points[j])
  }

  // The first free point, or the number of points when there is none.
  function FirstFree(occupied: seq<bool>): (i: nat)
    ensures i <= |occupied| && (i < |occupied| ==> !occupied[i])
    ensures forall j | 0 <= j < i :: occupied[j]
  {
    if occupied == [] then 0
    else if !occupied[0] then 0
    else
      assert forall j | 1 <= j < |occupied| :: occupied[j] == occupied[1..][j - 1];
      1 + FirstFree(occupied[1..])
  }

  function FirstNear(points: seq<Pose>, pose: Pose): (i: nat)
    ensures i <= |points| && (i < |points| ==> Near(points[i], pose))
    ensures forall j | 0 <= j < i :: !Near(points[j], pose)
  {
    if points == [] then 0
    else if Near(points[0], pose) then 0
    else
      assert forall j | 1 <= j < |points| :: points[j] == points[1..][j - 1];
      1 + FirstNear(points[1..], pose)
  }

  function Marked(points: seq<Pose>, occupied: seq<bool>, pose: Pose): seq<bool>
    requires |points| == |occupied|
  {
    var i := FirstNear(points, pose);
    if i < |points| then occupied[i := true] else occupied
  }

  function IdleOf(locations: seq<Location>): seq<Pose> {
    if locations == [] then []
    else IdleOf(locations[..|locations| - 1])
         + (if locations[|locations| - 1].kind == "IDLE" then [locations[|locations| - 1].pose] else [])
  }

  function IdlePoses(stations: seq<Station>): seq<Pose> {
    if stations == [] then []
    else IdlePoses(stations[..|stations| - 1]) + IdleOf(stations[|stations| - 1].locations)
  }

  lemma {:induction false} IdleOfExactly(locations: seq<Location>, pose: Pose)
    ensures pose in IdleOf(locations)
      <==> exists l :: 0 <= l < |locations| && locations[l].kind == "IDLE" && locations[l].pose == pose
  {
    if locations != [] {
      var n := |locations| - 1;
      IdleOfExactly(locations[..n], pose);
      assert forall l | 0 <= l < n :: locations[..n][l] == locations[l];
    }
  }

  predicate HasIdle(station: Station, pose: Pose) {
    exists l :: 0 <= l < |station.locations| && station.locations[l].kind == "IDLE" && station.locations[l].pose == pose
  }

  /** The points of a map are exactly the poses of its IDLE locations. */
  lemma {:induction false} IdlePosesExactly(stations: seq<Station>, pose: Pose)
    ensures pose in IdlePoses(stations) <==> exists s :: 0 <= s < |stations| && HasIdle(stations[s], pose)
  {
    if stations != [] {
      var n := |stations| - 1;
      IdlePosesExactly(stations[..n], pose);
      IdleOfExactly(stations[n].locations, pose);
      assert HasIdle(stations[n], pose) <==> pose in IdleOf(stations[n].locations);
      hide HasIdle, IdleOf;
      assert forall s | 0 <= s < n :: stations[..n][s] == stations[s];
    }
  }

  lemma {:induction false} IdleOfAppend(a: seq<Location>, b: seq<Location>)
    ensures IdleOf(a + b) == IdleOf(a) + IdleOf(b)
  {
    if b == [] {
      assert a + b == a;
    } else {
      var n := |b| - 1;
      assert (a + b)[..|a| + n] == a + b[..n];
      IdleOfAppend(a, b[..n]);
    }
  }

  /** The points keep the order of the file: by station, and by location in it. */
  lemma {:induction false} IdlePosesInOrder(a: seq<Station>, b: seq<Station>)
    ensures IdlePoses(a + b) == IdlePoses(a) + IdlePoses(b)
    ensures forall id, l, m: seq<Location> ::
      IdlePoses([Station(id, l + m)]) == IdlePoses([Station(id, l)]) + IdlePoses([Station(id, m)])
  {
    forall id, l, m: seq<Location>
      ensures IdlePoses([Station(id, l + m)]) == IdlePoses([Station(id, l)]) + IdlePoses([Station(id, m)])
    {
      IdleOfAppend(l, m);
    }
    if b == [] {
      assert a + b == a;
    } else {
      var n := |b| - 1;
      assert (a + b)[..|a| + n] == a + b[..n];
      IdlePosesInOrder(a, b[..n]);
    }
  }

  function AllFree(n: nat): seq<bool> { seq(n, _ => false) }

  /** Marking the exact pose of a point marks that point and no other. */
  lemma MarkFindsThePoint(points: seq<Pose>, occupied: seq<bool>, i: nat)
    requires |points| == |occupied| && Separated(points) && i < |points|
    ensures Marked(points, occupied, points[i]) == occupied[i := true]
  {
    var j := FirstNear(points, points[i]);
    assert Near(points[i], points[i]);
    assert j == i;
  }

  // The first free point is taken, or none when all are occupied.
  ghost predicate Takes(points: seq<Pose>, was: seq<bool>, pose: Option<Pose>, now: seq<bool>)
    requires |points| == |was|
  {
    && (pose.None? ==> now == was && forall i | 0 <= i < |was| :: was[i])
    && (pose.Some? ==> exists i :: 0 <= i < |was| && !was[i] && (forall j | 0 <= j < i :: was[j])
                                   && pose.value == points[i] && now == was[i := true])
  }

  class IdlePointAllocator {
    var points: seq<Pose>
    var occupied: seq<bool>

    ghost predicate Valid()
      reads this
    {
      |points| == |occupied|
    }

    constructor ()
      ensures Valid() && points == [] && occupied == []
    {
      points, occupied := [], [];
    }

    // `stations` is the parsed stations file, or none when the package has none.
    method Load(stations: Option<seq<Station>>) returns (ok: bool)
      modifies this
      ensures Valid() && ok == stations.Some?
      ensures points == if stations.Some? then IdlePoses(stations.value) else []
      ensures occupied == AllFree(|points|) && forall i | 0 <= i < |points| :: !occupied[i]
    {
      points, occupied := [], [];
      if stations.None? {
        return false;
      }
      var all := stations.value;
      for s := 0 to |all|
        invariant points == IdlePoses(all[..s])
        invariant occupied == AllFree(|points|)
      {
        assert all[..s + 1][..s] == all[..s];
        var locations := all[s].locations;
        for l := 0 to |locations|
          invariant points == IdlePoses(all[..s]) + IdleOf(locations[..l])
          invariant occupied == AllFree(|points|)
        {
          assert locations[..l + 1][..l] == locations[..l];
          if locations[l].kind == "IDLE" {
            points := points + [locations[l].pose];
            occupied := occupied + [false];
          }
        }
        assert locations[..|locations|] == locations;
      }
      assert all[..|all|] == all;
      return true;
    }

    method Allocate() returns (pose: Option<Pose>)
      requires Valid()
      modifies this`occupied
      ensures Valid()
      ensures var i := FirstFree(old(occupied));
        if i < |points| then pose == Some(points[i]) && occupied == old(occupied)[i := true]
        else pose == None && occupied == old(occupied)
      ensures Takes(points, old(occupied), pose, occupied)
    {
      for i := 0 to |points|
        invariant forall j | 0 <= j < i :: occupied[j]
        invariant occupied == old(occupied)
      {
        if !occupied[i] {
          assert FirstFree(occupied) == i;
          occupied := occupied[i := true];
          return Some(points[i]);
        }
      }
      return None;
    }

    method MarkOccupied(pose: Pose)
      requires Valid()
      modifies this`occupied
      ensures Valid() && occupied == Marked(points, old(occupied), pose)
      ensures if exists i :: 0 <= i < |points| && Near(points[i], pose)
              then exists i :: 0 <= i < |points| && Near(points[i], pose)
                               && (forall j | 0 <= j < i :: !Near(points[j], pose))
                               && occupied == old(occupied)[i := true]
              else occupied == old(occupied)
    {
      for i := 0 to |points|
        invariant forall j | 0 <= j < i :: !Near(points[j], pose)
        invariant occupied == old(occupied)
      {
        if Near(points[i], pose) {
          assert FirstNear(points, pose) == i;
          occupied := occupied[i := true];
          return;
        }
      }
    }
  }
}
