/** The objects of the simulation manager that compute a synchronisation. */
module RobotSync {
  import opened Tables
  import opened Robots
  import opened SimSync

  class GazeboClient {
    var models: seq<Model>

    constructor ()
      ensures models == []
    {
      models := [];
    }

    method ParseModelName(name: string) returns (info: Option<Model>)
      ensures info == Parse(name)
    {
      if !(PREFIX <= name) {
        return None;
      }
      var value := name[|PREFIX|..];
      var pos := 0;
      while pos < |value| && value[pos] != '_'
        invariant pos <= |value| && forall j | 0 <= j < pos :: value[j] != '_'
      {
        pos := pos + 1;
      }
      assert pos == FirstUnderscore(value);
      if pos == |value| || pos == 0 || pos == |value| - 1 {
        return None;
      }
      return Some(Model(name, value[..pos], value[pos + 1..]));
    }

    // `response` is Gazebo's list of model names, or none when the call failed.
    method UpdateModels(response: Option<seq<string>>)
      modifies this
      ensures models == if response.Some? then Models(response.value) else old(models)
    {
      if response.None? {
        return;
      }
      var names := response.value;
      models := [];
      for i := 0 to |names|
        invariant models == Models(names[..i])
      {
        assert names[..i + 1][..i] == names[..i];
        var info := ParseModelName(names[i]);
        if info.Some? {
          models := models + [info.value];
        }
      }
      assert names[..|names|] == names;
    }
  }

  datatype Phase =
    | UNKNOWN | WAITING_CREATE | LAUNCHING | WAIT_GAZEBO_MODEL | WAIT_CONTROLLER | ACTIVE | FAILED | DELETING

  class RobotLifecycleManager {
    var managed: map<string, Phase>
    var queue: seq<Request>

    ghost function Busy(): set<string>
      reads this
    {
      set id | id in managed && managed[id] != FAILED
    }

    constructor ()
      ensures managed == map[] && queue == []
    {
      managed, queue := map[], [];
    }

    method RequestCreate(robot: Listed)
      modifies this
      ensures Busy() == old(Busy()) + {robot.robotId}
      ensures queue == old(queue) + if robot.robotId in old(Busy()) then [] else [Create(robot)]
      ensures var id := robot.robotId;
        if id in old(managed) && old(managed)[id] != FAILED then managed == old(managed) && queue == old(queue)
        else managed == old(managed)[id := WAITING_CREATE] && queue == old(queue) + [Create(robot)]
    {
      if robot.robotId in managed {
        if managed[robot.robotId] != FAILED {
          return;
        }
      }
      managed := managed[robot.robotId := WAITING_CREATE];
      queue := queue + [Create(robot)];
    }

    method RequestDelete(model: Model)
      modifies this`queue
      ensures queue == old(queue) + [Delete(model)]
    {
      queue := queue + [Delete(model)];
    }

    method RequestReplace(robot: Listed, model: Model)
      modifies this`queue
      ensures queue == old(queue) + [Replace(robot, model)]
    {
      queue := queue + [Replace(robot, model)];
    }
  }

  class RobotSyncManager {
    const gazebo: GazeboClient
    const lifecycle: RobotLifecycleManager

    constructor (g: GazeboClient, l: RobotLifecycleManager)
      ensures gazebo == g && lifecycle == l
    {
      gazebo, lifecycle := g, l;
    }

    // Queues what the specification asks for, after whatever is still queued.
    method Sync(robots: seq<Listed>)
      modifies lifecycle
      ensures lifecycle.queue == old(lifecycle.queue) + SimSync.Sync(robots, gazebo.models, old(lifecycle.Busy()))
      ensures lifecycle.Busy() == BusyAfter(robots, gazebo.models, old(lifecycle.Busy()))
      ensures forall q :: q in lifecycle.queue <==>
                          q in old(lifecycle.queue) || HasReason(robots, gazebo.models, old(lifecycle.Busy()), q)
    {
      EdgeToGazebo(robots, gazebo.models);
      GazeboToEdge(gazebo.models, robots);
      forall q ensures q in SimSync.Sync(robots, gazebo.models, old(lifecycle.Busy())) <==>
                       HasReason(robots, gazebo.models, old(lifecycle.Busy()), q) {
        SyncAsksExactly(robots, gazebo.models, old(lifecycle.Busy()), q);
      }
      hide SimSync.Sync, HasReason, BusyAfter;
    }

    method EdgeToGazebo(robots: seq<Listed>, models: seq<Model>)
      modifies lifecycle
      ensures lifecycle.queue == old(lifecycle.queue) + SimSync.EdgeToGazebo(robots, models, old(lifecycle.Busy()))
      ensures lifecycle.Busy() == BusyAfter(robots, models, old(lifecycle.Busy()))
    {
      hide BusyAfter, SimSync.EdgeToGazebo, FindModel;
      ghost var busy, queue := lifecycle.Busy(), lifecycle.queue;
      PassOfNone(models, robots, busy);
      assert robots[..0] == [];
      for r := 0 to |robots|
        invariant lifecycle.Busy() == BusyAfter(robots[..r], models, busy)
        invariant lifecycle.queue == queue + SimSync.EdgeToGazebo(robots[..r], models, busy)
      {
        PassOfOneMore(robots, models, busy, r);
        var i := IndexOfModel(models, robots[r].robotId);
        if i == |models| {
          lifecycle.RequestCreate(robots[r]);
        } else if models[i].instanceId != robots[r].instanceId {
          lifecycle.RequestReplace(robots[r], models[i]);
        }
      }
      assert robots[..|robots|] == robots;
    }

    method GazeboToEdge(models: seq<Model>, robots: seq<Listed>)
      modifies lifecycle`queue
      ensures lifecycle.queue == old(lifecycle.queue) + SimSync.GazeboToEdge(models, robots)
    {
      ghost var queue := lifecycle.queue;
      for m := 0 to |models|
        invariant lifecycle.queue == queue + SimSync.GazeboToEdge(models[..m], robots)
      {
        assert models[..m + 1][..m] == models[..m];
        var listed := Lists(robots, models[m].robotId);
        if !listed {
          lifecycle.RequestDelete(models[m]);
        }
      }
      assert models[..|models|] == models;
    }

    method IndexOfModel(models: seq<Model>, robotId: string) returns (i: nat)
      ensures i == FindModel(models, robotId)
    {
      i := 0;
      while i < |models| && models[i].robotId != robotId
        invariant i <= |models| && forall j | 0 <= j < i :: models[j].robotId != robotId
      {
        i := i + 1;
      }
    }

    method Lists(robots: seq<Listed>, robotId: string) returns (found: bool)
      ensures found == HasRobot(robots, robotId)
    {
      for i := 0 to |robots|
        invariant forall j | 0 <= j < i :: robots[j].robotId != robotId
      {
        if robots[i].robotId == robotId {
          return true;
        }
      }
      return false;
    }
  }

  lemma PassOfNone(models: seq<Model>, robots: seq<Listed>, busy: set<string>)
    ensures BusyAfter([], models, busy) == busy && EdgeToGazebo([], models, busy) == []
  {
  }

  // What the first pass adds for the next robot.
  lemma PassOfOneMore(robots: seq<Listed>, models: seq<Model>, busy: set<string>, r: nat)
    requires r < |robots|
    ensures var i := FindModel(models, robots[r].robotId);
      var before := BusyAfter(robots[..r], models, busy);
      && BusyAfter(robots[..r + 1], models, busy)
         == (if i == |models| then before + {robots[r].robotId} else before)
      && EdgeToGazebo(robots[..r + 1], models, busy) == EdgeToGazebo(robots[..r], models, busy)
         + (if i == |models| then (if robots[r].robotId in before then [] else [Create(robots[r])])
            else if models[i].instanceId != robots[r].instanceId then [Replace(robots[r], models[i])]
            else [])
  {
    assert robots[..r + 1][..r] == robots[..r];
  }
}
