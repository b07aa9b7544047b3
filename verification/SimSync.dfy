/** The simulation side: keeping the models in Gazebo equal to the robots the
    Edge lists. */
module SimSync {
  import opened Tables
  import opened Robots

  datatype Model = Model(name: string, robotId: string, instanceId: string)

  const PREFIX := "amr_"

  function FirstUnderscore(s: string): (i: nat)
    ensures i <= |s| && (i < |s| ==> s[i] == '_')
    ensures forall j | 0 <= j < i :: s[j] != '_'
  {
    if s == "" || s[0] == '_' then 0
    else
      assert forall j | 1 <= j < |s| :: s[j] == s[1..][j - 1];
      1 + FirstUnderscore(s[1..])
  }

  function Parse(name: string): Option<Model> {
    if !(PREFIX <= name) then None
    else
      var value := name[|PREFIX|..];
      var pos := FirstUnderscore(value);
      if pos == |value| || pos == 0 || pos == |value| - 1 then None
      else Some(Model(name, value[..pos], value[pos + 1..]))
  }

  predicate Plain(robotId: string, instanceId: string) {
    robotId != "" && '_' !in robotId && instanceId != ""
  }

  lemma MadeNameParses(robotId: string, instanceId: string)
    requires Plain(robotId, instanceId)
    ensures var name := ModelName(robotId, instanceId); Parse(name) == Some(Model(name, robotId, instanceId))
  {
    var name := ModelName(robotId, instanceId);
    var value := name[|PREFIX|..];
    assert value == robotId + "_" + instanceId;
    assert value[|robotId|] == '_' && forall j | 0 <= j < |robotId| :: value[j] == robotId[j];
    assert FirstUnderscore(value) == |robotId|;
    assert value[..|robotId|] == robotId && value[|robotId| + 1..] == instanceId;
  }

  lemma ParsedNameIsMade(name: string)
    requires Parse(name).Some?
    ensures var m := Parse(name).value;
      m.name == name == ModelName(m.robotId, m.instanceId) && Plain(m.robotId, m.instanceId)
  {
    var value := name[|PREFIX|..];
    var pos := FirstUnderscore(value);
    assert name == PREFIX + value;
    assert value == value[..pos] + "_" + value[pos + 1..];
  }

  lemma ParseDecides(name: string, robotId: string, instanceId: string)
    ensures Parse(name) == Some(Model(name, robotId, instanceId))
      <==> name == ModelName(robotId, instanceId) && Plain(robotId, instanceId)
  {
    hide Parse, ModelName;
    if Parse(name).Some? {
      ParsedNameIsMade(name);
    }
    if Plain(robotId, instanceId) {
      MadeNameParses(robotId, instanceId);
    }
  }

  /** Reading a model's name gives back the two ids exactly when the name was
      made from a robot id without '_' and neither id is empty. */
  lemma ParseExactly(name: string, robotId: string, instanceId: string)
    ensures Parse(name) == Some(Model(name, robotId, instanceId))
      <==> name == "amr_" + robotId + "_" + instanceId && robotId != "" && '_' !in robotId && instanceId != ""
  {
    ParseDecides(name, robotId, instanceId);
    hide Parse;
  }

  // ---- What one synchronisation asks for -----------------------------------------

  datatype Request = Create(robot: Listed) | Replace(robot: Listed, model: Model) | Delete(model: Model)

  // The names Gazebo reports, in its order; those that do not parse are not ours.
  function Models(names: seq<string>): seq<Model> {
    if names == [] then []
    else
      var n := |names| - 1;
      Models(names[..n]) + (if Parse(names[n]).Some? then [Parse(names[n]).value] else [])
  }

  function FindModel(models: seq<Model>, robotId: string): (i: nat)
    ensures i <= |models| && (i < |models| ==> models[i].robotId == robotId)
    ensures forall j | 0 <= j < i :: models[j].robotId != robotId
  {
    if models == [] || models[0].robotId == robotId then 0
    else
      assert forall j | 1 <= j < |models| :: models[j] == models[1..][j - 1];
      1 + FindModel(models[1..], robotId)
  }

  predicate HasRobot(robots: seq<Listed>, robotId: string) {
    exists i :: 0 <= i < |robots| && robots[i].robotId == robotId
  }

  // `busy` are the robots being managed and not failed; a creation is asked for once.
  function Asked(robot: Listed, models: seq<Model>, busy: set<string>): seq<Request> {
    var i := FindModel(models, robot.robotId);
    if i == |models| then (if robot.robotId in busy then [] else [Create(robot)])
    else if models[i].instanceId != robot.instanceId then [Replace(robot, models[i])]
    else []
  }

  function BusyAfter(robots: seq<Listed>, models: seq<Model>, busy: set<string>): set<string> {
    if robots == [] then busy
    else
      var n := |robots| - 1;
      var b := BusyAfter(robots[..n], models, busy);
      if FindModel(models, robots[n].robotId) == |models| then b + {robots[n].robotId} else b
  }

  function EdgeToGazebo(robots: seq<Listed>, models: seq<Model>, busy: set<string>): seq<Request> {
    if robots == [] then []
    else
      var n := |robots| - 1;
      EdgeToGazebo(robots[..n], models, busy) + Asked(robots[n], models, BusyAfter(robots[..n], models, busy))
  }

  function GazeboToEdge(models: seq<Model>, robots: seq<Listed>): seq<Request> {
    if models == [] then []
    else
      var n := |models| - 1;
      GazeboToEdge(models[..n], robots) + (if HasRobot(robots, models[n].robotId) then [] else [Delete(models[n])])
  }

  function Sync(robots: seq<Listed>, models: seq<Model>, busy: set<string>): seq<Request> {
    EdgeToGazebo(robots, models, busy) + GazeboToEdge(models, robots)
  }

  // Whether one synchronisation has a reason to ask for `q`.
  ghost predicate HasReason(robots: seq<Listed>, models: seq<Model>, busy: set<string>, q: Request) {
    match q
    case Create(robot) =>
      && robot.robotId !in busy && (forall i | 0 <= i < |models| :: models[i].robotId != robot.robotId)
      && exists n :: 0 <= n < |robots| && robots[n] == robot
                     && forall j | 0 <= j < n :: robots[j].robotId != robot.robotId
    case Replace(robot, model) =>
      && robot in robots && model.robotId == robot.robotId && model.instanceId != robot.instanceId
      && exists i :: 0 <= i < |models| && models[i] == model
                     && forall j | 0 <= j < i :: models[j].robotId != robot.robotId
    case Delete(model) =>
      model in models && forall n | 0 <= n < |robots| :: robots[n].robotId != model.robotId
  }

  lemma AskedHasReason(robot: Listed, models: seq<Model>, busy: set<string>, q: Request)
    ensures q in Asked(robot, models, busy) <==>
            && !q.Delete? && q.robot == robot
            && (q.Create? ==> robot.robotId !in busy
                              && forall i | 0 <= i < |models| :: models[i].robotId != robot.robotId)
            && (q.Replace? ==> q.model.robotId == robot.robotId && q.model.instanceId != robot.instanceId
                               && exists i :: 0 <= i < |models| && models[i] == q.model
                                              && forall j | 0 <= j < i :: models[j].robotId != robot.robotId)
  {
  }

  // One more robot gives a reason to create it, unless it was listed before.
  lemma CreateReasonGrows(robots: seq<Listed>, models: seq<Model>, busy: set<string>, q: Request)
    requires robots != []
    ensures var n := |robots| - 1;
      var robot := robots[n];
      q.Create? ==>
        (HasReason(robots, models, busy, q) <==>
          || HasReason(robots[..n], models, busy, q)
          || (q.robot == robot && robot.robotId !in busy && !HasRobot(robots[..n], robot.robotId)
              && forall i | 0 <= i < |models| :: models[i].robotId != robot.robotId))
  {
    var n := |robots| - 1;
    assert forall i | 0 <= i < n :: robots[..n][i] == robots[i];
  }

  lemma ReplaceReasonGrows(robots: seq<Listed>, models: seq<Model>, busy: set<string>, q: Request)
    requires robots != []
    ensures var n := |robots| - 1;
      var robot := robots[n];
      q.Replace? ==>
        (HasReason(robots, models, busy, q) <==>
          || HasReason(robots[..n], models, busy, q)
          || (q.robot == robot && q.model.robotId == robot.robotId && q.model.instanceId != robot.instanceId
              && exists i :: 0 <= i < |models| && models[i] == q.model
                             && forall j | 0 <= j < i :: models[j].robotId != robot.robotId))
  {
    assert robots == robots[..|robots| - 1] + [robots[|robots| - 1]];
  }

  lemma {:induction false} EdgeAsksExactly(robots: seq<Listed>, models: seq<Model>, busy: set<string>, q: Request)
    ensures q in EdgeToGazebo(robots, models, busy) <==> !q.Delete? && HasReason(robots, models, busy, q)
  {
    if robots != [] {
      var n := |robots| - 1;
      EdgeAsksExactly(robots[..n], models, busy, q);
      BusyExactly(robots[..n], models, busy, robots[n].robotId);
      AskedHasReason(robots[n], models, BusyAfter(robots[..n], models, busy), q);
      CreateReasonGrows(robots, models, busy, q);
      ReplaceReasonGrows(robots, models, busy, q);
      hide Asked, BusyAfter, HasReason;
    }
  }

  lemma {:induction false} GazeboAsksExactly(robots: seq<Listed>, models: seq<Model>, busy: set<string>, q: Request)
    ensures q in GazeboToEdge(models, robots) <==> q.Delete? && HasReason(robots, models, busy, q)
  {
    if models != [] {
      var n := |models| - 1;
      GazeboAsksExactly(robots, models[..n], busy, q);
      assert models == models[..n] + [models[n]];
    }
  }

  /** One synchronisation asks for exactly what there is a reason for: each
      listed robot without a model and not yet managed is created, once; one
      whose first model is of another instance is replaced; and each model whose
      robot is not listed is deleted. */
  lemma SyncAsksExactly(robots: seq<Listed>, models: seq<Model>, busy: set<string>, q: Request)
    ensures q in Sync(robots, models, busy) <==> HasReason(robots, models, busy, q)
  {
    EdgeAsksExactly(robots, models, busy, q);
    GazeboAsksExactly(robots, models, busy, q);
    hide EdgeToGazebo, GazeboToEdge, HasReason;
  }

  // ---- Carrying the requests out -------------------------------------------------

  datatype Sim = Sim(world: set<string>, busy: set<string>)

  function Apply(s: Sim, q: Request): Sim {
    match q
    case Create(robot) => s.(world := s.world + {ModelName(robot.robotId, robot.instanceId)})
    case Replace(robot, model) => s.(world := s.world - {model.name} + {ModelName(robot.robotId, robot.instanceId)})
    case Delete(model) => Sim(s.world - {model.name}, s.busy - {model.robotId})
  }

  function ApplyAll(s: Sim, requests: seq<Request>): Sim {
    if requests == [] then s
    else Apply(ApplyAll(s, requests[..|requests| - 1]), requests[|requests| - 1])
  }

  lemma {:induction false} ApplyAllAppend(s: Sim, a: seq<Request>, b: seq<Request>)
    ensures ApplyAll(s, a + b) == ApplyAll(ApplyAll(s, a), b)
  {
    if b == [] {
      assert a + b == a;
    } else {
      var n := |b| - 1;
      assert (a + b)[..|a + b| - 1] == a + b[..n];
      ApplyAllAppend(s, a, b[..n]);
    }
  }

  function Round(s: Sim, robots: seq<Listed>, names: seq<string>): Sim {
    var models := Models(names);
    ApplyAll(s.(busy := BusyAfter(robots, models, s.busy)), Sync(robots, models, s.busy))
  }

  predicate UniqueRobots(robots: seq<Listed>) {
    forall i, j | 0 <= i < j < |robots| :: robots[i].robotId != robots[j].robotId
  }

  predicate AllPlain(robots: seq<Listed>) {
    forall i | 0 <= i < |robots| :: Plain(robots[i].robotId, robots[i].instanceId)
  }

  // `names` is a report of the world: every name, once.
  predicate Reports(names: seq<string>, world: set<string>) {
    && (forall i | 0 <= i < |names| :: names[i] in world)
    && (forall n | n in world :: n in names)
    && (forall i, j | 0 <= i < j < |names| :: names[i] != names[j])
  }

  ghost predicate Ours(world: set<string>, name: string, robotId: string) {
    name in world && Parse(name).Some? && Parse(name).value.robotId == robotId
  }

  // At most one model a robot, and a managed robot has one.
  ghost predicate SimInv(s: Sim) {
    && (forall a, b, id | Ours(s.world, a, id) && Ours(s.world, b, id) :: a == b)
    && (forall id | id in s.busy :: exists name :: Ours(s.world, name, id))
  }

  ghost predicate Shows(world: set<string>, robotId: string, instanceId: string) {
    exists name :: name in world && Parse(name) == Some(Model(name, robotId, instanceId))
  }

  predicate IsListed(robots: seq<Listed>, robotId: string, instanceId: string) {
    exists i :: 0 <= i < |robots| && robots[i].robotId == robotId && robots[i].instanceId == instanceId
  }

  // Gazebo's (robot, instance) pairs are the Edge's.
  ghost predicate InStep(world: set<string>, robots: seq<Listed>) {
    forall robotId, instanceId :: Shows(world, robotId, instanceId) <==> IsListed(robots, robotId, instanceId)
  }

  lemma {:induction false} ModelsInOrder(a: seq<string>, b: seq<string>)
    ensures Models(a + b) == Models(a) + Models(b)
  {
    hide Parse;
    if b == [] {
      assert a + b == a;
    } else {
      var n := |b| - 1;
      assert (a + b)[..|a| + n] == a + b[..n];
      ModelsInOrder(a, b[..n]);
    }
  }

  lemma {:induction false} ModelsExactly(names: seq<string>, m: Model)
    ensures m in Models(names) <==> m.name in names && Parse(m.name) == Some(m)
    ensures forall i | 0 <= i < |Models(names)| :: Models(names)[i].name in names
  {
    if names != [] {
      var n := |names| - 1;
      ModelsExactly(names[..n], m);
      assert forall x :: x in names <==> x in names[..n] || x == names[n];
      if Parse(names[n]).Some? {
        assert Models(names)[..|Models(names)| - 1] == Models(names[..n]);
      }
    }
  }

  // The one model of a robot in the world is the one the search finds.
  lemma FoundExactly(s: Sim, names: seq<string>, name: string, robotId: string)
    requires SimInv(s) && Reports(names, s.world)
    ensures var models := Models(names); var i := FindModel(models, robotId);
      Ours(s.world, name, robotId) <==> i < |models| && models[i].name == name
  {
    var models := Models(names);
    var i := FindModel(models, robotId);
    if i < |models| {
      assert models[i] in models;
      ModelsExactly(names, models[i]);
      assert Ours(s.world, models[i].name, robotId);
    }
    if Ours(s.world, name, robotId) {
      ModelsExactly(names, Parse(name).value);
    }
  }

  // ---- The two passes --------------------------------------------------------------

  // After the first pass a listed robot has exactly its own model; all else is untouched.
  ghost predicate Settled(before: set<string>, world: set<string>, robots: seq<Listed>, name: string) {
    match Parse(name)
    case Some(m) =>
      if HasRobot(robots, m.robotId)
      then name in world <==> IsListed(robots, m.robotId, m.instanceId)
      else name in world <==> name in before
    case None => name in world <==> name in before
  }

  lemma ListedGrows(robots: seq<Listed>, id: string, instance: string)
    requires robots != []
    ensures var n := |robots| - 1;
      && (HasRobot(robots, id) <==> HasRobot(robots[..n], id) || robots[n].robotId == id)
      && (IsListed(robots, id, instance)
          <==> IsListed(robots[..n], id, instance) || (robots[n].robotId == id && robots[n].instanceId == instance))
    ensures IsListed(robots, id, instance) ==> HasRobot(robots, id)
  {
    var n := |robots| - 1;
    assert forall i | 0 <= i < n :: robots[..n][i] == robots[i];
  }

  lemma {:induction false} BusyExactly(robots: seq<Listed>, models: seq<Model>, busy: set<string>, id: string)
    ensures id in BusyAfter(robots, models, busy)
      <==> id in busy || (FindModel(models, id) == |models| && HasRobot(robots, id))
  {
    if robots != [] {
      BusyExactly(robots[..|robots| - 1], models, busy, id);
      ListedGrows(robots, id, "");
    }
  }

  // Asking for one more robot settles that robot and no other.
  lemma AskedSettles(
    s: Sim, robots: seq<Listed>, names: seq<string>, t: Sim, asked: seq<Request>, name: string)
    requires SimInv(s) && Reports(names, s.world) && UniqueRobots(robots) && AllPlain(robots) && robots != []
    requires var n := |robots| - 1; var models := Models(names);
      && Settled(s.world, t.world, robots[..n], name)
      && asked == Asked(robots[n], models, BusyAfter(robots[..n], models, s.busy))
    ensures ApplyAll(t, asked).busy == t.busy && Settled(s.world, ApplyAll(t, asked).world, robots, name)
  {
    hide Parse, SimInv, ModelName;
    var n, models := |robots| - 1, Models(names);
    var robot := robots[n];
    var id, i := robot.robotId, FindModel(models, robot.robotId);
    var own := ModelName(id, robot.instanceId);
    assert asked != [] ==> asked[..0] == [];
    ParseDecides(own, id, robot.instanceId);
    BusyExactly(robots[..n], models, s.busy, id);
    assert !HasRobot(robots[..n], id);
    assert forall instance :: !IsListed(robots[..n], id, instance);
    FoundExactly(s, names, name, id);
    BusyIsFound(s, names, id);
    if i < |models| {
      assert models[i] in models;
      ModelsExactly(names, models[i]);
      ParsedNameIsMade(models[i].name);
    }
    if Parse(name).Some? {
      var m := Parse(name).value;
      ParsedNameIsMade(name);
      ListedGrows(robots, m.robotId, m.instanceId);
    }
  }

  lemma BusyIsFound(s: Sim, names: seq<string>, id: string)
    requires SimInv(s) && Reports(names, s.world)
    ensures id in s.busy ==> FindModel(Models(names), id) < |Models(names)|
  {
    if id in s.busy {
      var name :| Ours(s.world, name, id);
      FoundExactly(s, names, name, id);
    }
  }

  lemma {:induction false} EdgePass(s: Sim, robots: seq<Listed>, names: seq<string>, busy: set<string>, name: string)
    requires SimInv(s) && Reports(names, s.world) && UniqueRobots(robots) && AllPlain(robots)
    ensures var t := ApplyAll(s.(busy := busy), EdgeToGazebo(robots, Models(names), s.busy));
      t.busy == busy && Settled(s.world, t.world, robots, name)
  {
    hide SimInv, Settled, Asked;
    if robots != [] {
      var n, models := |robots| - 1, Models(names);
      var before := EdgeToGazebo(robots[..n], models, s.busy);
      var asked := Asked(robots[n], models, BusyAfter(robots[..n], models, s.busy));
      EdgePass(s, robots[..n], names, busy, name);
      ApplyAllAppend(s.(busy := busy), before, asked);
      AskedSettles(s, robots, names, ApplyAll(s.(busy := busy), before), asked, name);
    } else {
      NothingSettled(s.world, name);
    }
  }

  lemma NothingSettled(world: set<string>, name: string)
    ensures Settled(world, world, [], name)
  {
  }

  // The second pass removes the models whose robot is not listed.
  ghost predicate Dropped(models: seq<Model>, robots: seq<Listed>, name: string) {
    exists i :: 0 <= i < |models| && models[i].name == name && !HasRobot(robots, models[i].robotId)
  }

  ghost predicate Freed(models: seq<Model>, robots: seq<Listed>, id: string) {
    exists i :: 0 <= i < |models| && models[i].robotId == id && !HasRobot(robots, id)
  }

  lemma DroppedGrows(models: seq<Model>, robots: seq<Listed>, name: string, id: string)
    requires models != []
    ensures var n := |models| - 1; var gone := !HasRobot(robots, models[n].robotId);
      && (Dropped(models, robots, name) <==> Dropped(models[..n], robots, name) || (gone && models[n].name == name))
      && (Freed(models, robots, id) <==> Freed(models[..n], robots, id) || (gone && models[n].robotId == id))
  {
    hide HasRobot;
    var n := |models| - 1;
    assert forall i | 0 <= i < n :: models[..n][i] == models[i];
  }

  lemma {:induction false} GazeboPass(t: Sim, models: seq<Model>, robots: seq<Listed>, name: string, id: string)
    ensures var u := ApplyAll(t, GazeboToEdge(models, robots));
      && (name in u.world <==> name in t.world && !Dropped(models, robots, name))
      && (id in u.busy <==> id in t.busy && !Freed(models, robots, id))
  {
    if models != [] {
      hide HasRobot, Dropped, Freed;
      var n := |models| - 1;
      var before := GazeboToEdge(models[..n], robots);
      var last := if HasRobot(robots, models[n].robotId) then [] else [Delete(models[n])];
      GazeboPass(t, models[..n], robots, name, id);
      ApplyAllAppend(t, before, last);
      assert last != [] ==> last[..0] == [];
      DroppedGrows(models, robots, name, id);
    }
  }

  // ---- One round, any number of rounds -------------------------------------------------

  // What a round leaves of one name.
  lemma RoundExactly(s: Sim, robots: seq<Listed>, names: seq<string>, name: string)
    requires SimInv(s) && Reports(names, s.world) && UniqueRobots(robots) && AllPlain(robots)
    ensures name in Round(s, robots, names).world
      <==> if Parse(name).Some? then IsListed(robots, Parse(name).value.robotId, Parse(name).value.instanceId)
           else name in s.world
  {
    hide SimInv, Parse;
    var models := Models(names);
    var busy := BusyAfter(robots, models, s.busy);
    var t := ApplyAll(s.(busy := busy), EdgeToGazebo(robots, models, s.busy));
    EdgePass(s, robots, names, busy, name);
    ApplyAllAppend(s.(busy := busy), EdgeToGazebo(robots, models, s.busy), GazeboToEdge(models, robots));
    GazeboPass(t, models, robots, name, "");
    if Parse(name).Some? {
      ParsedNameIsMade(name);
      var m := Parse(name).value;
      ModelsExactly(names, m);
      if m in models {
        var i :| 0 <= i < |models| && models[i] == m;
      }
      if robots != [] {
        ListedGrows(robots, m.robotId, m.instanceId);
      }
    }
    forall i | 0 <= i < |models| && models[i].name == name
      ensures Parse(name) == Some(models[i])
    {
      assert models[i] in models;
      ModelsExactly(names, models[i]);
    }
  }

  lemma RoundKeepsInv(s: Sim, robots: seq<Listed>, names: seq<string>)
    requires SimInv(s) && Reports(names, s.world) && UniqueRobots(robots) && AllPlain(robots)
    ensures SimInv(Round(s, robots, names))
  {
    hide Parse, Round, ModelName;
    var t := Round(s, robots, names);
    forall a, b, id | Ours(t.world, a, id) && Ours(t.world, b, id)
      ensures a == b
    {
      RoundExactly(s, robots, names, a);
      RoundExactly(s, robots, names, b);
      ParsedNameIsMade(a);
      ParsedNameIsMade(b);
    }
    forall id | id in t.busy
      ensures exists name :: Ours(t.world, name, id)
    {
      RoundBusy(s, robots, names, id);
      var i :| 0 <= i < |robots| && robots[i].robotId == id;
      var name := ModelName(id, robots[i].instanceId);
      RoundExactly(s, robots, names, name);
      ParseDecides(name, id, robots[i].instanceId);
      assert Ours(t.world, name, id);
    }
  }

  // Only listed robots stay managed: the others' models are deleted.
  lemma RoundBusy(s: Sim, robots: seq<Listed>, names: seq<string>, id: string)
    requires SimInv(s) && Reports(names, s.world) && UniqueRobots(robots) && AllPlain(robots)
    ensures id in Round(s, robots, names).busy ==> HasRobot(robots, id)
  {
    hide SimInv;
    var models := Models(names);
    var busy := BusyAfter(robots, models, s.busy);
    var t := ApplyAll(s.(busy := busy), EdgeToGazebo(robots, models, s.busy));
    EdgePass(s, robots, names, busy, "");
    ApplyAllAppend(s.(busy := busy), EdgeToGazebo(robots, models, s.busy), GazeboToEdge(models, robots));
    GazeboPass(t, models, robots, "", id);
    BusyExactly(robots, models, s.busy, id);
    BusyIsFound(s, names, id);
  }

  lemma InStepNeedsPlain(world: set<string>, robots: seq<Listed>)
    requires InStep(world, robots)
    ensures AllPlain(robots)
  {
    forall i | 0 <= i < |robots|
      ensures Plain(robots[i].robotId, robots[i].instanceId)
    {
      var r := robots[i];
      assert IsListed(robots, r.robotId, r.instanceId);
      var name :| name in world && Parse(name) == Some(Model(name, r.robotId, r.instanceId));
      ParsedNameIsMade(name);
    }
  }

  /** One round brings Gazebo in step with the Edge exactly when every listed
      robot's ids survive being written into a model name. */
  lemma ConvergesExactly(s: Sim, robots: seq<Listed>, names: seq<string>)
    requires SimInv(s) && Reports(names, s.world) && UniqueRobots(robots)
    ensures InStep(Round(s, robots, names).world, robots) <==> AllPlain(robots)
    ensures AllPlain(robots) ==> forall name | Parse(name).None? ::
      name in Round(s, robots, names).world <==> name in s.world
  {
    hide Parse, Round, ModelName, SimInv;
    var world := Round(s, robots, names).world;
    if InStep(world, robots) {
      InStepNeedsPlain(world, robots);
    }
    if AllPlain(robots) {
      forall name
        ensures name in world <==>
          if Parse(name).Some? then IsListed(robots, Parse(name).value.robotId, Parse(name).value.instanceId)
          else name in s.world
      {
        RoundExactly(s, robots, names, name);
      }
      forall id, instance
        ensures Shows(world, id, instance) <==> IsListed(robots, id, instance)
      {
        ParseDecides(ModelName(id, instance), id, instance);
        if IsListed(robots, id, instance) {
          assert ModelName(id, instance) in world;
        }
      }
    }
  }

  // A robot is asked for unless Gazebo already shows it.
  lemma {:induction false} NothingAskedExactly(
    s: Sim, all: seq<Listed>, robots: seq<Listed>, names: seq<string>)
    requires SimInv(s) && Reports(names, s.world) && robots <= all && AllPlain(all)
    ensures EdgeToGazebo(robots, Models(names), s.busy) == []
      <==> forall i | 0 <= i < |robots| :: Shows(s.world, robots[i].robotId, robots[i].instanceId)
  {
    hide Parse, SimInv, Shows, Asked, FindModel, Plain, Reports, BusyAfter, Models;
    if robots != [] {
      var n, models := |robots| - 1, Models(names);
      NothingAskedExactly(s, all, robots[..n], names);
      assert forall i | 0 <= i < n :: robots[..n][i] == robots[i];
      assert robots[..n] <= all;
      if EdgeToGazebo(robots[..n], models, s.busy) == [] {
        NothingAskedKeepsBusy(robots[..n], models, s.busy);
        assert robots[n] == all[n];
        AskedExactly(s, robots[n], names, BusyAfter(robots[..n], models, s.busy));
      }
    }
  }

  lemma {:induction false} NothingAskedKeepsBusy(robots: seq<Listed>, models: seq<Model>, busy: set<string>)
    requires EdgeToGazebo(robots, models, busy) == []
    ensures BusyAfter(robots, models, busy) == busy
  {
    if robots != [] {
      NothingAskedKeepsBusy(robots[..|robots| - 1], models, busy);
    }
  }

  lemma AskedExactly(s: Sim, robot: Listed, names: seq<string>, busy: set<string>)
    requires SimInv(s) && Reports(names, s.world) && Plain(robot.robotId, robot.instanceId) && busy == s.busy
    ensures Asked(robot, Models(names), busy) == [] <==> Shows(s.world, robot.robotId, robot.instanceId)
  {
    hide Parse, SimInv, ModelName;
    var models := Models(names);
    var id := robot.robotId;
    var i := FindModel(models, id);
    var own := ModelName(id, robot.instanceId);
    ParseDecides(own, id, robot.instanceId);
    FoundExactly(s, names, own, id);
    BusyIsFound(s, names, id);
    if i < |models| {
      assert models[i] in models;
      ModelsExactly(names, models[i]);
      ParsedNameIsMade(models[i].name);
    }
    forall name | Parse(name) == Some(Model(name, id, robot.instanceId))
      ensures name == own
    {
      ParseDecides(name, id, robot.instanceId);
    }
  }

  lemma {:induction false} NothingDeletedExactly(models: seq<Model>, robots: seq<Listed>)
    ensures GazeboToEdge(models, robots) == []
      <==> forall i | 0 <= i < |models| :: HasRobot(robots, models[i].robotId)
  {
    if models != [] {
      var n := |models| - 1;
      NothingDeletedExactly(models[..n], robots);
      assert forall i | 0 <= i < n :: models[..n][i] == models[i];
    }
  }

  /** A synchronisation asks for nothing exactly when Gazebo is in step. */
  lemma QuietExactly(s: Sim, robots: seq<Listed>, names: seq<string>)
    requires SimInv(s) && Reports(names, s.world) && UniqueRobots(robots) && AllPlain(robots)
    ensures Sync(robots, Models(names), s.busy) == [] <==> InStep(s.world, robots)
  {
    hide Parse, ModelName, SimInv, AllPlain;
    var models := Models(names);
    NothingAskedExactly(s, robots, robots, names);
    NothingDeletedExactly(models, robots);
    if InStep(s.world, robots) {
      forall i | 0 <= i < |models|
        ensures HasRobot(robots, models[i].robotId)
      {
        assert models[i] in models;
        ModelsExactly(names, models[i]);
        assert Shows(s.world, models[i].robotId, models[i].instanceId);
      }
      forall i | 0 <= i < |robots|
        ensures Shows(s.world, robots[i].robotId, robots[i].instanceId)
      {
        assert IsListed(robots, robots[i].robotId, robots[i].instanceId);
      }
    }
    if Sync(robots, models, s.busy) == [] {
      forall id, instance | Shows(s.world, id, instance)
        ensures IsListed(robots, id, instance)
      {
        QuietShowsListed(s, robots, names, id, instance);
      }
    }
  }

  lemma QuietShowsListed(s: Sim, robots: seq<Listed>, names: seq<string>, id: string, instance: string)
    requires SimInv(s) && Reports(names, s.world) && Shows(s.world, id, instance)
    requires forall i | 0 <= i < |Models(names)| :: HasRobot(robots, Models(names)[i].robotId)
    requires forall i | 0 <= i < |robots| :: Shows(s.world, robots[i].robotId, robots[i].instanceId)
    ensures IsListed(robots, id, instance)
  {
    hide Parse;
    var name :| name in s.world && Parse(name) == Some(Model(name, id, instance));
    ModelsExactly(names, Model(name, id, instance));
    var k :| 0 <= k < |robots| && robots[k].robotId == id;
    var own :| own in s.world && Parse(own) == Some(Model(own, id, robots[k].instanceId));
    assert Ours(s.world, name, id) && Ours(s.world, own, id);
  }

  // One poll: the Edge's list and Gazebo's report at that time.
  datatype Poll = Poll(robots: seq<Listed>, names: seq<string>)

  function Rounds(s: Sim, polls: seq<Poll>): Sim
    decreases |polls|
  {
    if polls == [] then s else Rounds(Round(s, polls[0].robots, polls[0].names), polls[1..])
  }

  predicate Truthful(s: Sim, polls: seq<Poll>)
    decreases |polls|
  {
    polls == [] ||
    (Reports(polls[0].names, s.world) && Truthful(Round(s, polls[0].robots, polls[0].names), polls[1..]))
  }

  /** However the Edge's list changes from poll to poll, Gazebo is in step with
      the latest one after it, and repeating that poll asks for nothing. */
  lemma {:induction false} EveryListIsFollowed(s: Sim, polls: seq<Poll>, names: seq<string>)
    requires SimInv(s) && Truthful(s, polls) && polls != []
    requires forall i | 0 <= i < |polls| :: UniqueRobots(polls[i].robots) && AllPlain(polls[i].robots)
    requires Reports(names, Rounds(s, polls).world)
    ensures var t := Rounds(s, polls); var robots := polls[|polls| - 1].robots;
      InStep(t.world, robots) && Sync(robots, Models(names), t.busy) == []
    decreases |polls|
  {
    hide SimInv, Round, InStep, Sync, Reports, UniqueRobots, AllPlain;
    var p := polls[0];
    RoundKeepsInv(s, p.robots, p.names);
    if |polls| == 1 {
      ConvergesExactly(s, p.robots, p.names);
      QuietExactly(Round(s, p.robots, p.names), p.robots, names);
    } else {
      EveryListIsFollowed(Round(s, p.robots, p.names), polls[1..], names);
    }
  }

  // ---- Robot ids with '_' -----------------------------------------------------------

  predicate AsksFor(q: Request, id: string) { !q.Delete? && q.robot.robotId == id }

  predicate EverAsksFor(s: Sim, polls: seq<Poll>, id: string)
    decreases |polls|
  {
    polls != [] &&
    ((exists q | q in Sync(polls[0].robots, Models(polls[0].names), s.busy) :: AsksFor(q, id)) ||
     EverAsksFor(Round(s, polls[0].robots, polls[0].names), polls[1..], id))
  }

  lemma NoModelHasUnderscore(names: seq<string>, id: string)
    requires '_' in id
    ensures FindModel(Models(names), id) == |Models(names)|
    ensures forall i | 0 <= i < |Models(names)| :: Models(names)[i].robotId != id
  {
    hide Parse;
    forall i | 0 <= i < |Models(names)|
      ensures Models(names)[i].robotId != id
    {
      var m := Models(names)[i];
      assert m in Models(names);
      ModelsExactly(names, m);
      ParsedNameIsMade(m.name);
    }
  }

  lemma {:induction false} BusyIsNotAskedFor(robots: seq<Listed>, models: seq<Model>, busy: set<string>, id: string)
    requires id in busy && FindModel(models, id) == |models|
    ensures forall q | q in EdgeToGazebo(robots, models, busy) :: !AsksFor(q, id)
  {
    if robots != [] {
      var n := |robots| - 1;
      BusyIsNotAskedFor(robots[..n], models, busy, id);
      BusyExactly(robots[..n], models, busy, id);
    }
  }

  lemma {:induction false} OnlyDeletes(models: seq<Model>, robots: seq<Listed>)
    ensures forall q | q in GazeboToEdge(models, robots) :: q.Delete? && q.model in models
  {
    if models != [] {
      OnlyDeletes(models[..|models| - 1], robots);
    }
  }

  lemma {:induction false} ApplyKeepsBusy(s: Sim, requests: seq<Request>, id: string)
    requires id in s.busy && forall q | q in requests :: q.Delete? ==> q.model.robotId != id
    ensures id in ApplyAll(s, requests).busy
  {
    if requests != [] {
      var n := |requests| - 1;
      assert forall q | q in requests[..n] :: q in requests;
      ApplyKeepsBusy(s, requests[..n], id);
    }
  }

  lemma {:induction false} NoDeleteAsked(robots: seq<Listed>, models: seq<Model>, busy: set<string>)
    ensures forall q | q in EdgeToGazebo(robots, models, busy) :: !q.Delete?
  {
    if robots != [] {
      NoDeleteAsked(robots[..|robots| - 1], models, busy);
    }
  }

  /** A robot id with '_' is never read back from a model name, so once such a
      robot has been asked for it stays managed and is never asked for again,
      whatever becomes of its model. */
  lemma {:induction false} UnderscoreRobotIsLost(s: Sim, polls: seq<Poll>, id: string)
    requires '_' in id && id in s.busy
    ensures !EverAsksFor(s, polls, id) && id in Rounds(s, polls).busy
    decreases |polls|
  {
    hide Parse, Asked;
    if polls != [] {
      var robots, names := polls[0].robots, polls[0].names;
      var models := Models(names);
      NoModelHasUnderscore(names, id);
      BusyIsNotAskedFor(robots, models, s.busy, id);
      OnlyDeletes(models, robots);
      NoDeleteAsked(robots, models, s.busy);
      BusyExactly(robots, models, s.busy, id);
      ApplyKeepsBusy(s.(busy := BusyAfter(robots, models, s.busy)), Sync(robots, models, s.busy), id);
      UnderscoreRobotIsLost(Round(s, robots, names), polls[1..], id);
    }
  }

  /** Its model meanwhile reads as another robot's, and the next
      synchronisation that does not list that robot has it deleted. */
  lemma UnderscoreModelIsDeleted(
    s: Sim, robots: seq<Listed>, names: seq<string>, head: string, tail: string, instance: string)
    requires Reports(names, s.world) && ModelName(head + "_" + tail, instance) in s.world
    requires head != "" && '_' !in head && !HasRobot(robots, head)
    ensures Delete(Model(ModelName(head + "_" + tail, instance), head, tail + "_" + instance))
      in Sync(robots, Models(names), s.busy)
  {
    var m := Model(ModelName(head + "_" + tail, instance), head, tail + "_" + instance);
    assert ModelName(head, tail + "_" + instance) == m.name by {
      assert "amr_" + (head + "_" + tail) + "_" + instance == "amr_" + head + "_" + (tail + "_" + instance);
    }
    MadeNameParses(head, tail + "_" + instance);
    ModelsExactly(names, m);
    DeletedIfNotListed(Models(names), robots, m);
  }

  lemma {:induction false} DeletedIfNotListed(models: seq<Model>, robots: seq<Listed>, m: Model)
    requires m in models && !HasRobot(robots, m.robotId)
    ensures Delete(m) in GazeboToEdge(models, robots)
  {
    var n := |models| - 1;
    if models[n] != m {
      assert m in models[..n];
      DeletedIfNotListed(models[..n], robots, m);
    }
  }
}
