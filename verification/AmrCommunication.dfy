/** The Edge's handlers of the robots' task messages: act on the database, then
    publish. A message that does not decode is dropped without a reply. */
module AmrCommunicationModule {
  import opened Tables
  import opened TaskRules
  import opened TaskLifecycle
  import opened SqliteDb
  import opened StateMessages
  import opened OperationMeanings
  import opened TaskServiceModule
  import opened PendingReports
  import opened Delivery

  // One entry of the answer to an application.
  datatype ReplyGoods = ReplyGoods(goodsId: string, name: string, quantity: int, accepted: bool)

  datatype Published =
    | TaskStateOf(task: string, message: StateMessage)
    | GoodsReply(robot: string, request: string, task: string, accepted: bool, reason: string, goods: seq<ReplyGoods>)
    | StatusAck(robot: string, ackedIds: seq<string>)

  function IfAny(task: string, state: Option<StateMessage>): seq<Published> {
    if state.None? then [] else [TaskStateOf(task, state.value)]
  }

  /** The answer goes to the applicant. Accepted, it lists what was asked for,
      and that is what the request now holds for the robot; refused, it lists
      nothing and says why. */
  ghost predicate Answers(db: Db, req: ApplyRequest, d: Db, p: Published) {
    && p.GoodsReply? && p.robot == req.robot && p.request == req.request && p.task == req.task
    && ApplicationAnswers(db, req, ApplyResult(p.accepted, p.reason, if p.accepted then req.goods else []))
    && (if p.accepted then
          && |p.goods| == |req.goods|
          && (forall i | 0 <= i < |p.goods| :: var asked := req.goods[i];
                p.goods[i] == ReplyGoods(asked.goodsId, asked.name, asked.quantity, true))
          && d.allocs == db.allocs + seq(|p.goods|, i requires 0 <= i < |p.goods| =>
               Allocation(req.request, req.task, p.goods[i].goodsId, req.robot, p.goods[i].quantity, InProgress))
        else p.goods == [])
  }

  class AmrCommunication {
    const service: TaskService
    var published: seq<Published>

    constructor (service: TaskService)
      ensures this.service == service && published == []
    {
      this.service := service;
      published := [];
    }

    // Handles the report, then tells the task's state, then acknowledges the
    // report, whether or not it was accepted.
    method RobotTaskStatusHandler(msg: Option<AmrEvent>) returns (ghost state: Option<StateMessage>)
      requires service.db.Valid()
      modifies service.db, this`published
      ensures service.db.Valid()
      ensures msg.None? ==> service.db.State() == old(service.db.State()) && published == old(published)
      ensures msg.Some? ==> var e := msg.value;
        && service.db.State() == Do(old(service.db.State()), HandlingStep(StatusPayload(e)))
        && ReportRecords(old(service.db.State()), e, service.db.State())
        && ReportMoves(old(service.db.State()), e, service.db.State())
        && ReportWrites(old(service.db.State()), e, service.db.State())
        && TellsState(service.db.State(), e.task, state)
        && published == old(published) + IfAny(e.task, state) + [StatusAck(e.robot, [e.messageId])]
    {
      hide SQLiteDB.Valid, Report, TellsState, ReportRecords, ReportMoves, ReportWrites;
      state := None;
      if msg.None? {
        return;
      }
      var e := msg.value;
      var _ := service.HandleAmrTaskStatus(e);
      var told := service.BuildTaskStateMessage(e.task);
      if told.Some? {
        published := published + [TaskStateOf(e.task, told.value)];
      }
      published := published + [StatusAck(e.robot, [e.messageId])];
      state := told;
    }

    // Handles the application, then answers it, then tells the task's state.
    method RobotGoodsRequestHandler(msg: Option<ApplyRequest>)
      returns (ghost reply: Option<Published>, ghost state: Option<StateMessage>)
      requires service.db.Valid()
      modifies service.db, this`published
      ensures service.db.Valid()
      ensures msg.None? ==> service.db.State() == old(service.db.State()) && published == old(published)
      ensures msg.Some? ==> var req := msg.value;
        && service.db.State() == Do(old(service.db.State()), StepApply(req))
        && reply.Some? && Answers(old(service.db.State()), req, service.db.State(), reply.value)
        && ApplicationStores(old(service.db.State()), req, reply.value.accepted, service.db.State())
        && TellsState(service.db.State(), req.task, state)
        && published == old(published) + [reply.value] + IfAny(req.task, state)
    {
      hide SQLiteDB.Valid, Apply, TellsState, ApplicationAnswers, ApplicationStores, Answers;
      reply, state := None, None;
      if msg.None? {
        return;
      }
      var req := msg.value;
      var _, result := service.HandleGoodsApply(req);
      var goods := [];
      for i := 0 to |result.goods|
        invariant |goods| == i
        invariant forall j | 0 <= j < i :: var g := result.goods[j];
          goods[j] == ReplyGoods(g.goodsId, g.name, g.quantity, result.accepted)
      {
        var item := result.goods[i];
        goods := goods + [ReplyGoods(item.goodsId, item.name, item.quantity, result.accepted)];
      }
      var answer := GoodsReply(req.robot, req.request, req.task, result.accepted, result.reason, goods);
      AnswersRight(old(service.db.State()), req, service.db.State(), result, goods);
      published := published + [answer];
      reply := Some(answer);
      var told := service.BuildTaskStateMessage(req.task);
      if told.Some? {
        published := published + [TaskStateOf(req.task, told.value)];
      }
      state := told;
    }
  }

  lemma AnswersRight(db: Db, req: ApplyRequest, d: Db, result: ApplyResult, goods: seq<ReplyGoods>)
    requires ApplicationAnswers(db, req, result) && ApplicationStores(db, req, result.accepted, d)
    requires |goods| == |result.goods| && forall i | 0 <= i < |goods| :: var g := result.goods[i];
      goods[i] == ReplyGoods(g.goodsId, g.name, g.quantity, result.accepted)
    ensures Answers(db, req, d, GoodsReply(req.robot, req.request, req.task, result.accepted, result.reason, goods))
  {
    hide FirstIsFree, SoundGoods;
    if result.accepted {
      assert d.allocs == db.allocs
        + [Allocation(req.request, req.task, goods[0].goodsId, req.robot, goods[0].quantity, InProgress)];
    }
  }
}
