/** The Edge database as a value: its tables, the schema's UNIQUE and CHECK
    constraints, and what each public database call does to them. A call that
    violates a constraint leaves every table as it was. */
module Tables {

  datatype Option<+T> = None | Some(value: T)

  // Text columns with a fixed vocabulary; the last case is any other text.
  datatype TaskType = Load | Unload | OtherType(text: string)
  datatype TaskState =
    Pending | Accepted | Running | Succeeded | Failed | Cancelled | Interrupted | OtherState(text: string)
  datatype AllocState = InProgress | Completed | Aborted | OtherAlloc(text: string)
  datatype EventType = Status | CarryCompleted | CarryAborted | OtherEvent(text: string)

  datatype TaskGoods = TaskGoods(goodsId: string, name: string, quantity: int)
  datatype TransportTask = TransportTask(
    taskId: string, warehouseId: string, taskType: TaskType, robotIds: seq<string>,
    goods: seq<TaskGoods>, state: TaskState, goal: string, reason: string)
  datatype AmrEvent = AmrEvent(
    messageId: string, task: string, robot: string, eventType: EventType, taskState: string,
    request: string, goodsJson: string, reason: string, timestamp: string)

  // Table rows. A map is keyed by the table's PRIMARY KEY or UNIQUE columns; a
  // sequence is in the order of the AUTOINCREMENT id.
  datatype TaskRow = TaskRow(
    warehouseId: string, taskType: TaskType, state: TaskState, robotIds: seq<string>,
    goal: string, reason: string)
  datatype GoodsKey = GoodsKey(task: string, goods: string)
  datatype GoodsRow = GoodsRow(name: string, total: int)
  datatype StatusRow = StatusRow(total: int, inProgress: int, completed: int, pending: int)
  datatype Allocation = Allocation(
    request: string, task: string, goods: string, robot: string, quantity: int, state: AllocState)
  datatype TaskEvent = TaskEvent(task: string, state: TaskState, reason: string, source: string)
  datatype ReportKey = ReportKey(messageId: string, task: string, robot: string, eventType: EventType)

  datatype Db = Db(
    tasks: map<string, TaskRow>,
    goods: map<GoodsKey, GoodsRow>,
    status: map<GoodsKey, StatusRow>,
    allocs: seq<Allocation>,
    log: seq<TaskEvent>,
    reports: map<ReportKey, AmrEvent>)

  predicate IsActive(row: TaskRow) {
    row.state.Pending? || row.state.Accepted? || row.state.Running?
  }

  const EMPTY := Db(map[], map[], map[], [], [], map[])

  // ---- CHECK constraints -------------------------------------------------

  predicate TypeCheck(t: TaskType) { t.Load? || t.Unload? }

  predicate StatusCheck(r: StatusRow) {
    && r.total >= 0 && r.inProgress >= 0 && r.completed >= 0 && r.pending >= 0
    && r.total == r.inProgress + r.completed + r.pending
  }

  predicate AllocCheck(a: Allocation) { a.quantity > 0 && !a.state.OtherAlloc? }

  // ---- CreateTask ---------------------------------------------------------

  predicate DistinctGoods(goods: seq<TaskGoods>) {
    forall i, j | 0 <= i < j < |goods| :: goods[i].goodsId != goods[j].goodsId
  }

  predicate NonNegative(goods: seq<TaskGoods>) {
    forall i | 0 <= i < |goods| :: goods[i].quantity >= 0
  }

  function GoodsRows(task: string, goods: seq<TaskGoods>): map<GoodsKey, GoodsRow> {
    if goods == [] then map[]
    else
      var last := goods[|goods| - 1];
      GoodsRows(task, goods[..|goods| - 1])[GoodsKey(task, last.goodsId) := GoodsRow(last.name, last.quantity)]
  }

  function StatusRows(task: string, goods: seq<TaskGoods>): map<GoodsKey, StatusRow> {
    if goods == [] then map[]
    else
      var last := goods[|goods| - 1];
      StatusRows(task, goods[..|goods| - 1])
        [GoodsKey(task, last.goodsId) := StatusRow(last.quantity, 0, 0, last.quantity)]
  }

  predicate CanCreate(db: Db, t: TransportTask) {
    && t.taskId !in db.tasks && TypeCheck(t.taskType)
    && DistinctGoods(t.goods) && NonNegative(t.goods)
  }

  function NewTaskRow(t: TransportTask): TaskRow {
    TaskRow(t.warehouseId, t.taskType, t.state, t.robotIds, t.goal, t.reason)
  }

  function CreateTask(db: Db, t: TransportTask): Db {
    if !CanCreate(db, t) then db
    else
      db.(tasks := db.tasks[t.taskId := NewTaskRow(t)],
      goods := db.goods + GoodsRows(t.taskId, t.goods),
      status := db.status + StatusRows(t.taskId, t.goods),
      log := db.log + [TaskEvent(t.taskId, t.state, t.reason, "HTTP")])
  }

  // ---- ApproveGoodsAllocation -------------------------------------------

  predicate Allocated(allocs: seq<Allocation>, request: string, robot: string) {
    exists i :: 0 <= i < |allocs| && allocs[i].request == request && allocs[i].robot == robot
  }

  predicate CanApprove(db: Db, request: string, key: GoodsKey, robot: string, quantity: int) {
    && key in db.status && 0 < quantity <= db.status[key].pending
    && !Allocated(db.allocs, request, robot)
  }

  function Approve(db: Db, request: string, key: GoodsKey, robot: string, quantity: int): Db {
    if !CanApprove(db, request, key, robot, quantity) then db
    else
      var row := db.status[key];
      db.(status := db.status[key :=
        row.(inProgress := row.inProgress + quantity, pending := row.pending - quantity)],
      allocs := db.allocs + [Allocation(request, key.task, key.goods, robot, quantity, InProgress)])
  }

  // ---- SettleGoodsAllocation ---------------------------------------------

  predicate IsOpen(a: Allocation, request: string, robot: string) {
    a.request == request && a.robot == robot && a.state.InProgress?
  }

  predicate HasOpen(allocs: seq<Allocation>, request: string, robot: string) {
    exists i :: 0 <= i < |allocs| && IsOpen(allocs[i], request, robot)
  }

  // The row the SELECT returns, or the table's length when there is none.
  function FindOpen(allocs: seq<Allocation>, request: string, robot: string): (i: nat)
    ensures i <= |allocs|
    ensures i < |allocs| ==> IsOpen(allocs[i], request, robot)
    ensures forall j | 0 <= j < i :: !IsOpen(allocs[j], request, robot)
    ensures HasOpen(allocs, request, robot) <==> i < |allocs|
  {
    if allocs == [] then 0
    else if IsOpen(allocs[0], request, robot) then 0
    else
      var rest := FindOpen(allocs[1..], request, robot);
      assert forall j | 1 <= j < |allocs| :: allocs[j] == allocs[1..][j - 1];
      rest + 1
  }

  function KeyOf(a: Allocation): GoodsKey { GoodsKey(a.task, a.goods) }

  function SettledRow(row: StatusRow, quantity: int, state: AllocState): StatusRow {
    if state.Completed?
    then row.(inProgress := row.inProgress - quantity, completed := row.completed + quantity)
    else row.(inProgress := row.inProgress - quantity, pending := row.pending + quantity)
  }

  predicate CanSettle(db: Db, request: string, robot: string, state: AllocState) {
    && (state.Completed? || state.Aborted?)
    && HasOpen(db.allocs, request, robot)
    && var a := db.allocs[FindOpen(db.allocs, request, robot)];
       && KeyOf(a) in db.status
       && StatusCheck(SettledRow(db.status[KeyOf(a)], a.quantity, state))
  }

  function Settle(db: Db, request: string, robot: string, state: AllocState): Db {
    if !CanSettle(db, request, robot, state) then db
    else
      var i := FindOpen(db.allocs, request, robot);
      var a := db.allocs[i];
      db.(status := db.status[KeyOf(a) := SettledRow(db.status[KeyOf(a)], a.quantity, state)],
      allocs := db.allocs[i := a.(state := state)])
  }

  // ---- UpdateTaskState, UpdateTaskStateWithEvent, InsertAmrTaskStatusEvent --

  // An UPDATE whose WHERE matches no row still succeeds.
  function SetState(db: Db, task: string, state: TaskState, reason: string): Db {
    if task !in db.tasks then db
    else db.(tasks := db.tasks[task := db.tasks[task].(state := state, reason := reason)])
  }

  function SetStateLogged(db: Db, task: string, state: TaskState, reason: string, source: string): Db {
    SetState(db, task, state, reason).(log := db.log + [TaskEvent(task, state, reason, source)])
  }

  function KeyOfReport(e: AmrEvent): ReportKey { ReportKey(e.messageId, e.task, e.robot, e.eventType) }

  // INSERT OR IGNORE: a duplicate key and an event type outside the CHECK are
  // both skipped in silence.
  function RecordReport(db: Db, e: AmrEvent): Db {
    if KeyOfReport(e) in db.reports || e.eventType.OtherEvent? then db
    else db.(reports := db.reports[KeyOfReport(e) := e])
  }

  // ---- Runs of database calls ---------------------------------------------

  datatype Call =
    | CallCreate(t: TransportTask)
    | CallApprove(request: string, key: GoodsKey, robot: string, quantity: int)
    | CallSettle(request: string, robot: string, outcome: AllocState)
    | CallSetState(task: string, state: TaskState, reason: string)
    | CallSetStateLogged(task: string, state: TaskState, reason: string, source: string)
    | CallRecord(e: AmrEvent)

  function Exec(db: Db, c: Call): Db {
    match c
    case CallCreate(t) => CreateTask(db, t)
    case CallApprove(request, key, robot, quantity) => Approve(db, request, key, robot, quantity)
    case CallSettle(request, robot, outcome) => Settle(db, request, robot, outcome)
    case CallSetState(task, state, reason) => SetState(db, task, state, reason)
    case CallSetStateLogged(task, state, reason, source) => SetStateLogged(db, task, state, reason, source)
    case CallRecord(e) => RecordReport(db, e)
  }

  // Every interleaving of threads that share the database mutex is such a run.
  function ExecAll(db: Db, calls: seq<Call>): Db
    decreases |calls|
  {
    if calls == [] then db else ExecAll(Exec(db, calls[0]), calls[1..])
  }
}
