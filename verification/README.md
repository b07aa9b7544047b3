# AMR warehouse: a verified model of the goods ledger, the task lifecycle and the protocols around them

The Edge server keeps a ledger of goods: how many units of each goods item of a
task are pending, in progress on some robot, or completed. HTTP requests create
and cancel tasks, robots apply for goods and report what became of them over an
at-least-once MQTT link, and a timer interrupts tasks whose robots are all
abnormal. This project models that ledger and the task states above it, the
robots' durable outbox, MQTT topic routing, robot identity with idle-point
allocation, and the reconciliation of the simulation with the Edge, and proves
what they keep.

`dafny verify dfyconfig.toml` checks all of it.

## How the model is laid out

| file | content |
|---|---|
| `Tables.dfy` | the Edge database as a value: tables, UNIQUE and CHECK constraints, the meaning of each database call, runs of calls |
| `Ledger.dfy` | every quantity is a sum over the allocation table, after any run of calls |
| `SqliteDb.dfy` | the database object: statements one by one inside BEGIN/COMMIT/ROLLBACK, proved against `Tables` |
| `TaskRules.dfy` | what each service operation does, and the invariant every issued call keeps |
| `TaskLifecycle.dfy` | runs of operations: states climb, SUCCEEDED means completed, terminal states, the audit log |
| `CallMeanings.dfy`, `OperationMeanings.dfy` | what each database call and each service operation answers and does, spelled out over its arguments and the tables |
| `Allocations.dfy` | approved once, settled once, final; what an application for goods does exactly |
| `Settlement.dfy` | order and repeats of reports do not matter |
| `StateMessages.dfy` | the published state of a task: totals that are sums of their own columns and what the ledger holds |
| `TaskService.dfy`, `Heartbeat.dfy`, `AmrCommunication.dfy` | the service, the heartbeat check and the MQTT handlers as objects, proved against the rules |
| `Completion.dfy` | which tasks can still become SUCCEEDED, with the run that brings them there |
| `Interleaving.dfy`, `Operations.dfy` | threads that share only the database mutex, with stale snapshots and restarts; an uninterrupted operation is the whole step |
| `Staleness.dfy`, `Reopening.dfy` | which suspended operations can take a task out of SUCCEEDED, and out of a terminal state |
| `Announcements.dfy`, `Answers.dfy` | what can keep a completed task out of the audit log as SUCCEEDED, and out of the stored state SUCCEEDED; what is lost stays lost |
| `Witnesses.dfy` | reachable states in which the exceptions occur |
| `PendingReports.dfy`, `Delivery.dfy`, `CrashDelivery.dfy` | the outbox file and the bridge; the report protocol over a dropping, duplicating, reordering network, with whole handlers and with handlers that run call by call and may be cut short |
| `Topics.dfy` | splitting and matching of topics as in section 4.7 of MQTT Version 3.1.1 (without the `$` rule of section 4.7.2), and the five registered filters |
| `IdlePoints.dfy`, `Robots.dfy`, `RobotPoints.dfy`, `RobotService.dfy` | the allocator, the registry and its rows, who stands at which point, and the objects that do it |
| `SimSync.dfy`, `RobotSync.dfy` | model names, one synchronisation, any number of them, and the objects that compute it |

A transaction is a snapshot that ROLLBACK restores. A statement fails only when
a constraint of the schema refuses it. Each public database method is one atomic
step, because it holds the database mutex from beginning to end; an interleaving
of threads is a sequence of such steps. Robots are arbitrary senders.

## Where the code differs from its documents

The model follows the code.

- A replayed report is not recognised by the event table: `INSERT OR IGNORE`
  succeeds on a duplicate, and also drops rows whose event type the CHECK
  refuses (`edge_server/src/database/sqlite_db.cpp:1291-1322`). Replays are
  harmless because settling looks for an allocation that is still `IN_PROGRESS`
  (`Allocations.LateReportChangesNothing`, `Settlement.RepeatsChangeNothing`).
- The interface contract has the Edge judge each goods item of an application
  separately (`docs/requirements/interface-contract.md:388`). With
  `UNIQUE(request_id, robot_id)` the second item always fails, after the first
  one is committed: `Allocations.ApplyExactly`, `Allocations.RefusalIsCleanExactly`,
  and `Witnesses.ARefusalMovesTheLedger` for an input.
- Terminal states are not to be rolled back by old messages
  (`docs/architecture/task-state-machine.md:56`). As whole operations, a late
  `CARRY_COMPLETED` turns CANCELLED, INTERRUPTED or FAILED into SUCCEEDED, exactly
  when `TaskLifecycle.TerminalIsLeftExactly` says
  (`Witnesses.ACancelledTaskSucceeds`). Between threads SUCCEEDED can be
  overwritten, exactly when `Staleness.SucceededCanBeLeftExactly` says
  (`Witnesses.ASuccessIsOverwritten`), and any terminal state can be taken back to
  ACCEPTED or RUNNING, exactly when `Reopening.TerminalCanBeLeftExactly` says
  (`Witnesses.ACancellationIsOverwritten`).
- Updates are to be ordered by timestamp
  (`docs/requirements/interface-contract.md:568`). No timestamp is compared
  (`Settlement.TimestampsAreIgnored`, `Witnesses.AnyReportOverwrites`).
- A SUCCEEDED task always has everything completed. The converse is lost by
  exactly three steps (`Answers.AnsweredExactly`, `Answers.CompletedTasksAreAnswered`):
  a carry report completes a task that it does not name and nothing answers
  (`Witnesses.ANamingLosesSuccess`, for whole operations
  `TaskLifecycle.ReportKeepsDoneExactly` and `Witnesses.AReportFinishesElsewhere`),
  the Edge stops while a completed task is not yet SUCCEEDED
  (`Witnesses.ASuccessIsLost`), or a stale operation writes over SUCCEEDED
  (`Witnesses.ASuccessIsOverwritten`). What is lost is regained only by the
  settling of other units' completion that names the task
  (`Answers.LostIsAnsweredExactly`).
- Applications for goods are put in the outbox like reports but are never
  acknowledged, so they stay there (`Delivery.StoredApplicationStays`).
- A robot that never registered counts as abnormal
  (`edge_server/src/edge_server_app.cpp:228-232`).
- A robot id with `_`, such as the `robot_01` of the documents, does not survive
  being written into a model name (`SimSync.ConvergesExactly`,
  `SimSync.UnderscoreRobotIsLost`); one with `/` does not reach its handlers
  (`Topics.RoutesHomeExactly`).

## Model

| member | source | states |
|---|---|---|
| `Ledger.LedgerAlwaysBalances` | edge_server/src/database/sqlite_db.cpp:188-218 | after any sequence of database calls with any arguments, each row's in_progress and completed are the sums of its IN_PROGRESS and COMPLETED allocations, pending is the rest, none is negative, and a request and robot own at most one allocation |
| `Ledger.CallKeepsLedger` | edge_server/src/database/sqlite_db.cpp:847-1511 | each single call keeps that ledger, whatever its arguments |
| `Ledger.SettleNeverRollsBack` | edge_server/src/database/sqlite_db.cpp:1408-1511 | in a state the ledger explains, settling succeeds exactly when an IN_PROGRESS allocation of the request and robot exists: no CHECK can fire |
| `Ledger.CreateOpensLedger` | edge_server/src/database/sqlite_db.cpp:928-974 | a creation leaves one goods row and one all-pending status row per goods item, and no other row of the task, and leaves every other task's rows alone |
| `Ledger.SettlingUndoesApproval` | edge_server/src/database/sqlite_db.cpp:1325-1511 | an approval followed by an abort leaves every quantity as it was, followed by a completion it moves exactly the quantity from pending to completed; either way one settled allocation is recorded |
| `Ledger.HeldUpdate` | edge_server/src/database/sqlite_db.cpp:1446-1450 | changing one allocation row changes each sum over the table by that row's weight |
| `Ledger.AllocFacts` | edge_server/src/database/sqlite_db.cpp:205-218 | every allocation has its status row, and an open one is covered by that row's in_progress |
| `SqliteDb.SQLiteDB.CreateTask` | edge_server/src/database/sqlite_db.cpp:847-1012 | succeeds exactly when the task id is not stored, the type is LOAD or UNLOAD, goods ids are pairwise distinct and quantities non-negative, and then stores the task row, one goods row and one all-pending status row for each item, and one log row; otherwise no table changes |
| `SqliteDb.SQLiteDB.InsertTaskRows` | edge_server/src/database/sqlite_db.cpp:858-1011 | the transaction's loop of INSERTs, refused by a constraint half-way, restores every table |
| `SqliteDb.SQLiteDB.ApproveGoodsAllocation` | edge_server/src/database/sqlite_db.cpp:1325-1406 | approved exactly when the row exists, 0 < quantity <= pending, and no allocation of that request and robot exists; then the quantity moves from pending to in_progress and one IN_PROGRESS allocation is appended, otherwise no table changes |
| `SqliteDb.SQLiteDB.SettleGoodsAllocation` | edge_server/src/database/sqlite_db.cpp:1408-1511 | succeeds exactly when the outcome is COMPLETED or ABORTED and the request has an IN_PROGRESS allocation of the robot; that allocation gets the outcome and its quantity moves from in_progress to completed or back to pending, otherwise no table changes |
| `SqliteDb.SQLiteDB.SelectOpen` | edge_server/src/database/sqlite_db.cpp:1421-1437 | the scan returns the first IN_PROGRESS allocation of the request and robot |
| `SqliteDb.SQLiteDB.UpdateTaskState` | edge_server/src/database/sqlite_db.cpp:1154-1176 | writes one task's state and reason, nothing else; a missing task is no error |
| `SqliteDb.SQLiteDB.UpdateTaskStateWithEvent` | edge_server/src/database/sqlite_db.cpp:1218-1283 | the same and one row in the audit log, in one step |
| `SqliteDb.SQLiteDB.InsertAmrTaskStatusEvent` | edge_server/src/database/sqlite_db.cpp:1285-1323 | always succeeds; adds the row unless its key is taken or its type is refused by the CHECK |
| `SqliteDb.SQLiteDB.GetActiveTasks` | edge_server/src/database/sqlite_db.cpp:1116-1152 | lists exactly the PENDING, ACCEPTED and RUNNING tasks, each once, with their warehouse, type, state and robots |
| `SqliteDb.SQLiteDB.GetTaskGoodsStatus` | edge_server/src/database/sqlite_db.cpp:1178-1216 | lists exactly the task's status rows, each once, and fails exactly when there are none |
| `TaskRules.CallGrows` | edge_server/src/database/sqlite_db.cpp:1325-1511 | "nothing pending, nothing in progress" is stable under every call with any arguments, and so are a task's existence and robots |
| `TaskRules.CallKeepsSafe` | edge_server/src/service/task_service.cpp:79-384 | every call the service issues, with the arguments it gives it, keeps ledger, sound SUCCEEDED, robots assigned, log explaining states |
| `OperationMeanings.CreationMeans` | edge_server/src/service/task_service.cpp:39-131 | the error code of a creation, each exactly under its condition on task and database, and every row a successful one stores: PENDING, under the given warehouse |
| `OperationMeanings.CancelMeans` | edge_server/src/service/task_service.cpp:138-161 | 41005 exactly for an unknown task, 41006 exactly for one in a terminal state, otherwise CANCELLED with the reason of the API and nothing else changed |
| `OperationMeanings.ApplicationMeans` | edge_server/src/service/task_service.cpp:184-248 | the reason of each refusal exactly under its condition, an accepted answer listing exactly the requested goods, and the rows of every table afterwards |
| `OperationMeanings.ReportMeans` | edge_server/src/service/task_service.cpp:250-324 | for any report: it is recorded unless its key is taken or its type unknown, a carry report settles exactly its request's open allocation, and the state written, if any, with reason and source |
| `TaskServiceModule.TaskService.CreateTask` | edge_server/src/service/task_service.cpp:39-131 | which error code exactly when, over the request and the stored tasks; otherwise success with the task PENDING under the Edge's warehouse, every goods item all pending and one log row |
| `TaskServiceModule.TaskService.CancelTask` | edge_server/src/service/task_service.cpp:138-182 | 41005 exactly for an unknown task, 41006 exactly for one SUCCEEDED, FAILED, CANCELLED or INTERRUPTED, otherwise CANCELLED by the API without a log row |
| `TaskServiceModule.TaskService.HandleGoodsApply` | edge_server/src/service/task_service.cpp:184-248 | accepted exactly when the request is well formed, names a task of the robot and one item of which enough is pending, and is new; then the answer lists exactly the requested goods and they are allocated to that request and robot; refused, it lists none and the reason says which guard failed |
| `TaskServiceModule.TaskService.HandleAmrTaskStatus` | edge_server/src/service/task_service.cpp:250-324 | false exactly when a carry report finds no open allocation of its request and robot; what is recorded, settled and written as the task's state is spelled out over report and tables |
| `TaskServiceModule.TaskService.FinishIfDone` | edge_server/src/service/task_service.cpp:294-321 | writes SUCCEEDED, and its log row, exactly when the task exists, has goods and none is pending or in progress; nothing else changes |
| `TaskServiceModule.TaskService.BuildTaskStateMessage` | edge_server/src/service/task_service.cpp:326-370 | the published message names the task, its warehouse and state; each total is the sum of its own column over the task's rows, in_progress is what its IN_PROGRESS allocations hold, completed what its COMPLETED ones hold, pending the rest; all is completed whenever it says SUCCEEDED |
| `StateMessages.TotalsBalance` | edge_server/src/service/task_service.cpp:337-357 | the four column sums of balanced rows balance and show nothing outstanding exactly when no row does |
| `StateMessages.TotalsAreTheLedgers` | edge_server/src/service/task_service.cpp:337-357 | summed over the rows of a task, in_progress and completed are the quantities of the task's IN_PROGRESS and COMPLETED allocations |
| `StateMessages.AccumulatorsStayBelowTotal` | edge_server/src/service/task_service.cpp:353-356 | no running sum ever exceeds the grand total |
| `StateMessages.ListingDecidesDone` | edge_server/src/service/task_service.cpp:298-311 | the rows read back decide whether the task is done |
| `HeartbeatModule.HeartbeatInterruptsExactly` | edge_server/src/edge_server_app.cpp:213-262 | one beat interrupts exactly the active tasks that have robots, none of them known and healthy; every other task row is untouched |
| `HeartbeatModule.EdgeServerApp.AllRobotsAbnormal` | edge_server/src/edge_server_app.cpp:227-245 | true exactly when the task has robots and each is absent from the registry, not online, OFFLINE, in ERROR, or last heard of more than 300 s ago |
| `HeartbeatModule.EdgeServerApp.CheckAmrHeartbeat` | edge_server/src/edge_server_app.cpp:213-262 | a beat interrupts, with reason ALL_AMRS_ABNORMAL, exactly the PENDING, ACCEPTED and RUNNING tasks that have robots each of which is absent from the registry, not online, OFFLINE, in ERROR or silent for more than 300 s; all other rows are untouched; the true state of each such task that has goods is published once, and no other |
| `AmrCommunicationModule.AmrCommunication.RobotTaskStatusHandler` | edge_server/src/communication/amr_communication.cpp:232-273 | records, settles and writes what the report says, spelled out over report and tables; publishes the true state of the task, then acknowledges exactly that message id, accepted or not |
| `AmrCommunicationModule.AmrCommunication.RobotGoodsRequestHandler` | edge_server/src/communication/amr_communication.cpp:171-230 | the reply to the robot lists as accepted exactly the requested goods, which are those newly allocated to that request and robot, or lists none with the reason of the refusal; then the true state is published |
| `TaskLifecycle.StepKeeps` | edge_server/src/service/task_service.cpp:138-384 | every operation keeps the safety invariant and moves no state down or sideways in PENDING < ACCEPTED < RUNNING < CANCELLED, INTERRUPTED, FAILED < SUCCEEDED |
| `TaskLifecycle.AtMostFourChanges` | edge_server/src/service/task_service.cpp:138-384 | a task changes state at most four times in any run of operations, and once SUCCEEDED stays SUCCEEDED |
| `TaskLifecycle.SucceededExactlyWhenCompleted` | edge_server/src/service/task_service.cpp:294-321 | in every run whose carry reports name their allocation's own task, a task is SUCCEEDED exactly when every unit is completed |
| `TaskLifecycle.ReportKeepsDoneExactly` | edge_server/src/service/task_service.cpp:259-320 | a report keeps "completed means SUCCEEDED" exactly when it does not complete the last units of a task it does not name |
| `TaskLifecycle.TerminalIsLeftExactly` | edge_server/src/service/task_service.cpp:148-154 | a terminal state changes exactly by a completion that leaves the named task with nothing outstanding, and then to SUCCEEDED |
| `TaskLifecycle.DoneMeansCompleted` | edge_server/src/service/task_service.cpp:301-309 | nothing pending and nothing in progress is the same as everything completed |
| `TaskLifecycle.AuditLogExplainsStates` | edge_server/src/database/sqlite_db.cpp:1218-1283 | in every reachable state a task's state is the last one logged for it, or the API cancelled it |
| `Allocations.StepIsCalls` | edge_server/src/service/task_service.cpp:184-324 | every operation acts on the database by public calls only |
| `Allocations.SettledIsFinal` | edge_server/src/database/sqlite_db.cpp:1446-1469 | a settled allocation never changes again, in any run of calls |
| `Allocations.LateReportChangesNothing` | edge_server/src/service/task_service.cpp:252-278 | a later carry report for a settled request and robot, anywhere in any run, leaves ledger, tasks and log unchanged |
| `Allocations.ApplyExactly` | edge_server/src/service/task_service.cpp:219-236 | accepted exactly when one goods item is asked for and can be approved; the ledger moves exactly when the first item can |
| `Allocations.RefusalIsCleanExactly` | edge_server/src/service/task_service.cpp:219-233 | a refusal leaves the ledger alone unless several items are asked for and the first is available |
| `Allocations.ReplayedApplyMovesNothing` | edge_server/src/database/sqlite_db.cpp:1369-1402 | replaying a request that moved units, at any later time, moves nothing and is refused |
| `Allocations.EmptyRequestIdIsStuck` | edge_server/src/service/task_service.cpp:261-265 | goods approved under an empty request id keep the task from SUCCEEDED for ever |
| `Completion.OpenCanBeSettledExactly` | edge_server/src/service/task_service.cpp:259-278 | an open allocation has a report that settles it exactly when its request id is not empty |
| `Completion.CanSucceedExactly` | edge_server/src/service/task_service.cpp:184-324 | in every reachable state a task that is not SUCCEEDED, active or not, is brought there by some run whose carry reports name their own task exactly when it is not already completed, no unit is held under an empty request id, and it has a robot with a non-empty id or nothing pending |
| `Completion.DriveToSuccess` | edge_server/src/service/task_service.cpp:184-324 | constructs such a run |
| `Allocations.UnassignedReportMovesNothing` | edge_server/src/service/task_service.cpp:212-278 | no report from a robot outside the task's robot_ids changes the task's quantities |
| `Allocations.UnassignedApplyMovesNothing` | edge_server/src/service/task_service.cpp:212-217 | nor does an application of such a robot |
| `Allocations.FirstReportIsKept` | edge_server/src/database/sqlite_db.cpp:1291-1322 | the event table keeps the first row written under a key, in any run of calls |
| `Settlement.StreamDecidesFates` | edge_server/src/service/task_service.cpp:250-278 | after any stream of reports each allocation has the outcome of its first carry report, or is untouched |
| `Settlement.OrderDoesNotChangeLedger` | edge_server/src/database/sqlite_db.cpp:1408-1511 | streams of reports whose carry reports are for pairwise different requests give the same ledger in every order |
| `Settlement.OrderDoesNotChangeStates` | edge_server/src/service/task_service.cpp:250-324 | and, the carry reports naming their own tasks, the same task states from any safe state: SUCCEEDED where the reports complete the task, else ACCEPTED where it was PENDING and a report accepts it, else unchanged |
| `Settlement.RepeatsChangeNothing` | edge_server/src/service/task_service.cpp:252-278 | a stream and the stream without its repeats end in the same ledger, task states and audit log |
| `Settlement.DropRepeatsHasNone` | edge_server/src/service/task_service.cpp:252-278 | the stream without repeats has none and is part of the stream |
| `Settlement.TimestampsAreIgnored` | edge_server/src/service/task_service.cpp:250-324 | two streams that differ only in timestamps lead to the same ledger, task states and audit log |
| `Interleaving.EveryInterleavingIsSafe` | edge_server/src/service/task_service.cpp:138-384 | under every interleaving of database calls, with stale snapshots and restarts, the ledger balances, SUCCEEDED means completed, robots are assigned and the log explains every state |
| `Staleness.SucceededCanBeLeftExactly` | edge_server/src/service/task_service.cpp:138-161 | from a state in which a task is SUCCEEDED some run takes it out exactly when a suspended operation is stale for it: a cancellation or acceptance of it, an application past its goods that saw it PENDING or ACCEPTED, or a beat that still has it ahead |
| `Staleness.NextKeepsSucceeded` | edge_server/src/service/task_service.cpp:138-384 | no operation becomes stale for a task that is SUCCEEDED, and without a stale one it stays so |
| `Staleness.CancellationOverwritesSuccess` | edge_server/src/service/task_service.cpp:138-161 | wherever a report is about to complete a task, a cancellation that read it earlier can write CANCELLED over the stored SUCCEEDED |
| `Announcements.AnnouncedExactly` | edge_server/src/service/task_service.cpp:269-319 | a step keeps every completed task announced, by a SUCCEEDED row in the audit log or an operation about to write it, exactly when it is neither a stop of the Edge while a completed task has no such row nor the settling of the last units of a task its report does not name and nothing else announces |
| `Announcements.CompletedTasksAreAnnounced` | edge_server/src/service/task_service.cpp:294-321 | along a run every completed task is so announced in every state exactly when no step is one of these two |
| `Announcements.RestartLosesSuccess` | edge_server/src/service/task_service.cpp:269-319 | wherever a report is about to complete a task, a stop right after the settlement leaves the task completed and not SUCCEEDED |
| `Announcements.CompletedSucceedsExactly` | edge_server/src/service/task_service.cpp:294-321 | a completed task that is not SUCCEEDED becomes so exactly by a completion of other units that names it |
| `Announcements.UnannouncedStaysUnannounced` | edge_server/src/service/task_service.cpp:269-319 | a completed task that is not SUCCEEDED is never SUCCEEDED in a run of operations whose carry reports name their own task |
| `Announcements.OperationsNeverRegain` | edge_server/src/service/task_service.cpp:269-319 | so what a stop right after a settlement loses stays lost in every such run of operations |
| `Answers.AnsweredExactly` | edge_server/src/service/task_service.cpp:138-384 | a step keeps every completed task SUCCEEDED, or some operation about to make it so, exactly when it is none of three: a stop of the Edge while a completed task is not SUCCEEDED, the settling of the last units of a task its report does not name and nothing answers, a write over SUCCEEDED that no operation is about to make good |
| `Answers.CompletedTasksAreAnswered` | edge_server/src/service/task_service.cpp:138-384 | along a run this holds in every state exactly when no step is one of the three, and then, whenever no operation is under way, a task is SUCCEEDED exactly when every unit is completed |
| `Answers.LostIsAnsweredExactly` | edge_server/src/service/task_service.cpp:294-319 | a completed task that is neither SUCCEEDED nor about to be is answered again exactly by the settling of a completion that names it |
| `Answers.LostStaysLost` | edge_server/src/service/task_service.cpp:269-319 | and is never SUCCEEDED in a run of threads and stops whose carry reports name their own task |
| `Answers.RestartLosesForGood` | edge_server/src/service/task_service.cpp:269-319 | so what a stop right after a settlement loses is lost in every such run |
| `Reopening.TerminalIsLeftByCallExactly` | edge_server/src/service/task_service.cpp:238-245 | one call takes a task out of a terminal state exactly when it is the last call of an acceptance of it, or of an application that read it PENDING or ACCEPTED |
| `Reopening.TerminalCanBeLeftExactly` | edge_server/src/service/task_service.cpp:219-292 | from a state in which a task is terminal some run of threads takes it back to ACCEPTED or RUNNING exactly when a suspended acceptance of it exists, or a suspended application that read it PENDING or ACCEPTED and has no item, or one obtainable last item, left to approve |
| `Reopening.NextKeepsTerminal` | edge_server/src/service/task_service.cpp:219-292 | without such an operation the task stays terminal and none comes to be |
| `Reopening.DriveApplying` | edge_server/src/service/task_service.cpp:219-245 | constructs the run by which such an application writes RUNNING |
| `Operations.OperationAloneIsStep` | edge_server/src/service/task_service.cpp:39-384 | an operation's database calls, run without interruption, do exactly what the whole operation says |
| `Operations.StepIsUninterruptedRun` | edge_server/src/service/task_service.cpp:39-384 | the threaded system can do each whole operation in one stretch and leave the other threads where they were |
| `PendingReports.SaveLoadRoundTrip` | robot_ws/src/amr_agent/src/persist/pending_report_store.cpp:54-114 | saved reports are loaded back, in order |
| `PendingReports.WithoutExactly` | robot_ws/src/amr_agent/src/persist/pending_report_store.cpp:37-52 | removal keeps exactly the reports whose id was not acknowledged |
| `PendingReports.WithoutInOrder` | robot_ws/src/amr_agent/src/persist/pending_report_store.cpp:37-52 | and the reports that stay keep their order |
| `PendingReports.StoreKeepsDistinctIds` | robot_ws/src/amr_agent/src/persist/pending_report_store.cpp:17-52 | no two stored reports share an id, and adding keeps the order |
| `PendingReports.FlushedExactly` | robot_ws/src/amr_agent/src/bridge/task_bridge.cpp:227-239 | a flush hands over exactly the stored reports the broker takes, when connected |
| `PendingReports.FlushedInOrder` | robot_ws/src/amr_agent/src/bridge/task_bridge.cpp:227-239 | and they are sent in the order in which they were stored |
| `PendingReports.PendingReportStore.Add` | robot_ws/src/amr_agent/src/persist/pending_report_store.cpp:17-35 | load, look for the id, append, rewrite: the readable contents gain the report unless its id is taken |
| `PendingReports.PendingReportStore.RemoveByMessageIds` | robot_ws/src/amr_agent/src/persist/pending_report_store.cpp:37-52 | load, erase, rewrite: the contents lose exactly the given ids |
| `PendingReports.PendingReportStore.Load` | robot_ws/src/amr_agent/src/persist/pending_report_store.cpp:54-81 | a missing file, or one that does not parse, is empty; entries without id or topic are skipped |
| `PendingReports.TaskBridge.PublishTaskEvent` | robot_ws/src/amr_agent/src/bridge/task_bridge.cpp:249-274 | an event is stored exactly when it could not be published |
| `PendingReports.TaskBridge.FlushPendingReports` | robot_ws/src/amr_agent/src/bridge/task_bridge.cpp:227-239 | resends every stored report when connected and clears none |
| `PendingReports.TaskBridge.OnStatusAckMessage` | robot_ws/src/amr_agent/src/bridge/task_bridge.cpp:202-225 | clears the acknowledged ids |
| `Delivery.StoredOrHandled` | edge_server/src/communication/amr_communication.cpp:232-267 | in every run, over a network that drops, duplicates and reorders, every report ever put in the outbox is still stored or was handled by the Edge |
| `Delivery.ExactlyOnceEffect` | edge_server/src/service/task_service.cpp:259-278 | in every run no allocation is settled twice, and a carry report put in the outbox after its approval is still stored or its allocation is settled |
| `CrashDelivery.ExactlyOnceDespiteCrashes` | edge_server/src/communication/amr_communication.cpp:232-267 | the same with handlers that run call by call among other threads, acknowledge at their end and may be cut short by restarts: no allocation is settled twice, every kept report is stored or its handler ended, and a carry report kept after its approval is stored or its allocation is settled |
| `CrashDelivery.AtEdgeKeeps` | edge_server/src/communication/amr_communication.cpp:249-267 | every database call of any thread, and every restart, keeps the protocol's invariant |
| `Delivery.StoredReportCanBeCleared` | robot_ws/src/amr_agent/src/bridge/task_bridge.cpp:202-239 | from every reachable state one flush, delivery and acknowledgement that get through have a stored report handled and cleared, and no other lost |
| `Delivery.StoredApplicationStays` | edge_server/src/communication/amr_communication.cpp:171-230 | a stored application for goods is never acknowledged and stays in the outbox |
| `Delivery.DroppedPublishIsLost` | robot_ws/src/amr_agent/src/bridge/task_bridge.cpp:255-264 | a report the broker took at once is never stored: dropped, it is never handled |
| `Topics.SplitConcat` | edge_server/src/mqtt/mqtt_message_router.cpp:107-122 | the levels of two strings joined by a slash are the levels of both |
| `Topics.JoinOfSplit` | edge_server/src/mqtt/mqtt_message_router.cpp:107-122 | joining the levels gives the string back |
| `Topics.SplitOfJoin` | edge_server/src/mqtt/mqtt_message_router.cpp:107-122 | splitting joined slash-free levels gives them back |
| `Topics.MatchesExactly` | edge_server/src/mqtt/mqtt_message_router.cpp:129-144 | level-by-level matching is: the spelled-out levels agree or are `+`, none is `#`, and nothing is left over unless the filter ends in `#` |
| `Topics.MqttMessageRouter.RegisterHandler` | edge_server/src/mqtt/mqtt_message_router.cpp:29-39 | sets one filter's handler; a missing handler changes nothing |
| `Topics.MqttMessageRouter.SplitLevels` | edge_server/src/mqtt/mqtt_message_router.cpp:107-122 | the find-and-advance loop ends and yields the levels |
| `Topics.MqttMessageRouter.TopicMatches` | edge_server/src/mqtt/mqtt_message_router.cpp:105-145 | the index loop equals the recursive matching |
| `Topics.MqttMessageRouter.MessageRouter` | edge_server/src/mqtt/mqtt_message_router.cpp:84-103 | an exact filter wins, else some matching filter, and none only when none matches, for every order of the map |
| `Topics.FiltersAreDisjoint` | edge_server/src/communication/amr_communication.cpp:66-101 | no topic matches two of the five registered filters |
| `Topics.RegisteredFiltersAre` | edge_server/src/communication/amr_communication.cpp:66-101 | the five registered filters, as strings |
| `Topics.DispatchIsDetermined` | edge_server/src/communication/amr_communication.cpp:66-101 | so whatever the router may answer is the one filter that matches, or nothing |
| `Topics.RoutesHomeExactly` | edge_server/src/communication/amr_communication.cpp:75-101 | a robot's topic reaches the handler of its kind exactly when the robot id has no slash |
| `IdlePoints.IdlePosesExactly` | edge_server/src/service/idle_point_allocator.cpp:164-210 | a map's points are exactly the poses of its IDLE locations |
| `IdlePoints.IdlePosesInOrder` | edge_server/src/service/idle_point_allocator.cpp:164-210 | and they keep the order of stations and of the locations in each |
| `IdlePoints.MarkFindsThePoint` | edge_server/src/service/idle_point_allocator.cpp:62-76 | on a map whose points are at least 1e-6 apart in some coordinate, marking a point's pose marks that point only |
| `IdlePoints.IdlePointAllocator.Load` | edge_server/src/service/idle_point_allocator.cpp:12-34 | the points of the new map, all free; none when it has no stations file |
| `IdlePoints.IdlePointAllocator.Allocate` | edge_server/src/service/idle_point_allocator.cpp:36-60 | takes the first free point, or fails and changes nothing when there is none |
| `IdlePoints.IdlePointAllocator.MarkOccupied` | edge_server/src/service/idle_point_allocator.cpp:62-76 | marks exactly the first point less than 1e-6 away in x, in y and in yaw, if any |
| `Robots.IdentityKeptExactly` | edge_server/src/robot/robot_manager.cpp:27-96 | one event keeps a known robot's id, instance and initial pose; a robot is forgotten exactly by a restart before its first registration was stored |
| `Robots.IdentityNeverChanges` | edge_server/src/robot/robot_manager.cpp:27-168 | the id, instance and initial pose of a stored robot are the same in every later state, after any run of re-registrations, statuses, wills, map changes and restarts |
| `Robots.RegistrationFixesIdentity` | edge_server/src/service/robot_service.cpp:26-86 | in every state after a completed registration the robot has the instance made at its first registration and the first point free then, or the origin when none was |
| `Robots.PersistedRobotIsRestored` | edge_server/src/database/sqlite_db.cpp:583-845 | reading a stored robot back gives what was stored, all but the map version, and offline |
| `RobotPoints.PointsAreNeverShared` | edge_server/src/service/idle_point_allocator.cpp:36-76 | in every run, restarts and map changes included, two robots that obtained one of the current map's points never stand at the same one |
| `RobotPoints.StartUpSharesNothing` | edge_server/src/edge_server_app.cpp:138-167 | from any start-up until the next map change, a new robot's point is the initial pose of no known robot |
| `RobotPoints.AllocationFailsOnlyWhenFull` | edge_server/src/robot/robot_manager.cpp:56-62 | a first registration gets a free point, or, only when every point has a known robot at it, the origin |
| `RobotPoints.NewPointIsNobodysExactly` | edge_server/src/robot/robot_manager.cpp:56-66 | a new robot shares its point with a known one exactly when that one stands at the first free point, which a marked map excludes |
| `RobotPoints.AccountedExactly` | edge_server/src/edge_server_app.cpp:138-146 | every event keeps all known robots' points marked, a map change exactly when no known robot stands at a point of the new map |
| `RobotPoints.RestartKeepsPoints` | edge_server/src/edge_server_app.cpp:148-163 | after start-up every restored robot's point is marked, and only such points |
| `RobotPoints.MarkAllExactly` | edge_server/src/edge_server_app.cpp:152-156 | the marking loop marks every stored robot's point and no point without a stored robot within 1e-6 |
| `RobotPoints.ReloadForgetsOccupancy` | edge_server/src/edge_server_app.cpp:138-146 | after a map change the next new robot is given the first point even when a known robot stands there |
| `RobotServiceModule.RobotDatabase.UpsertRobot` | edge_server/src/database/sqlite_db.cpp:583-744 | the robot and status rows are overwritten with the given cells; an instance row with the model name is appended exactly when the instance is not empty and not stored for that robot |
| `RobotServiceModule.RobotDatabase.LoadRobots` | edge_server/src/database/sqlite_db.cpp:746-845 | one entry per stored robot with its latest instance, its status cells if any, and offline |
| `RobotServiceModule.RobotManager.RegisterRobot` | edge_server/src/robot/robot_manager.cpp:19-73 | an empty id changes nothing; a known robot gets the new data but keeps its instance, initial pose and status; a newcomer gets the given instance, the first free point or the origin, and starts online and INITIALIZING at the given time |
| `RobotServiceModule.RobotManager.RestoreRobot` | edge_server/src/robot/robot_manager.cpp:75-96 | adds the robot offline unless its id is empty or known |
| `RobotServiceModule.RobotManager.MarkOffline` | edge_server/src/robot/robot_manager.cpp:114-130 | a known robot becomes not online and OFFLINE at the given time and keeps the rest; an unknown one changes nothing |
| `RobotServiceModule.RobotManager.UpdateRobotStatus` | edge_server/src/robot/robot_manager.cpp:132-144 | a known robot's status becomes the given one and its identity stays; an unknown one changes nothing |
| `RobotServiceModule.RobotManager.GetRobotList` | edge_server/src/robot/robot_manager.cpp:157-168 | one entry for every known robot, each once, with its own id, its stored instance and its stored initial pose |
| `RobotServiceModule.RobotService.HandleRegister` | edge_server/src/service/robot_service.cpp:26-76 | the robot is registered with the instance and point that are its due, its rows hold what was registered, and the answer carries the request id, that initial pose and the outcome of the map lookup |
| `RobotServiceModule.RobotService.HandleStatus` | edge_server/src/service/robot_service.cpp:78-81 | the status of the reporting robot, if known, becomes the reported one; nothing else changes |
| `RobotServiceModule.RobotService.HandleWill` | edge_server/src/service/robot_service.cpp:83-86 | the robot, if known, becomes not online and OFFLINE at the given time; nothing else changes |
| `RobotServiceModule.RobotService.OnActiveMapChanged` | edge_server/src/edge_server_app.cpp:138-146 | the new map's points replace the old ones, all free |
| `RobotServiceModule.StartRobots` | edge_server/src/edge_server_app.cpp:121-167 | loading the map, then marking and restoring robot by robot, does exactly the specified restart: every stored robot with an id is known, offline, with its stored pose and latest instance |
| `SimSync.ParseExactly` | simulation_ws/src/simulation_manager/src/gazebo_client.cpp:145-161 | a name reads back as two ids exactly when it was made from them, neither is empty and the robot id has no `_` |
| `SimSync.MadeNameParses` | simulation_ws/src/simulation_manager/src/common_func.cpp:6-9 | a name made from such ids reads back as them |
| `SimSync.ConvergesExactly` | simulation_ws/src/simulation_manager/src/robot_sync_manager.cpp:15-56 | with unique ids on each side, one round makes Gazebo's (robot, instance) pairs the Edge's exactly when every listed robot's ids survive a model name, and touches no foreign model |
| `SimSync.QuietExactly` | simulation_ws/src/simulation_manager/src/robot_sync_manager.cpp:15-56 | a synchronisation asks for nothing exactly when the pairs are equal |
| `SimSync.SyncAsksExactly` | simulation_ws/src/simulation_manager/src/robot_sync_manager.cpp:15-56 | a request is asked for exactly when it has its reason: creating a listed robot that has no model and is not managed, once; replacing the first model of a robot listed with another instance; deleting a model whose robot is not listed |
| `SimSync.EveryListIsFollowed` | simulation_ws/src/simulation_manager/src/robot_sync_manager.cpp:15-56 | however the Edge's list changes from poll to poll, the pairs equal the latest list, and repeating that poll asks for nothing |
| `SimSync.RoundExactly` | simulation_ws/src/simulation_manager/src/robot_sync_manager.cpp:18-55 | after a round a robot model exists exactly when it is listed, and every other model as before |
| `SimSync.UnderscoreRobotIsLost` | simulation_ws/src/simulation_manager/src/robot_lifecycle_manager.cpp:27-42 | a managed robot whose id has `_` is never asked for again, in any run of rounds |
| `SimSync.UnderscoreModelIsDeleted` | simulation_ws/src/simulation_manager/src/robot_sync_manager.cpp:39-55 | while its model reads as another robot's and is deleted unless that robot is listed |
| `RobotSync.GazeboClient.ParseModelName` | simulation_ws/src/simulation_manager/src/gazebo_client.cpp:145-161 | computes the specified parse |
| `RobotSync.GazeboClient.UpdateModels` | simulation_ws/src/simulation_manager/src/gazebo_client.cpp:14-51 | keeps exactly the names that parse, in order; a failed call keeps the old list |
| `SimSync.ModelsInOrder` | simulation_ws/src/simulation_manager/src/gazebo_client.cpp:14-51 | the models keep the order of Gazebo's names |
| `RobotSync.RobotLifecycleManager.RequestCreate` | simulation_ws/src/simulation_manager/src/robot_lifecycle_manager.cpp:27-61 | a robot that is managed and not FAILED changes nothing; any other waits for its creation and is queued |
| `RobotSync.RobotSyncManager.Sync` | simulation_ws/src/simulation_manager/src/robot_sync_manager.cpp:15-56 | the two loops append to the queue exactly the requests that have a reason |
| `Witnesses.AReportFinishesElsewhere` | edge_server/src/service/task_service.cpp:259-320 | creating, applying and a completion that names another task leaves a completed task that is not SUCCEEDED |
| `Witnesses.ACancelledTaskSucceeds` | edge_server/src/service/task_service.cpp:294-319 | creating, applying, cancelling and completing turns CANCELLED into SUCCEEDED |
| `Witnesses.ARefusalMovesTheLedger` | edge_server/src/service/task_service.cpp:219-233 | after a creation, an application for two items is refused and has moved the first |
| `Witnesses.AnEmptyIdIsApproved` | edge_server/src/service/task_service.cpp:184-248 | after a creation, goods are approved under an empty request id, and the task is never SUCCEEDED |
| `Witnesses.AnyReportOverwrites` | edge_server/src/service/task_service.cpp:280-319 | a report overwrites the state another report wrote just before it, whatever their timestamps |
| `Witnesses.ASuccessIsOverwritten` | edge_server/src/service/task_service.cpp:138-161 | a run from the empty database without a stop stores SUCCEEDED and then CANCELLED over it, with everything completed and no operation left |
| `Witnesses.ASuccessIsLost` | edge_server/src/service/task_service.cpp:269-319 | a run from the empty database with just one stop, at its end, leaves a task completed and not SUCCEEDED |
| `Witnesses.ANamingLosesSuccess` | edge_server/src/service/task_service.cpp:269-319 | so does a run without a stop whose last call settles the last units of a task its report does not name |
| `Witnesses.ACancellationIsOverwritten` | edge_server/src/service/task_service.cpp:204-245 | an application reads a task PENDING, the task is cancelled, and the application writes RUNNING over CANCELLED |
| `Witnesses.APointIsGivenTwice` | edge_server/src/edge_server_app.cpp:138-146 | two registrations around a map change are given the same point |

## Left out

- MQTT, HTTP and WebSocket transport, reconnection, the router's queue and consumer thread, logging, timers and configuration: plumbing.
- The MQTT messages that `createTask` and `cancelTask` publish to the robots: they are sent after the database is written and change nothing.
- Clock strings other than a report's timestamp, among them the columns created_at, updated_at, allocated_at and settled_at: no decision of the modelled code reads one. The heartbeat's clock is a parameter.
- TaskServiceModule.TaskService.BuildTaskStateMessage: the message's updated_at field and its constant empty goods names are left out.
- SQLite itself: preparation, I/O and commit errors, WAL checkpoints. A statement fails only by a UNIQUE or CHECK constraint.
- JSON, YAML and zip parsing: messages and files are given decoded. A message that does not decode is `None`; a stations file that stops half-way is some list of points.
- 32-bit quantities: columns and sums are unbounded integers. The CHECK constraints and `StateMessages.AccumulatorsStayBelowTotal` keep every sum of a task below the task's own total.
- Doubles: poses are reals, so rounding and NaN are not modelled; the 1e-6 tolerance is.
- The outbox file is replaced atomically and `save` always succeeds; a full disk or a failed rename is not modelled.
- Delivery.ExactlyOnceEffect: acknowledgements are the Edge's own and message ids are unique; an id that collides with a stored one drops the report (`PendingReports.AddKeepsExactly`).
- SimSync.ConvergesExactly: a round reads an up-to-date list of models and all its requests are carried out before the next round; launches that fail, time out or are still under way are not modelled, nor is the exact number of models when Gazebo holds two for one robot.
- SqliteDb.SQLiteDB.GetTask: returns the task row without its goods list, which no caller in the model reads.
- RobotPoints.PointsAreNeverShared: a robot belongs to the current map from the registration that obtained a point until the next map change; robots registered under an earlier map are covered by `RobotPoints.StartUpSharesNothing` and `RobotPoints.ReloadForgetsOccupancy`.
- The robot behaviour node, navigation, process launching and controller checks: robots are arbitrary senders.
- Map upload and activation, the goods point resolver, editors and launch files: no invariant that spans operations.
