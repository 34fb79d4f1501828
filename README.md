# MyMedQL vitals and alerts core, in Dafny

This project models the parts of MyMedQL that decide what happens to a vital-sign reading and who hears about it.

- **Ingestion.** The Python backend's `VitalService.ingest_batch` stores a batch of readings. It runs `AlertEvaluator.evaluate` on each reading, which applies the critical and warning rules and the one-minute deduplication of critical alerts. It commits, and only then broadcasts one `VITAL_UPDATE` per reading followed by one `ALERT_NEW` per alert.
- **Acknowledgement.** The alerts router lists alerts and acknowledges them. Acknowledgement is the only place the flag is set, and it is followed by an `ALERT_ACK` broadcast.
- **Live observers.** `ConnectionManager` fans messages out to its sockets and drops the ones whose send failed. `VitalsPoller` pushes pages of new readings past a monotone watermark; a module-level singleton owns it.
- **Node server.** The Node WebSocket server keeps a client map and per-socket patient subscriptions. It routes vitals to subscribers and alerts to every open client, and polls for new alerts.
- **Decision tables.** The RBAC permission matrix and its middleware (401 / 403 / next), and the error handler's message-to-status mapping.
- **Dashboard.** Three functions of the patient dashboard: the threshold lookup, `generateAlerts`, and `determinePatientStatus`.

## How the model is built

Each source file is one module:

| source | module |
|---|---|
| `connection_manager.py` | `Connections` |
| `alert_evaluator.py` | `AlertEvaluator` |
| `vital_service.py` | `VitalService` |
| `routers/alerts.py` | `AlertsRouter` |
| `poller.py` | `Poller` |
| `websocketServer.js` | `WebSocketServer` |
| `permissions.js` | `Permissions` |
| `rbacMiddleware.js` | `RbacMiddleware` |
| `errorHandler.js` | `ErrorHandler` |
| `PatientDashboard.jsx` | `Dashboard` |

Four support modules sit beside them:

- `Wrappers` (`Option`, `Result`);
- `Strings` (`includes` and ASCII lower-casing);
- `Store` (the ORM rows and the `AsyncSession` unit of work);
- `Messages` (the logical shapes of the broadcast JSON).

Where the source changes state in place, the model is a class. This covers the manager's connection list, the poller's `running` / `last_check` / task, the singleton, the Node module's variables and the session. Each method is proved against a pure specification function, and lemmas state the properties of those functions:

- `Passing` and `FanOut` for `broadcast`;
- `Page` and `MaxTs` for a poll cycle;
- `Run` for the ingestion loop;
- `Notifications` and `Deliveries` for `_broadcast`;
- `Sends`, `AlertSends` and `NewAlerts` for the Node broadcasts;
- `Expected` for `generateAlerts`.

Other conventions:

- A socket send that raises is an oracle: the set `dead` of sockets whose send fails, passed to each call.
- The clock is a parameter. Timestamps are integer seconds (milliseconds in the Node server's ids).
- A commit that raises is a boolean parameter.
- Query results the model cannot compute, such as the Node server's `getUnresolvedAlerts`, are parameters. `None` stands for a query that threw.
- `vital_service.py` and `routers/alerts.py` broadcast through `app.websockets.manager`, which is not part of this model. The `ConnectionManager` class stands in for it, since it has the same `broadcast(message)` shape.

Two behaviours of the source are modelled as written and show in the contracts:

- **A reused client id.** Two sockets that connect with the same query id share one map entry. The first one to close removes the entry, although it then names the second socket (`WebSocketServer.WsServer.OnClose`).
- **A second `startAlertPolling`.** Calling it again overwrites the interval handle without clearing the old interval, so the old timer keeps running. `liveTimers` counts the running timers; `stopAlertPolling` clears only the handle it holds.

## Model

| member | source | states |
|---|---|---|
| Store.WithVital | backend/app/services/vital_service.py:49-50 | adding and flushing a reading appends it with the next id; the alerts and their counter are untouched |
| Store.WithAlert | backend/app/services/alert_evaluator.py:58-59 | adding and flushing an alert appends it with the next id; the vitals and their counter are untouched |
| Store.Session.Commit | backend/app/services/vital_service.py:57 | a commit that succeeds makes the session's view durable; one that raises leaves the committed tables as they were |
| Store.Session.SetAcknowledged | backend/app/api/routers/alerts.py:42 | only the flag of the chosen alert becomes true |
| Connections.ConnectionManager.constructor | backend/app/websocket/connection_manager.py:14-16 | a new manager has no connections |
| Connections.ConnectionManager.Connect | backend/app/websocket/connection_manager.py:18-27 | the socket is appended at the end, with no duplicate check; nothing is sent |
| Connections.ConnectionManager.Disconnect | backend/app/websocket/connection_manager.py:29-38 | one occurrence is removed if present; otherwise nothing changes |
| Connections.ConnectionManager.SendPersonalMessage | backend/app/websocket/connection_manager.py:40-52 | a failed send disconnects only that socket; a successful one delivers the text to it alone |
| Connections.ConnectionManager.Broadcast | backend/app/websocket/connection_manager.py:54-76 | the registry becomes exactly the connections whose send succeeded, in their order; each of them receives the message once, in list order; an empty registry stays empty and nothing is raised |
| Connections.ConnectionManager.DisconnectAll | backend/app/websocket/connection_manager.py:78-81 | the registry is empty afterwards |
| Connections.Passing | backend/app/websocket/connection_manager.py:64-76 | the connections kept after a broadcast are never more than those registered |
| Connections.Failing | backend/app/websocket/connection_manager.py:64-72 | the `disconnected` list is never longer than the registry, and its first entry is a socket whose send failed |
| Connections.FanOut | backend/app/websocket/connection_manager.py:64-69 | a broadcast sends exactly one frame per connection |
| Connections.FanOutAt | backend/app/websocket/connection_manager.py:64-69 | the i-th frame of a broadcast goes to the i-th receiving connection and carries the same message |
| Connections.PassingMembers | backend/app/websocket/connection_manager.py:67-76 | a connection survives a broadcast iff it was registered and its send did not fail |
| Connections.RemoveFirstCount | backend/app/websocket/connection_manager.py:36-37 | `disconnect` removes exactly one copy of a registered socket and is a no-op for an unregistered one |
| Connections.RemoveFirstFailing | backend/app/websocket/connection_manager.py:75-76 | one step of the cleanup loop removes the first failed connection and keeps every passing one |
| Connections.CleanupKeepsPassing | backend/app/websocket/connection_manager.py:65-76 | disconnecting every entry of the `disconnected` list, in order, leaves exactly the passing connections in order, even with a socket registered twice |
| Connections.PassingIdempotent | backend/app/websocket/connection_manager.py:67-76 | a second broadcast with the same failing sockets removes nothing more |
| Connections.PassingAppend | backend/app/websocket/connection_manager.py:67-72 | the survivors of a concatenated list are the survivors of each part |
| Connections.FailingAppend | backend/app/websocket/connection_manager.py:67-72 | the `disconnected` list of a concatenated list is that of each part, concatenated |
| Connections.FanOutAppend | backend/app/websocket/connection_manager.py:67-69 | broadcasting to a concatenated list sends to each part in turn |
| Connections.ThreeObserversOneFails | backend/app/websocket/connection_manager.py:54-76 | with three observers of which the second fails, the other two receive the message and stay registered |
| AlertEvaluator.WarningFloor | backend/app/services/alert_evaluator.py:25 | `int(hr_max * 0.9)` is nine tenths of `hr_max`, truncated toward zero |
| AlertEvaluator.FirstSuppressing | backend/app/services/alert_evaluator.py:29-36 | the dedup query finds a row iff a same-patient, critical, unacknowledged alert at or after the window start exists, and the row it returns is one |
| AlertEvaluator.Decide | backend/app/services/alert_evaluator.py:19-56 | no threshold gives no alert; a critical alert is raised iff the reading is critical and no recent unacknowledged critical alert of the patient exists; a warning iff the reading is not critical and HR ≥ `int(hr_max*0.9)`; the alert carries the reading's patient and time (or now), unacknowledged |
| AlertEvaluator.Evaluate | backend/app/services/alert_evaluator.py:16-60 | the decided alert, and only it, is added and flushed before it is returned with its new id; every `None` path leaves the session unchanged |
| AlertEvaluator.EqualToMaxIsWarning | backend/app/services/alert_evaluator.py:23-26 | a heart rate equal to `hr_max` is not critical, and is a warning |
| AlertEvaluator.WarningBand | backend/app/services/alert_evaluator.py:24-54 | every heart rate from 0.9 × `hr_max` to `hr_max`, with SpO2 at or above its minimum, raises a warning whatever the alert history |
| AlertEvaluator.WarningsIgnoreHistory | backend/app/services/alert_evaluator.py:47-54 | warnings are never deduplicated |
| AlertEvaluator.OnlyRecentUnacknowledgedCriticalSuppresses | backend/app/services/alert_evaluator.py:28-38 | acknowledged alerts, warnings, other patients' alerts and alerts older than the window do not change the decision |
| AlertEvaluator.Deduplicated | backend/app/services/alert_evaluator.py:28-38 | any same-patient unacknowledged critical alert stamped at or after one minute before the reading suppresses it, with no upper bound on its time |
| AlertEvaluator.EvaluatorExamples | backend/app/services/alert_evaluator.py:23-54 | with 120/92, the reading 150/95 is critical, 80/96 raises nothing, and a critical alert 30 s earlier suppresses the critical one |
| AlertEvaluator.EvaluateVital | backend/app/services/alert_evaluator.py:64-71 | "Low SpO2" iff SpO2 is present and below 90; "Abnormal heart rate" iff HR < 40 or HR > 150; when both, in that order |
| VitalService.GetThreshold | backend/app/services/vital_service.py:69-74 | the patient's threshold row is found iff one exists, and what is found is that patient's own row |
| VitalService.RunShape | backend/app/services/vital_service.py:38-55 | exactly one stored reading per item, in submission order, fields copied and ids consecutive; existing alerts are never changed; at most one new alert per item, each unacknowledged |
| VitalService.NoThresholdNoAlerts | backend/app/services/vital_service.py:34-55 | a patient without a threshold gets every reading stored and no alert |
| VitalService.DedupWithinBatch | backend/app/services/vital_service.py:49-55 | a critical alert raised by a batch is more than one minute after every earlier unacknowledged critical alert of the same patient, including ones raised earlier in the same batch |
| VitalService.RunStep | backend/app/services/vital_service.py:38-55 | each loop pass is one add-flush-evaluate step on the tables left by the previous pass |
| VitalService.Drop | backend/app/services/vital_service.py:51-55 | the rows a batch created are those after the rows that existed before it |
| VitalService.VitalMessages | backend/app/services/vital_service.py:82-93 | one `VITAL_UPDATE` per stored reading |
| VitalService.AlertMessages | backend/app/services/vital_service.py:95-107 | one `ALERT_NEW` per alert |
| VitalService.Notifications | backend/app/services/vital_service.py:109 | exactly \|vitals\| + \|alerts\| messages |
| VitalService.NotificationsOrder | backend/app/services/vital_service.py:82-110 | every `VITAL_UPDATE`, in reading order, precedes every `ALERT_NEW`, in alert order, each built from its own row |
| VitalService.VitalMessagesAt | backend/app/services/vital_service.py:82-93 | the i-th `VITAL_UPDATE` carries the i-th reading |
| VitalService.AlertMessagesAt | backend/app/services/vital_service.py:95-107 | the i-th `ALERT_NEW` carries the i-th alert |
| VitalService.DeliveriesStep | backend/app/services/vital_service.py:109-110 | each further broadcast appends its fan-out |
| VitalService.Broadcast | backend/app/services/vital_service.py:76-110 | one broadcast per message, in order; after the first one the registry has lost its failing sockets, and every message reaches the same live ones |
| VitalService.StoreAll | backend/app/services/vital_service.py:35-55 | the loop leaves the session's tables as `Run` of the batch, returns exactly the new readings (one per item) and the new alerts, and commits nothing |
| VitalService.IngestBatch | backend/app/services/vital_service.py:16-62 | an empty batch returns [] and touches nothing; an unknown first patient is an error before any write; otherwise the whole batch is stored against the first patient's threshold; nothing is broadcast when the commit raises; after a commit the stored readings are returned and the notifications are broadcast |
| VitalService.IngestExamples | backend/app/services/vital_service.py:38-110 | with 120/92, a 150/95 reading stores one reading and one critical alert and yields `VITAL_UPDATE` then `ALERT_NEW`; 80/96 yields only the `VITAL_UPDATE` |
| AlertsRouter.ListAlerts | backend/app/api/routers/alerts.py:13-26 | one record per stored alert, in table order, with `id` as `alert_id` |
| AlertsRouter.ListAlertsFaithful | backend/app/api/routers/alerts.py:16-26 | every other field is copied: each row can be read back from its record |
| AlertsRouter.FindAlert | backend/app/api/routers/alerts.py:35-36 | the first row with the id, or none iff no row has it |
| AlertsRouter.AckAt | backend/app/api/routers/alerts.py:42 | acknowledging sets that row's flag and changes no other row |
| AlertsRouter.AckMonotoneIdempotent | backend/app/api/routers/alerts.py:42 | acknowledgement never clears a flag, and acknowledging twice equals acknowledging once |
| AlertsRouter.AcknowledgeAlert | backend/app/api/routers/alerts.py:29-47 | an unknown id is a 404 with no change and no broadcast; otherwise the flag is set and committed; `ALERT_ACK` is broadcast only after the commit returns; the response is `{alert_id, acknowledged: true}`; re-acknowledging broadcasts again |
| Poller.Newer | backend/app/websocket/poller.py:75-85 | the selection never exceeds the table |
| Poller.Page | backend/app/websocket/poller.py:75-85 | a page has at most 100 rows |
| Poller.MaxTs | backend/app/websocket/poller.py:94-98 | the watermark taken from a page is the largest timestamp in it |
| Poller.NewerMembers | backend/app/websocket/poller.py:75-85 | a row is selected iff it is strictly newer than the watermark, and the selection keeps ascending order |
| Poller.PageFacts | backend/app/websocket/poller.py:75-98 | a page is ascending and strictly newer than the watermark; a non-empty page's maximum is its last row and exceeds the old watermark |
| Poller.RowsAfterPage | backend/app/websocket/poller.py:83-98 | rows cut off by the limit are at or above the new watermark, and those tied with it are never selected again |
| Poller.PollExample | backend/app/websocket/poller.py:75-98 | readings at T+1 and T+3 past watermark T form one page and the watermark becomes T+3 |
| Poller.VitalsPoller.constructor | backend/app/websocket/poller.py:17-29 | a fresh poller is stopped, with no watermark and no task |
| Poller.VitalsPoller.Start | backend/app/websocket/poller.py:31-40 | a no-op while running; otherwise running, watermark one minute before now, new task |
| Poller.VitalsPoller.Stop | backend/app/websocket/poller.py:42-51 | running is cleared and an existing task is cancelled |
| Poller.VitalsPoller.CheckAndBroadcast | backend/app/websocket/poller.py:63-110 | a failed query or an empty page only initialises an unset watermark; a non-empty page moves the watermark to its maximum and is broadcast once as `vitals_update` with `count` equal to its length; the new watermark and registry are one `Cycle` of the old ones |
| Poller.VitalsPoller.PollLoop | backend/app/websocket/poller.py:53-61 | a running poller performs one cycle per tick, in order, a failed cycle included (the new state is `Cycles` over all ticks); the watermark never moves back and each cycle broadcasts at most once; a stopped poller does nothing |
| Poller.CyclesStep | backend/app/websocket/poller.py:55-61 | each loop pass is one further cycle on the state the previous passes left |
| Poller.CyclesAppend | backend/app/websocket/poller.py:55-61 | polling over two runs of ticks in turn is polling over their concatenation, so no cycle, failed or empty, ends the loop |
| Poller.CyclesFacts | backend/app/websocket/poller.py:55-98 | over ascending tables a run never moves a set watermark back, keeps earlier broadcasts, and adds at most one message per tick, each a `vitals_update` with a positive count |
| Poller.PollerRegistry.GetPoller | backend/app/websocket/poller.py:117-130 | the existing instance is returned whatever manager is passed; otherwise a new stopped one over the given manager |
| Poller.PollerRegistry.StartPoller | backend/app/websocket/poller.py:133-141 | the singleton exists and is running afterwards; an already-running one keeps its watermark and task; otherwise the watermark is one minute before now and the task is new and active |
| Poller.PollerRegistry.StopPoller | backend/app/websocket/poller.py:144-149 | the singleton is stopped, its task cancelled if it had one, its watermark kept, and the singleton reset to none |
| WebSocketServer.Split | backend/src/websocket/websocketServer.js:15 | `split` always gives at least one piece |
| WebSocketServer.SplitJoin | backend/src/websocket/websocketServer.js:15 | splitting loses nothing, and no piece holds the separator |
| WebSocketServer.QueryValue | backend/src/websocket/websocketServer.js:15 | a value read from the query holds no `=` or `?` and exists only if the URL has a `?` |
| WebSocketServer.SplitNoSep | backend/src/websocket/websocketServer.js:15 | a URL that splits into two or more pieces holds the separator |
| WebSocketServer.ClientIdFor | backend/src/websocket/websocketServer.js:15 | the id is the non-empty query value, else `client_<ms>`; never empty |
| WebSocketServer.ClientIdFromUrl | backend/src/websocket/websocketServer.js:15 | `path?key=value` is stored under `value`; a missing query or an empty value falls back to `client_<ms>` |
| WebSocketServer.SplitFirst | backend/src/websocket/websocketServer.js:15 | a string splits at its first separator |
| WebSocketServer.SplitNone | backend/src/websocket/websocketServer.js:15 | a string without the separator is one piece |
| WebSocketServer.Sends | backend/src/websocket/websocketServer.js:115-144 | a broadcast sends at most one frame per client |
| WebSocketServer.SendsMembers | backend/src/websocket/websocketServer.js:115-144 | a client receives a broadcast iff it is in the audience |
| WebSocketServer.VitalsAudience | backend/src/websocket/websocketServer.js:116-120 | the vitals audience is among the OPEN clients |
| WebSocketServer.VitalsAudienceFacts | backend/src/websocket/websocketServer.js:116-120 | vitals for a falsy patient id reach nobody, since only truthy ids are ever subscribed |
| WebSocketServer.VitalsReach | backend/src/websocket/websocketServer.js:105-124 | a socket receives a vitals update iff it is a client, OPEN and subscribed to that patient |
| WebSocketServer.AlertSendsStep | backend/src/websocket/websocketServer.js:170-172 | each pushed alert appends its frames |
| WebSocketServer.NewAlerts | backend/src/websocket/websocketServer.js:164-167 | the filter never adds alerts |
| WebSocketServer.NewAlertsMembers | backend/src/websocket/websocketServer.js:164-167 | an alert passes iff it was created strictly after `lastAlertCheck` |
| WebSocketServer.AlertSendsMembers | backend/src/websocket/websocketServer.js:130-172 | a client receives an alert push iff it is OPEN and the alert was pushed |
| WebSocketServer.AlertPushReach | backend/src/websocket/websocketServer.js:140-172 | a socket receives a polled alert iff it is OPEN and the alert is newer than the watermark; subscriptions play no part |
| WebSocketServer.Without | backend/src/websocket/websocketServer.js:42-45 | a closed socket leaves the client list and nothing else does |
| WebSocketServer.WsServer.constructor | backend/src/websocket/websocketServer.js:4-5 | module load: no server and an empty map; `lastAlertCheck` is the load time and no interval is held (lines 152-153) |
| WebSocketServer.WsServer.Initialize | backend/src/websocket/websocketServer.js:11-58 | a server with no clients exists and polling is started |
| WebSocketServer.WsServer.OnConnection | backend/src/websocket/websocketServer.js:14-25 | the socket is stored under its id, replacing any socket with the same id, and gets the welcome |
| WebSocketServer.WsServer.OnMessage | backend/src/websocket/websocketServer.js:28-39 | unparsable text or `null` gets "Invalid message format"; anything else is handled as its type says |
| WebSocketServer.WsServer.HandleClientMessage | backend/src/websocket/websocketServer.js:63-99 | subscribe with a truthy id adds it, creating the set, and replies; unsubscribe removes and replies only with a truthy id and an existing set; ping gets pong; any other type gets "Unknown message type"; nothing else changes |
| WebSocketServer.WsServer.OnClose | backend/src/websocket/websocketServer.js:42-45 | the id's map entry goes, whichever socket it names; the socket leaves the client list |
| WebSocketServer.WsServer.OnError | backend/src/websocket/websocketServer.js:48-51 | only the id's map entry goes |
| WebSocketServer.WsServer.BroadcastVitalsUpdate | backend/src/websocket/websocketServer.js:105-124 | no-op without a server; otherwise one frame to each OPEN subscribed client, in client order |
| WebSocketServer.WsServer.BroadcastAlert | backend/src/websocket/websocketServer.js:130-145 | no-op without a server; otherwise one frame to every OPEN client |
| WebSocketServer.WsServer.SendAll | backend/src/websocket/websocketServer.js:115-144 | the client loop sends to the audience members in client order and changes nothing else |
| WebSocketServer.WsServer.PushAlerts | backend/src/websocket/websocketServer.js:170-172 | each new alert is broadcast in turn, and only the outbox changes |
| WebSocketServer.WsServer.PollAlertsTick | backend/src/websocket/websocketServer.js:158-181 | a failed query is swallowed; otherwise only alerts newer than `lastAlertCheck` are pushed, and the watermark moves to now only if there was one |
| WebSocketServer.WsServer.StartAlertPolling | backend/src/websocket/websocketServer.js:155-184 | a handle is held and one more timer runs |
| WebSocketServer.WsServer.StopAlertPolling | backend/src/websocket/websocketServer.js:189-194 | the held interval, if any, is cleared and the handle dropped |
| WebSocketServer.WsServer.Close | backend/src/websocket/websocketServer.js:199-211 | polling stopped, every client closed, no server and an empty map; later broadcasts are no-ops |
| Permissions.Lookup | backend/src/db/rbac/permissions.js:42 | an action's role list is found iff the table names it, and it is the list of the first entry with that name |
| Permissions.HasPermission | backend/src/db/rbac/permissions.js:41-52 | a role is allowed an action iff the table's entry for that action lists 'public' or the role; an action with no entry is denied to every role (UnknownActionDenied), 'vitals:ingest' is allowed to every role (PublicActionAllowed), and admin holds every listed action (AdminHoldsEveryAction) |
| Permissions.LookupAt | backend/src/db/rbac/permissions.js:6-42 | the lookup finds an entry whose name no earlier entry has |
| Permissions.LookupIsEntry | backend/src/db/rbac/permissions.js:42 | the list found is one of the table's entries |
| Permissions.Actions | backend/src/db/rbac/permissions.js:60 | `Object.keys` lists the action names in table order |
| Permissions.FilterPermitted | backend/src/db/rbac/permissions.js:60-62 | exactly the permitted actions, in the given order |
| Permissions.GetRolePermissions | backend/src/db/rbac/permissions.js:59-63 | exactly the table's actions that `hasPermission` allows, in table order |
| Permissions.UnknownActionDenied | backend/src/db/rbac/permissions.js:42-45 | an action not in the table is denied to every role, admin included |
| Permissions.PublicActionAllowed | backend/src/db/rbac/permissions.js:18-49 | 'vitals:ingest' is allowed for any role string and is in every role's list |
| Permissions.AdminHoldsEveryAction | backend/src/db/rbac/permissions.js:6-52 | admin is allowed every action the table defines |
| Permissions.AdminListed | backend/src/db/rbac/permissions.js:6-33 | every entry lists admin or is public |
| Permissions.RoleHierarchy | backend/src/db/rbac/permissions.js:6-52 | viewer ⊆ nurse ⊆ doctor ⊆ admin permissions |
| Permissions.PatientPermissionExamples | backend/src/db/rbac/permissions.js:8-51 | a viewer may read but not create patients; admin and doctor may create them |
| Permissions.AlertPermissionExample | backend/src/db/rbac/permissions.js:21-51 | viewer and nurse may read alerts |
| Permissions.StaffPermissionExample | backend/src/db/rbac/permissions.js:26-51 | only admin may create staff |
| RbacMiddleware.Rbac | backend/src/api/middleware/rbacMiddleware.js:10-27 | exactly one of 401, 403 and `next`: 401 iff no user or no role; 403 iff authenticated and not permitted, naming the action and role; `next` iff authenticated and permitted |
| RbacMiddleware.PublicStillNeedsAuthentication | backend/src/api/middleware/rbacMiddleware.js:13-18 | even 'vitals:ingest' needs a user with a role, and passes with any role |
| RbacMiddleware.MiddlewareExamples | backend/src/api/middleware/rbacMiddleware.js:13-26 | a doctor may create patients; a viewer creating staff gets 403 with the action and role; a user without a role gets 401 |
| ErrorHandler.StatusFor | backend/src/api/middleware/errorHandler.js:17-25 | the status is one of 400/401/403/404/500, and each is given exactly when its rule is the first in the chain to match: 404 iff one of the three exact not-found messages; 401 iff not that but one of the two exact credential messages; 403 iff neither but the message contains 'permission' or 'Insufficient'; 400 iff none of those but it contains 'must have an active admission'; 500 iff no rule matches |
| ErrorHandler.Handle | backend/src/api/middleware/errorHandler.js:5-31 | a missing message makes the handler throw; otherwise the status is the chain's, the body is the message or 'Internal server error' when it is empty, and the stack is sent only in development |
| ErrorHandler.PermissionWinsOverAdmission | backend/src/api/middleware/errorHandler.js:21-24 | a message containing 'permission' or 'Insufficient' gives 403, even when it also mentions an admission |
| ErrorHandler.AdmissionIsBadRequest | backend/src/api/middleware/errorHandler.js:23-24 | a message mentioning a missing admission and no permission words gives 400 |
| ErrorHandler.NoKeywordIsServerError | backend/src/api/middleware/errorHandler.js:9-25 | a message matching no rule gives 500 |
| ErrorHandler.LetterFreeHasNoKeyword | backend/src/api/middleware/errorHandler.js:21-24 | a message without the letters 'p', 'I' and 'm' matches neither substring rule |
| ErrorHandler.AlertNotFoundOrResolvedIs500 | backend/src/api/middleware/errorHandler.js:17-25 | 'Alert not found or already resolved' is not an exact not-found message and gives 500 |
| ErrorHandler.HandleExamples | backend/src/api/middleware/errorHandler.js:9-29 | an empty message gives 500 'Internal server error'; the stack appears in development only |
| Dashboard.GetThresholdValue | frontend/components/PatientDashboard.jsx:28-31 | the first entry matching both name and type, or none iff no entry matches |
| Dashboard.KindAlerts | frontend/components/PatientDashboard.jsx:44-201 | each vital yields at most one alert, about itself |
| Dashboard.Raised | frontend/components/PatientDashboard.jsx:44-201 | the checks raise at most one alert per check |
| Dashboard.Group | frontend/components/PatientDashboard.jsx:203-208 | a severity group is no longer than the list |
| Dashboard.CheckVital | frontend/components/PatientDashboard.jsx:44-73 | one vital's check appends its critical alert, else its warning (pushed only when no "<vital> Critical" title is present), else nothing |
| Dashboard.TitleIdentifies | frontend/components/PatientDashboard.jsx:61-189 | the title lookup "<vital> Critical" finds exactly that vital's critical alert |
| Dashboard.TitlesDiffer | frontend/components/PatientDashboard.jsx:52-65 | a warning title never equals a critical title |
| Dashboard.LabelInjective | frontend/components/PatientDashboard.jsx:52-180 | different vitals have different title labels |
| Dashboard.GenerateAlerts | frontend/components/PatientDashboard.jsx:34-222 | the method returns `Expected`: [] without vitals or thresholds, else the five checks sorted critical first, or the single normal item |
| Dashboard.RaisedStep | frontend/components/PatientDashboard.jsx:44-201 | each further check appends its alerts |
| Dashboard.SortedIsExpected | frontend/components/PatientDashboard.jsx:203-221 | after the checks, the sorted list is the result, or the normal item when it is empty |
| Dashboard.KindsRanked | frontend/components/PatientDashboard.jsx:43-201 | the five checks run heart rate, SpO2, blood pressure, temperature, respiration, and cover every vital |
| Dashboard.RaisedMembers | frontend/components/PatientDashboard.jsx:44-201 | an alert is raised iff it is what its vital's checks give |
| Dashboard.EarlierChecks | frontend/components/PatientDashboard.jsx:44-201 | the alerts of earlier checks are about other vitals |
| Dashboard.RaisedRanks | frontend/components/PatientDashboard.jsx:44-201 | raised alerts follow the check order strictly |
| Dashboard.RankAt | frontend/components/PatientDashboard.jsx:43-201 | the i-th check has rank i |
| Dashboard.RanksAppend | frontend/components/PatientDashboard.jsx:44-201 | appending later checks' alerts keeps the check order |
| Dashboard.HeadBelowTail | frontend/components/PatientDashboard.jsx:44-201 | in check order the first alert ranks below the rest |
| Dashboard.GroupMembers | frontend/components/PatientDashboard.jsx:203-208 | a severity group holds exactly the list's alerts of that severity |
| Dashboard.GroupRanks | frontend/components/PatientDashboard.jsx:203-208 | a group keeps the check order |
| Dashboard.GroupAppend | frontend/components/PatientDashboard.jsx:203-208 | grouping distributes over concatenation |
| Dashboard.GroupTwice | frontend/components/PatientDashboard.jsx:203-208 | grouping an already grouped list is idempotent, and the other group of it is empty |
| Dashboard.GroupPartition | frontend/components/PatientDashboard.jsx:203-208 | the two groups together are a permutation of the list |
| Dashboard.CriticalFirstSpec | frontend/components/PatientDashboard.jsx:203-208 | the sort is a permutation, puts every critical alert first, and is stable within each severity |
| Dashboard.InExpected | frontend/components/PatientDashboard.jsx:34-222 | with valid inputs a vital's alert is shown iff its checks give it |
| Dashboard.GeneratedPerVital | frontend/components/PatientDashboard.jsx:34-222 | a vital's critical alert is shown iff its critical entry is breached; its warning iff the warning entry is breached and the critical one is not |
| Dashboard.GeneratedLength | frontend/components/PatientDashboard.jsx:35-221 | [] exactly without vitals or thresholds; otherwise between 1 and 5 alerts |
| Dashboard.RaisedSorted | frontend/components/PatientDashboard.jsx:203-221 | the result is the critical alerts then the others, each in check order |
| Dashboard.ConcatOrder | frontend/components/PatientDashboard.jsx:203-208 | critical-then-other, each in check order, is what the sort promises |
| Dashboard.GeneratedOrder | frontend/components/PatientDashboard.jsx:203-208 | critical alerts precede all others, and within a severity the check order is kept |
| Dashboard.GeneratedOnePerVital | frontend/components/PatientDashboard.jsx:61-221 | at most one alert per vital, and the normal item only ever alone |
| Dashboard.GeneratedKinds | frontend/components/PatientDashboard.jsx:211-221 | a shown item without a vital is the normal item |
| Dashboard.NoBreachRaisesNothing | frontend/components/PatientDashboard.jsx:44-201 | with no breach, no check raises anything |
| Dashboard.Unacknowledged | frontend/components/PatientDashboard.jsx:727 | exactly the unacknowledged alerts |
| Dashboard.DeterminePatientStatus | frontend/components/PatientDashboard.jsx:725-787 | an unacknowledged critical alert gives critical; else an unacknowledged non-critical alert titled "warning"/"alert" gives warning; else the HR/SpO2 thresholds decide |
| Dashboard.AcknowledgedIgnored | frontend/components/PatientDashboard.jsx:727-733 | acknowledged alerts never influence the status |
| Dashboard.AsStatusAlerts | frontend/components/PatientDashboard.jsx:34-222 | each generated alert becomes an unacknowledged list item with its title and severity |
| Dashboard.InStatusAlerts | frontend/components/PatientDashboard.jsx:34-222 | every generated alert appears as a list item |
| Dashboard.WarningTitleOfWarning | frontend/components/PatientDashboard.jsx:731-732 | a "<vital> Warning" title counts as a warning alert |
| Dashboard.NormalTitleIsQuiet | frontend/components/PatientDashboard.jsx:731-732 | "All Vitals Normal" does not count as a warning alert |
| Dashboard.CriticalBreachGivesCritical | frontend/components/PatientDashboard.jsx:725-746 | fed its own generated alerts, the status is critical once any vital breaches its critical entry |
| Dashboard.NoCriticalGenerated | frontend/components/PatientDashboard.jsx:34-222 | with no critical breach, no generated alert is critical |
| Dashboard.WarningBreachGivesWarning | frontend/components/PatientDashboard.jsx:725-750 | with no critical breach, a warning breach of any vital gives warning |
| Dashboard.NoBreachGivesStable | frontend/components/PatientDashboard.jsx:725-787 | with no breach at all, the only item is the normal one and the status is stable |

## Left out

- Concurrency: the asyncio task, its sleeps and cancellation, `setInterval` timing, and interleaving during an awaited broadcast. Each operation is one sequential step, and a poll loop runs over a finite sequence of ticks.
- Serialisation: `json.dumps`, `JSON.stringify`/`JSON.parse`, `isoformat`, and the formatted alert texts. A message is the values it carries.
- The dashboard's body, time and reassurance texts, and all rendering.
- Logging (`print`, `console.log`, `console.error`). It has no effect on state.
- Database engines and SQL. Tables are sequences. `ORDER BY ts ASC` is modelled by requiring the poller's table to be listed in ascending `ts`. `getUnresolvedAlerts` is a parameter.
- `app.websockets.manager` is not part of this model. The `ConnectionManager` class is used as the broadcast target in its place.
- The `ws` library's own bookkeeping. A socket joins `wss.clients` as OPEN on connection and leaves on close; nothing else of the library is modelled.
- VitalService.IngestBatch: one set of failing sockets per call, so a socket that fails fails every send of that batch.
- AlertsRouter.AcknowledgeAlert: one set of failing sockets per call.
- AlertEvaluator.WarningFloor: exact truncation of nine tenths for `hr_max` of any size. The source's double product `hr_max * 0.9` agrees with it for every value the SQL `Integer` column `hr_max` can hold (backend/app/models/threshold.py:13), but it can differ from about 1.25 × 10^15 (2^50) on, where doubles are 0.25 apart and a product ending in .9 rounds up; for example, `hr_max = 1260000000000001` gives 1134000000000001 in the source and 1134000000000000 here.
- Dashboard.GenerateAlerts: vitals and threshold bounds are `real`. JavaScript's NaN and coercion of non-numeric values are not modelled.
- Dashboard.DeterminePatientStatus: lower-casing is ASCII only. Non-ASCII letters in a title are not folded.
- Permissions.HasPermission: an action name inherited from `Object.prototype` (such as 'constructor') is treated as unknown. In the source it would be looked up on the prototype, and `includes` would throw.
- RbacMiddleware.Rbac: the role is a string and any non-empty one counts as present. Other truthy non-string roles are not modelled.
- ErrorHandler.Handle: a missing `message` is modelled as the handler throwing. A non-string `message` is not modelled.
- WebSocketServer.WsServer.OnConnection: the fallback id takes the clock in milliseconds as a parameter.
- WebSocketServer.WsServer.PollAlertsTick: `new Date(created_at)` is taken as an integer time. An unparsable date is not modelled.
- The Python schema's validation, which decides what a payload may contain. `evaluate_vital`'s schema is taken to have an optional SpO2, as its guard implies.
- A batch mixing patients. `ingest_batch` checks only the first item's patient and applies that patient's threshold to every item, and the model does the same. A stored reading keeps its own item's patient id.
