# Hotel room management: a verified model

The system runs the rooms of a hotel. A Go server takes check-ins, check-outs, extensions, payments and room
commands, switches relays over RS-485, records every request in SQLite, keeps its own copy of the rooms in
memory, and pushes changes to Flutter clients over server-sent events. A nightly exporter writes workbooks per
day and month. The controller the server replaces, an 8051 firmware, still has its own room machine, event log,
overtime timer and period report.

The project models five parts and the ties between them:

* **Realtime replication** — `Client.dfy`, `Replication.dfy`, `ReplicationRuns.dfy`,
  `ReplicationFailures.dfy`, `Announcements.dfy`, `Broker.dfy`, `RoomStore.dfy`, `Sse.dfy`. Server handlers and what
  they publish, the bounded queue of a subscriber, the connection and the client as one interleaved system; the
  broker under concurrency; pending commands and their timers; the text of the event stream.
* **Ledger and mirror** — `Database.dfy`, `Ledger.dfy`, `LastPayments.dfy`, `StayLifecycle.dfy`, `Server.dfy`,
  `Requests.dfy`, `AuditWindow.dfy`, `ServerLedger.dfy`, `MirrorRuns.dfy`, `Concurrent.dfy`, `ConcurrentRuns.dfy`,
  `ConcurrentExact.dfy`, `Store.dfy`. The five transactions over four tables, the second implementation of the same
  transitions in memory, the five handlers with their order of effects, one at a time and side by side, and restarts.
* **Transport** — `Frames.dfy`, `Transport.dfy`, `Relay.dfy`. One bit per port, checksummed frames, writes that
  may fail, what a listening board latches and a display shows, and the relay against the room status.
* **Firmware** — `Firmware.dfy`, `FirmwareMemory.dfy`, `PeriodReport.dfy`, `Periods.dfy`, `Overtime.dfy`,
  `CleanUpTime.dfy`, `FirmwareLog.dfy`. The room machine over its fixed arrays, the log with its in-place shift, the
  report, the timers on a clock that wraps.
* **Reporting** — `Calendar.dfy`, `Export.dfy`, `GroupBy.dfy`. Days and months, which exports are due, tables of
  totals.

Code that changes state in place is a class whose methods are proved equal to a function of the old state; the
properties are then proved about that function over whole runs. Money is exact, times are whole seconds of one
offset.

## What the proofs found

* **Remaining minutes go stale.** The repository's documents call the back end the source of truth, but the
  client's `copyWith` keeps the old value when an update carries none, and the server omits minutes that are not
  positive. Every check-out of a room with minutes left shows it (`ReplicationFailures.MinutesGoStale`); the
  exact condition is `Replication.MinutesConvergeExactlyWhen`.
* **Convergence is a matter of the schedule.** A client that has caught up agrees with the server on a room exactly
  when the last word on the room was taken after its last change (`ReplicationRuns.ConvergesExactlyWhen`). Two
  overlapping handlers of one room, or one full queue, can break that until the room's next update
  (`ReplicationFailures.OverlapDiverges`, `ReplicationFailures.FullQueueDiverges`).
* **Months are starved.** The month candidates are the months of days still to be uploaded, and a pass exports
  the days first. So a pass in which all due days go up never reports the month, nor does any later pass over the
  same events (`Export.SuccessfulDaysSkipTheMonth`, `Export.MonthIsStarved`).
* **A restart shows inconsistent requests.** An amount without a reference, a reference without an amount, a negative
  amount, an extension without a stay mode or one that shortens: for each there is a run after which memory and
  database differ and a restart shows it. With requests served one at a time there is none for any other request
  (`MirrorRuns.RestartNeverShowsExactlyWhen`).
* **Overlapping handlers part memory and row.** A handler takes no lock from reading the room to applying its change.
  Two extensions that read the same minutes leave the row an hour short; a check-in and a check-out that commit in
  one order and apply in the other leave the row vacant and the room occupied (`ConcurrentExact.LostExtension`,
  `ConcurrentExact.CrossedApplies`). The exact condition on the schedule is `ConcurrentExact.MirrorsExactlyWhen`.
* **The relay may run ahead.** A request that fails in the database, repeats a request id, or whose write fails has
  already switched the cached bit (`Relay.RelayAgreesExactlyWhen`, `Relay.FailedCommitRunsAhead`,
  `Relay.RepeatedIdRunsAhead`).
* **A full log parts relay and slot.** When the log is full the firmware switches the relay but keeps the status
  (`FirmwareLog.RelayTracksSlot`, `FirmwareLog.FullLogParts`).
* **A long extension ends overtime.** The allowance is a 16-bit number: an addition past 32767 minutes turns it
  negative (`Overtime.LongExtensionEndsOvertime`).
* **A cleaning past midnight cuts others short.** `CleanUP` carries the clock it has moved on by a day to the
  slots that follow (`CleanUpTime.CleaningEndsEarly`); the exact condition is
  `CleanUpTime.PollEndsCleaningExactlyWhen`.
* **Same-second check-ins** of one room are closed by id, not by age (`StayLifecycle.SameSecondRun`); the exact
  condition is `StayLifecycle.StackExactlyWhen`.
* **A negative amount** into a stay breaks its total for good, and nothing else does (`Ledger.NegativeAmountBreaks`,
  `Ledger.RunConserves`).
* **Same-second requests** whose ids descend change places in the audit list at a restart
  (`AuditWindow.SameSecondReorders`); the exact condition is `AuditWindow.RestartKeepsAuditWindow`.

## Model

| member | source | states |
|---|---|---|
| `Replication.ClientConverges` | go-backend/internal/httpapi/events.go:54-103 | Over every interleaving of handlers, publications, subscription, full state and deliveries, once everything has arrived the client agrees with the server on a room if and only if the room looks as it did at the step its last word was taken; a room unchanged since then agrees, with its positive minutes |
| `Replication.ClientShowsLastWord` | go-backend/internal/httpapi/events.go:54-103 | Once everything has arrived, the client shows every server room as the server had it when the last word on it was taken: the read of the last update the queue took, or the full state |
| `ReplicationRuns.ConvergesExactlyWhen` | go-backend/internal/httpapi/events.go:126-189 | For every schedule that ends with everything arrived: the client agrees with the server on a room whatever requests were served, if and only if the last word on the room was taken after its last change; overlapping handlers and dropped updates are allowed |
| `ReplicationRuns.StaleDisagrees` | go-backend/internal/httpapi/events.go:126-189 | For every schedule whose last word on a room was taken before its last change there is a request for that change, under an id no other request of the schedule has, with which the client ends with another status |
| `Replication.QuietRunConverges` | go-backend/internal/httpapi/events.go:54-103 | After every run in which handlers of one room do not overlap and no update meets a full queue, once handlers are done and everything has arrived, the client agrees with the server on status, stay mode, case and controller state of every room |
| `Replication.ClientStaysSorted` | flutter-cashier/lib/src/state/room_store.dart:126-156 | At every moment of every such run the client list is strictly ascending by id, so ids are unique |
| `Replication.ClientMinutes` | flutter-cashier/lib/src/models/room.dart:32-48 | At every moment the minutes shown for any room are those of the last full state, overwritten only by later updates that carry minutes |
| `Replication.MinutesConvergeExactlyWhen` | flutter-cashier/lib/src/models/room.dart:32-48 | Once everything has arrived, the client shows the minutes the server last had, positive, when it read an update the queue took or wrote the full state; a room without minutes agrees if and only if none were ever taken |
| `ReplicationFailures.MinutesGoStale` | flutter-cashier/lib/src/models/room.dart:46-46 | For every server with a room that has minutes left there is a run of the code in which that room is checked out, everything arrives, and the client still shows the old minutes |
| `ReplicationFailures.OverlapDiverges` | go-backend/internal/httpapi/server.go:400-721 | For every server and room there is a run of the code - a payment and a check-in or check-out whose handlers overlap, nothing dropped - after which the drained client shows another status than the server |
| `ReplicationFailures.FullQueueDiverges` | go-backend/internal/httpapi/events.go:43-52 | For every server and room there is a run of the code - eight unread payments, then a check-in or check-out, one handler at a time - after which the drained client shows another status than the server |
| `Replication.RunWord` | go-backend/internal/httpapi/events.go:126-189 | After every step of every interleaving the last word on its way to the client is the room as the server had it at step WordAt |
| `Replication.SnapshotWord` | go-backend/internal/httpapi/events.go:70-97 | Writing the full state after subscribing leaves the last word to the updates still queued behind it, and is the last word only where there are none |
| `Replication.FoldShowsLatest` | flutter-cashier/lib/src/state/room_store.dart:126-156 | Draining a queue leaves a room showing its latest update in the queue, or what it showed before |
| `Replication.FullStateShows` | go-backend/internal/httpapi/events.go:147-165 | Handling a full state shows every server room as the server has it, whatever the list was |
| `Client.UpdateHandled` | flutter-cashier/lib/src/state/room_store.dart:141-154 | An update changes the room it names, keeping old minutes when it carries none, inserts it when unknown, touches no other room, and keeps the list sorted |
| `Client.HandleKeepsOrder` | flutter-cashier/lib/src/state/room_store.dart:126-156 | Every well-formed event leaves a sorted list with unique ids |
| `Payloads.SortedIds` | go-backend/internal/httpapi/server.go:819-831 | The ids of the list are strictly ascending and exactly the known rooms |
| `Broker.EventBroker.Subscribe` | go-backend/internal/httpapi/events.go:27-41 | Adds one fresh, empty, open channel to the table and changes nothing else |
| `Broker.EventBroker.Unsubscribe` | go-backend/internal/httpapi/events.go:33-41 | However often it is called, it takes the channel from the table and closes it once; its queue is untouched |
| `Broker.EventBroker.Publish` | go-backend/internal/httpapi/events.go:43-52 | Terminates; every subscriber is offered the event once, dropped only when its queue is full; no closed channel is sent to |
| `BrokerInterleaving.NeverCrashes` | go-backend/internal/httpapi/events.go:27-52 | In no interleaving of subscribers, publishers, readers and unsubscriptions is a closed channel sent to or closed again, or a queue over 16 |
| `BrokerInterleaving.ReadsInOrder` | go-backend/internal/httpapi/events.go:43-52 | What a subscriber has read or has queued is an in-order subsequence of what was offered to it, and equal to it if its queue was never full |
| `BrokerInterleaving.OfferedAllInOrder` | go-backend/internal/httpapi/events.go:43-52 | A subscriber has been offered each publication begun since it subscribed exactly once, and of two that did not overlap the earlier first |
| `PendingCommands.RunPaired` | flutter-cashier/lib/src/state/room_store.dart:172-188 | Over all runs live timers and not-delayed pending commands correspond one to one |
| `PendingCommands.PendingIsLatestStart` | flutter-cashier/lib/src/state/room_store.dart:141-188 | A room is pending if and only if its latest start, update or failure is a start, and then for the action of that start |
| `PendingCommands.TimerFindsItsCommand` | flutter-cashier/lib/src/state/room_store.dart:174-181 | A timer that fires finds the very command that created it, still waiting, and marks that one only |
| `RoomStore.RoomStore.ClearPending` | flutter-cashier/lib/src/state/room_store.dart:185-188 | No command waits for the room and no timer of it runs; every other room keeps its own |
| `RoomStore.RoomStore.SetPending` | flutter-cashier/lib/src/state/room_store.dart:172-183 | The room waits for this action, and the one timer of it that runs is the one just started |
| `RoomStore.RoomStore.TimerFires` | flutter-cashier/lib/src/state/room_store.dart:174-181 | The firing timer finds the command that started it, not delayed yet, marks that one and no other, and is gone |
| `RoomStore.RoomStore.ActionFailed` | flutter-cashier/lib/src/state/room_store.dart:164-169 | Afterwards the room is not pending, even for an action started later, no timer of it runs, other rooms are untouched, and the error is set |
| `RoomStore.RoomStore.RunAction` | flutter-cashier/lib/src/state/room_store.dart:158-170 | When no event arrives while the request is out, the room is pending for the action exactly when the request succeeds; other rooms are untouched (what an update on the way does is PendingCommands.PendingIsLatestStart) |
| `RoomStore.RoomStore.PendingActionFor` | flutter-cashier/lib/src/state/room_store.dart:31-31 | What the screens read is the action of the latest start, update or failure of the room, if that is a start |
| `RoomStore.RoomStore.HandleEvent` | flutter-cashier/lib/src/state/room_store.dart:126-156 | The list becomes what the event says, an update ends the pending command of its room, the error stays |
| `Sse.RoundTrip` | go-backend/internal/httpapi/events.go:96-117 | For any events with keep-alive comments anywhere between them, parsing what is printed gives back the same names and payloads in order, without an exception, if and only if every event is one-line text with no white space around it and a payload that decodes |
| `Sse.FeedPrinted` | flutter-cashier/lib/src/services/sse_client.dart:22-35 | The same from any state of the parser, so a stream may be taken up between two events |
| `Sse.LinesOfTerminated` | flutter-cashier/lib/src/services/sse_client.dart:21-22 | The line splitter gives back the printed lines, whatever text follows |
| `Sse.LinesOfEnded` | flutter-cashier/lib/src/services/sse_client.dart:21-22 | A line ends at a line feed, a carriage return, or the two together |
| `Sse.YieldedAreCarried` | flutter-cashier/lib/src/services/sse_client.dart:22-35 | Whatever the lines, no message with an empty or undecodable payload, a line break or surrounding white space ever comes out of the parser |
| `Sse.Connect` | flutter-cashier/lib/src/services/sse_client.dart:14-37 | The loop over lines yields exactly the messages of the parser function and ends in an exception exactly when that fails |
| `Ledger.ConservationStep` | go-backend/internal/store/store.go:502-724 | A commit keeps every stay total equal to the sum of its check-in and extend payments if and only if its amount is not negative (or it extends no stay) |
| `Ledger.NegativeAmountBreaks` | go-backend/internal/store/store.go:519-564 | On every new database a check-in of minus one commits, and its stay total is not the sum of its payments |
| `Ledger.RunConserves` | go-backend/internal/store/store.go:502-724 | After every run of transactions, rolled-back ones included, every stay total is the sum of the payments carrying its id whose payment id is not their request id, if and only if no committed check-in had a negative amount and no committed extension a negative amount into an open stay |
| `Ledger.AuditsAreCommits` | go-backend/internal/store/store.go:1370-1388 | The audit table lists the committed requests in commit order |
| `Ledger.NoDoubleCommit` | go-backend/internal/store/store.go:260-271 | No request id is committed twice over all five kinds of transaction, and no two payments share a request id |
| `Ledger.CommitsExactlyWhen` | go-backend/internal/store/store.go:208-305 | A healthy transaction commits if and only if its room exists, its request id is new, and no payment has the payment id it would insert |
| `Database.CommittedPayments` | go-backend/internal/store/store.go:613-724 | Exactly which payment, if any, each committed transaction appends - ids, stay, room, amount, method, reference and time; all earlier payments stay |
| `LastPayments.LastPaymentIsLatest` | go-backend/internal/store/store.go:1286-1368 | After every run of consistent requests and restarts, with any failures, the payment columns of every room, in its row and in memory, are the amount, method and reference of the latest payment stored for it, and blank while there is none |
| `LastPayments.FollowsExactlyWhen` | go-backend/internal/store/store.go:1286-1332 | A check-in or extension keeps every row with its payments, on all tables, if and only if it pays with a reference or does neither |
| `Database.CommittedAudits` | go-backend/internal/store/store.go:1370-1388 | Each commit appends one audit row under its request id, which no row had |
| `Database.RowChanges` | go-backend/internal/store/store.go:1286-1349 | A commit touches one room row and never its floor: check-in and extension occupy it, check-out and finish_cleaning empty it, start_cleaning changes its status alone, a payment its payment columns alone, open_room and service nothing |
| `Database.StayChanges` | go-backend/internal/store/store.go:502-681 | A check-in adds one open stay with the booking it names; otherwise no stay comes or goes and at most the found one changes: ended by a check-out with its minutes counted, its booking replaced and its total raised by an extension, its clean-up time set once by finish_cleaning |
| `StoreObject.Store.Record` | go-backend/internal/store/store.go:1257-1270 | All or nothing: commits exactly when the body succeeds and the database is healthy, otherwise every table is as before |
| `StoreObject.Store.FindActive` | go-backend/internal/store/store.go:1390-1414 | One pass finds the active stay of the query: latest guest-in, then greatest id; an empty id counts as none |
| `StoreObject.Store.FindClosed` | go-backend/internal/store/store.go:1416-1436 | One pass finds the stay finish_cleaning marks: latest guest-out, then greatest id |
| `StayLifecycle.OpenStaysAreStack` | go-backend/internal/store/store.go:568-611 | While each check-out finds the most recent open check-in to be the latest by guest-in and id, the open stays of a room are the stack its committed check-ins and check-outs build |
| `StayLifecycle.StackExactlyWhen` | go-backend/internal/store/store.go:568-611 | The open stays of a room have been that stack after every call if and only if each committed check-out found the most recent open check-in to be later, by guest-in and then id, than the other open stays |
| `StayLifecycle.FindsTopExactlyWhen` | go-backend/internal/store/store.go:1390-1414 | The query finds the most recent open check-in if and only if that is later, by guest-in and then id, than every other open stay of the room |
| `StayLifecycle.FindsActiveExactlyWhen` | go-backend/internal/store/store.go:1390-1414 | A stay is the one found if and only if it is open, has an id, and came in after every other open stay of the room, of those of one second with the greatest id |
| `StayLifecycle.OrderChecksOutLatest` | go-backend/internal/store/store.go:568-611 | Calls in time order, with same-second check-ins of a room in the order of their ids, always check out the most recent |
| `StayLifecycle.CommitStacks` | go-backend/internal/store/store.go:1390-1414 | One commit does to the open stays of a room what it does to the stack, if and only if it is no check-out of the room or the most recent open check-in is its latest open stay |
| `StayLifecycle.StaysAreOk` | go-backend/internal/store/store.go:1512-1517 | In every run whose clock does not go back: in use iff no guest-out; in ≤ out ≤ clean-up; used minutes are the floor of out minus in |
| `StayLifecycle.ClosedForEver` | go-backend/internal/store/store.go:568-611 | What a stay has recorded at any point of any run, at whatever times, it still has at the end: in, out, used minutes, status and total once closed, clean-up once set |
| `StayLifecycle.CleaningMarksLatest` | go-backend/internal/store/store.go:1416-1436 | finish_cleaning marks the stay of the room that ended last, of those of one second the one with the greatest id |
| `StayLifecycle.SameSecondRun` | go-backend/internal/store/store.go:1390-1414 | A run: "b" checks in, "a" after it in the same second, and the check-out closes "b" |
| `Server.ServeIsAtomic` | go-backend/internal/httpapi/server.go:400-721 | An accepted request is applied to memory and database, any other to neither |
| `MirrorRuns.RestartNeverShowsExactlyWhen` | go-backend/internal/httpapi/server.go:917-1008 | With requests served one at a time: a request is consistent - amount and reference both given or both absent, an extension names a stay mode and does not shorten - if and only if no run of it and consistent requests, with whatever restarts and failures, ever lets a restart change a room |
| `MirrorRuns.InconsistentShows` | go-backend/internal/store/store.go:1286-1332 | For every inconsistent check-in or extension there is a run of two requests on a new database, without any failure, after which a restart changes a room; a shortening extension takes one more extension |
| `Mirror.ConsistentStaysInStep` | go-backend/internal/httpapi/server.go:917-1008 | A consistent request makes of a room in memory and of its row the same again, in every room and row that agree |
| `Mirror.RunMirrors` | go-backend/internal/httpapi/server.go:400-721 | Over every run of consistent requests, served one at a time, and restarts, with any bus and database failures, the in-memory room equals its row on every column but updated_at |
| `Mirror.RestartIsInvisible` | go-backend/internal/httpapi/server.go:219-261 | After any run of consistent requests, served one at a time, restarting through bootstrap changes nothing in any room but updated_at |
| `ConcurrentExact.MirrorsExactlyWhen` | go-backend/internal/httpapi/server.go:400-721 | For every schedule of overlapping handlers of consistent requests, with any failures, at whose end no handler of a wired room is between commit and apply: the room in memory equals its row, whatever consistent requests came just as far, if and only if the handlers of the room apply in the order they commit and each extension reads the room after every handler that commits before it has applied |
| `Concurrent.MirrorsWhenOrderly` | go-backend/internal/httpapi/server.go:400-721 | For every such orderly schedule, and any mapped room, memory and row agree on every column but updated_at, controller online and minutes not negative |
| `ConcurrentExact.DisorderParts` | go-backend/internal/httpapi/server.go:602-664 | For every schedule that is not orderly there are consistent requests, coming just as far at every step, after which memory and row differ |
| `Concurrent.AloneIsServe` | go-backend/internal/httpapi/server.go:400-721 | The four steps of one handler with nothing in between are the request served at once: same rooms, tables, relay word and outcome |
| `ConcurrentExact.LostExtension` | go-backend/internal/httpapi/server.go:602-664 | A run: two extensions of an hour, both read before either applies; memory ends with 120 minutes, the row with 60 |
| `ConcurrentExact.CrossedApplies` | go-backend/internal/httpapi/server.go:400-508 | A run: a check-in and a check-out commit in this order and apply in the other; the row ends vacant, memory occupied, the relay off |
| `AuditWindow.RunWindow` | go-backend/internal/httpapi/server.go:833-845 | Over runs of consistent requests, with any failures, served one at a time, the in-memory audit list is the newest 200 rows of the audit table, newest first (a command entry may lack stay mode and case), while at each restart those rows ascend by time and, within a second, by id |
| `AuditWindow.RestartKeepsAuditWindow` | go-backend/internal/store/store.go:455-500 | After any such run, restarting shows the same entries in the same order if and only if the newest 200 rows ascend by time and, within a second, by id |
| `AuditWindow.NewestFirstReverses` | go-backend/internal/store/store.go:455-500 | Ordering by time and id descending begins with the newest k rows, last row first, when these ascend among themselves and above all earlier ones |
| `AuditWindow.ClockOrdersRows` | go-backend/internal/store/store.go:455-500 | While the clock does not go back and ids ascend within a second, all rows of the audit table ascend, so every restart keeps the list |
| `AuditWindow.SameSecondReorders` | go-backend/internal/store/store.go:455-500 | A run: check-outs "b" and "a" in one second, and a restart shows their entries the other way round |
| `ServerLedger.ServerConserves` | go-backend/internal/httpapi/server.go:400-721 | Over every run of fair requests and restarts, with any failures, the stored totals hold and no request is committed or paid for twice |
| `ServerObject.Start` | go-backend/internal/httpapi/server.go:219-261 | A process started on the tables of an earlier one has the state restarts are reasoned about: rows seeded, defaults overwritten by rows, recent audit, empty relay cache |
| `ServerObject.StateStore.LoadFrom` | go-backend/internal/httpapi/server.go:203-261 | The mapped rooms as vacant defaults, every stored row over them, and the stored audit |
| `StoreObject.Store.SeedRooms` | go-backend/internal/store/store.go:307-353 | A row per mapping: a new vacant one, or the floor of the old one refreshed and all else kept |
| `ServerObject.HttpServer.HandleCheckIn` | go-backend/internal/httpapi/server.go:400-462 | Relay, room check, database, memory and audit in that order, every early return leaving exactly what had been done; an accepted request publishes its audit entry first, an alert exactly when the door of a vacant room was opened, and last the room, so that any ordered client list then shows it as the server has it and no other room has changed; any other request publishes nothing |
| `ServerObject.HttpServer.HandleCheckOut` | go-backend/internal/httpapi/server.go:464-508 | The same for a check-out, which does not check the room: state, outcome and what is published |
| `ServerObject.HttpServer.HandleExtend` | go-backend/internal/httpapi/server.go:602-664 | The same for an extension, with the minutes computed from the room it read: state, outcome and what is published |
| `ServerObject.HttpServer.HandlePayment` | go-backend/internal/httpapi/server.go:666-721 | The same for a payment, which leaves the bus alone: state, outcome and what is published |
| `ServerObject.HttpServer.HandleRoomCommand` | go-backend/internal/httpapi/server.go:510-600 | The same for the four commands, of which open_room and service leave the bus alone: state, outcome and what is published, with the alert for a vacant room |
| `Announcements.AcceptedTells` | go-backend/internal/httpapi/events.go:126-189 | For every accepted request, from any state with rooms filed under their own ids: it publishes its audit entry first, an alert exactly when the door of a vacant room was opened, and last the room, so that any ordered client list then shows it as the server has it and no other room has changed |
| `Announcements.HandlerEnqueues` | go-backend/internal/httpapi/events.go:126-189 | The steps of one handler with nothing in between - apply, publish the entry, alert when due, read back, publish - put exactly what the request announces on the queue, each event while there is space |
| `Announcements.ClientFollowsServer` | go-backend/internal/httpapi/server.go:400-721 | A client that shows every room as it is, and handles everything the server publishes over any run of requests with any failures, shows every room as it then is, with positive minutes |
| `Announcements.FullStateShowsAll` | go-backend/internal/httpapi/events.go:147-165 | A handled full state shows every room of the server with its floor, its four states and its minutes, none when there are none left |
| `Requests.CheckInMeans` | go-backend/internal/httpapi/server.go:400-462 | A check-in occupies room and row under the stay mode and case given, the mode when no case is, for the hours given but at least two hours, thirty days, a year or twelve hours by its mode |
| `Requests.ExtendMeans` | go-backend/internal/httpapi/server.go:602-664 | An extension adds its minutes and keeps in memory what it leaves blank; the row gets the sum, never counting from below zero |
| `Requests.EntrySays` | go-backend/internal/httpapi/server.go:802-817 | Which action, actor and detail the audit entry of each request has, with the fallbacks for a blank actor, source, service and reason |
| `Requests.RoomsAreOnTheirFloors` | go-backend/internal/httpapi/server.go:1026-1034 | After every run of consistent requests and restarts a room, in memory and in its row, is on the floor its id begins with |
| `Requests.RestartReadsRows` | go-backend/internal/httpapi/server.go:219-261 | Whatever came before, a restart reads every column of every row, the update time too, and keeps the other tables |
| `ServerObject.StateStore.FullState` | go-backend/internal/httpapi/events.go:147-165 | All rooms by ascending id, and a summary that counts every status exactly |
| `ServerObject.StateStore.ListIds` | go-backend/internal/httpapi/server.go:819-831 | The ids of the map, sorted, each once |
| `ServerObject.StateStore.AppendAudit` | go-backend/internal/httpapi/server.go:833-845 | The new entry is first, the others follow in their order, and the list is cut at 200 |
| `Relay.AgreementStep` | go-backend/internal/httpapi/server.go:400-664 | After one request the cached relay bit of a room equals "not vacant" if and only if it did and the request asks nothing of that relay, or the request is acceptable, or it asks for what the status already says |
| `Relay.AcceptedExactlyWhen` | go-backend/internal/httpapi/server.go:400-721 | A request is accepted if and only if its action is known, its room known where that is looked up, the relay takes the command and both writes go through where there is one, the database is healthy and has the room, and neither the request id nor the payment id is taken |
| `Relay.RelayAgreesExactlyWhen` | go-backend/internal/httpapi/server.go:747-766 | From an all-vacant start, after any requests served one at a time, write failures and database failures, the bit of a room with its own port agrees with its status if and only if the latest request that asked something of it was acceptable or asked for what the status said |
| `Concurrent.RelayAgreesExactlyWhen` | go-backend/internal/httpapi/server.go:747-766 | At every moment of every schedule of overlapping handlers, with any failures, the bit of a room with its own port agrees with its status if and only if the latest drive that asked something of the relay and the latest apply that set the status want the same |
| `Relay.FailedCommitRunsAhead` | go-backend/internal/httpapi/server.go:400-462 | A run: one check-in whose transaction fails leaves the relay on and the room vacant |
| `Relay.RepeatedIdRunsAhead` | go-backend/internal/httpapi/server.go:464-508 | A run without failures: a check-out that repeats the request id of the check-in leaves the relay off and the room occupied |
| `Relay.RelaysAgreeWithRooms` | go-backend/internal/httpapi/server.go:747-766 | From an all-vacant start, while every request that asks something of a relay is acceptable, the bit of every room with a port of its own is set iff the room is not vacant |
| `Relay.ServeRelay` | go-backend/internal/transport/service.go:51-95 | The relay follows what a request asks, whether or not the request goes on to succeed |
| `Transport.CacheIsFold` | go-backend/internal/transport/service.go:62-82 | For every run and every pattern of write failures, the cached bit of a port is what the latest accepted intent for it asked |
| `Transport.BoardReplaysIntents` | go-backend/internal/transport/service.go:62-95 | A listening board holds exactly what had been asked of each of its ports when it was last written to |
| `Transport.SuccessfulWriteCatchesUp` | go-backend/internal/transport/service.go:72-82 | After a slave write that got onto the wire the board holds the fold of all accepted intents, including those whose own write failed |
| `Transport.LampShowsIntents` | go-backend/internal/transport/service.go:51-95 | For every run and every pattern of failures, the display shows at each card and port mode 0 if the latest intent it was told of that place wanted the room vacant, mode 3 if any other state, nothing before the first |
| `Transport.LampOfRoom` | go-backend/internal/legacy/mapping.go:3-16 | The lamp of a room with a card below 16 and a port of its own is dark exactly when the latest intent for it whose display frame got onto the wire wanted it vacant, and lit otherwise |
| `Transport.AcceptExactlyWhen` | go-backend/internal/transport/service.go:51-69 | An intent gets as far as the cache if and only if its room is mapped, its state is one of the four the bus knows and its port is 0..15 |
| `Transport.Service.ApplyIntent` | go-backend/internal/transport/service.go:51-95 | Looks up, maps, patches, caches and writes the two frames in order, with an error at each stage leaving what came before; what boards and displays make of the frames is Transport.BoardReplaysIntents and Transport.LampShowsIntents |
| `Frames.SlavePayload.SetPortStatus` | go-backend/internal/legacy/payload.go:13-33 | Accepted iff port 0..15 and status 0..4; then the bit of the port is set iff the status is at least occupied and the other fifteen stay; otherwise the word stays |
| `Frames.PatchBits` | go-backend/internal/legacy/payload.go:13-33 | Accepted iff port 0..15 and status 0..4; the port bit is set iff the status is at least occupied, the other fifteen bits stay |
| `Frames.Checksum` | go-backend/internal/legacy/frame.go:15-21 | The one byte, and the only one, that brings the sum of the frame to 0 modulo 256 |
| `Frames.BuildSlaveFrame` | go-backend/internal/legacy/frame.go:3-8 | Five bytes that sum to 0 modulo 256 |
| `Frames.SlaveFrameRoundTrip` | go-backend/internal/legacy/frame.go:3-8 | The board addressed latches the very word that was sent, every other board nothing |
| `Frames.OneByteChangeIsCaught` | go-backend/internal/legacy/frame.go:15-21 | Changing any one byte of any frame that sums to 0 makes every board ignore it |
| `Frames.DisplayFrameIsIgnored` | go-backend/internal/legacy/frame.go:10-13 | No board takes a display frame for a slave frame |
| `Frames.DisplayFrameShows` | go-backend/internal/legacy/frame.go:10-13 | A display frame sets the mode at its port of the card, counted modulo 16, and nowhere else |
| `Frames.PortRefInverts` | go-backend/internal/legacy/payload.go:43-45 | The display reference gives card and port back if and only if the card is below 16 |
| `FirmwareInvariants.LogAlternates` | AMP_V2D.C:704-732 | In every reachable log, for every room table, consecutive records of a room are one OUT and one in/cup/ot, and the OUT names the mode it closes |
| `FirmwareLog.RelayTracksSlot` | AMP_V2D.C:1863-1885 | In every run a relay disagrees with its slot if and only if the latest transition of the slot came when the records before it left no space in the log (the OUT of a never used slot apart) |
| `FirmwareLog.RelaysFollowSlots` | AMP_V2D.C:1863-1885 | While the log has never been full, each relay is on if and only if its slot is in, cleaning or overtime |
| `FirmwareLog.LogIsQueue` | AMP_V2D.C:488-563 | Over every run, what has been cleared followed by the log is, step by step, the transitions the slots called for, as many of each step as found space: nothing doubled or reordered |
| `FirmwareLog.NothingLostExactlyWhen` | AMP_V2D.C:1709-1736 | A run has lost no transition if and only if every step found space for all the records it called for |
| `FirmwareLog.StepRecords` | AMP_V2D.C:1709-1736 | The log after any step that clears nothing is the log before and the records the slots called for - one per accepted key, each ended cleaning, each expired overtime - cut at 3800 |
| `FirmwareLog.StepAtSlot` | AMP_V2D.C:1863-1885 | A slot whose turn it is switches its relay in any case and takes the new status only if the log takes the record; any other slot keeps both |
| `FirmwareLog.FullLogParts` | AMP_V2D.C:1709-1736 | For every room with a port there is a run that fills the log, after which its relay is on and its status OUT |
| `FirmwareInvariants.RunKeepsInv` | AMP_V2D.C:734-884 | Every run keeps: period end ≤ record index ≤ 3800, alternation, a used slot is its room's own, and slots agree with the last record of their room |
| `PeriodReport.ReachableReportIsExact` | AMP_V2D.C:1309-1438 | After any run, each record of a room 100..999 in the period stands on exactly one line of the report; which records those are is Periods.PeriodHolds |
| `Periods.PeriodHolds` | AMP_V2D.C:498-509 | After any run the log holds the records made and not cleared, and the period exactly those of them that were in the log at the latest add period, nothing when something has been cleared since or none was added |
| `Periods.ReportOfAddedPeriod` | AMP_V2D.C:1309-1438 | Once a period has been added, and whatever is keyed in or polled after it, each printable record of the log as it then was stands on exactly one line of the report |
| `Periods.ClearedPeriodLeavesRest` | AMP_V2D.C:538-555 | Clearing an added period leaves exactly the records made after it was added, in order |
| `PeriodReport.ReportIsInOrder` | AMP_V2D.C:1328-1434 | Lines stand in the order of the rooms 100..999, those of one room in the order of their records |
| `PeriodReport.ReportPartitionsPeriod` | AMP_V2D.C:1328-1434 | The same for any alternating log |
| `PeriodReport.ReportPairsRecords` | AMP_V2D.C:1328-1434 | A line opens with an in/cup/ot record and closes with the next record of its room, if any, or is the line of an OUT alone that is the first of its room |
| `PeriodReport.OutAloneExactlyWhenFirst` | AMP_V2D.C:1391-1434 | An OUT of a room 100..999 is printed alone if and only if it is the first record of its room in the period |
| `PeriodReport.EntryOpensLine` | AMP_V2D.C:1334-1389 | Every in/cup/ot record of a room 100..999 opens a line that the next record of its room closes |
| `PeriodReport.FirstOutIsNext` | AMP_V2D.C:1346-1373 | In an alternating log the scan for an OUT stops at the very next record of the room |
| `PeriodReport.OutAloneIsFirst` | AMP_V2D.C:1391-1402 | The backward scan finds an active record if and only if the OUT is not the first of its room |
| `FirmwareMemory.Controller.ClearPeriod` | AMP_V2D.C:538-555 | The overlapping in-place shift leaves exactly the records after the period, in order, and blanks the rest |
| `FirmwareMemory.Controller.SaveAndPrint` | AMP_V2D.C:1709-1736 | Appends a record and updates the status, or does neither when the log is full |
| `FirmwareMemory.Controller.SearchSlave` | AMP_V2D.C:1850-1861 | The nested search finds the first slot of the room |
| `FirmwareMemory.Controller.RoomOnoff` | AMP_V2D.C:1863-1885 | Sets or clears the relay bit of the room and no other |
| `FirmwareMemory.Controller.CheckOverTime` | AMP_V2D.C:704-732 | The nested loop puts out every expired overtime slot, in slot order |
| `FirmwareMemory.Controller.CleanUp` | AMP_V2D.C:1044-1069 | The nested loop, with the clock value it carries from slot to slot |
| `FirmwareMemory.Controller.Enter` | AMP_V2D.C:734-884 | A status chosen for a room: refused when unknown, unchanged or from one active status to another |
| `FirmwareMemory.Controller.ClearRecord` | AMP_V2D.C:2542-2557 | Empties the log and the period, keeps slots and relays |
| `FirmwareMemory.Controller.PrnPeriod` | AMP_V2D.C:1309-1438 | The three nested scans print exactly the lines of the report function |
| `FirmwareMemory.Controller.constructor` | AMP_V2D.C:2507-2540 | The memory after ClearRam |
| `Overtime.OvertimeIsExact` | AMP_V2D.C:704-732 | With one poll a minute showing valid BCD time and room in the log, an overtime slot goes out at exactly the minute its allowance ends, extensions counted, if that is at most 1439, and never if it is 1440 or more |
| `Overtime.LongExtensionEndsOvertime` | AMP_V2D.C:826-832 | An addition that takes an allowance past 32767 minutes makes it negative, and the next poll puts the room out |
| `Overtime.ElapsedIsModulo` | AMP_V2D.C:711-714 | The wrapped subtraction is the true distance modulo a day |
| `Overtime.PollAt` | AMP_V2D.C:704-732 | One whole poll, clean-up first, seen from one overtime slot |
| `Overtime.EnterStartsOvertime` | AMP_V2D.C:826-832 | Choosing OT for a room not in use starts the count |
| `Overtime.ShownTime` | AMP_V2D.C:1072-1081 | The BCD digits read back as minutes of the day |
| `Overtime.ClockByteReads` | AMP_V2D.C:1072-1081 | Any byte of the clock, valid or not, is read as the decimal number its two printed hex digits begin with |
| `CleanUpTime.PollEndsCleaningExactlyWhen` | AMP_V2D.C:1044-1069 | A poll puts out a room being cleaned if and only if its time is up, counting a day too many when an earlier slot holds a cleaning from before midnight and its own began after |
| `CleanUpTime.CleaningNeverOverruns` | AMP_V2D.C:1044-1069 | No cleaning survives a poll that finds its time up, and none ends early unless an earlier slot holds one from before midnight |
| `CleanUpTime.CarriedClock` | AMP_V2D.C:1048-1056 | The clock carried from slot to slot is a day ahead exactly when such a cleaning has been passed |
| `CleanUpTime.CleaningEndsEarly` | AMP_V2D.C:1048-1056 | A run: a cleaning starts at 23:59, another at 00:00, and the poll of 00:01 ends the second, which has had one minute, and not the first |
| `Calendar.YearsAgree` | go-backend/internal/store/store.go:1526-1533 | Counting month by month reaches each new year where the leap-year rule puts it, for all years |
| `Calendar.MonthIsUnique` | go-backend/internal/store/store.go:1484-1486 | A day lies between a month's start and the next month's start if and only if that is its month |
| `ReportLists.MonthIsItsDays` | go-backend/internal/store/store.go:1139-1165 | The month list of payments or audits is the lists of its days one after the other: nothing missing, nothing twice |
| `ReportLists.MonthTotalIsSumOfDays` | go-backend/internal/store/store.go:1139-1151 | The takings of a month are the sum of the takings of its days |
| `ReportLists.StayInMonthIffInSomeDay` | go-backend/internal/store/store.go:1488-1510 | A stay is in the month list if and only if it is in the list of some day of the month |
| `ReportLists.StayOnDayExactlyWhen` | go-backend/internal/store/store.go:1488-1510 | A stay is in the list of a day if and only if the guest came or left, the room was cleaned or the record last touched on that day |
| `ReportLists.ListOnDay` | go-backend/internal/store/store.go:1023-1059 | The loop over ordered rows gives the rows of the day, in order |
| `ReportLists.ListOfMonth` | go-backend/internal/store/store.go:1139-1165 | The loop over ordered rows gives the rows of the month, in order |
| `Export.CandidateDays` | go-backend/internal/store/store.go:827-893 | Strictly increasing; a day is in it if and only if it is a past local day with an event and not marked uploaded |
| `Export.CandidateMonths` | go-backend/internal/store/store.go:1100-1133 | Strictly increasing; a month is in it if and only if it is past, not uploaded, and the month of a day that is due |
| `Export.UploadedForEver` | go-backend/internal/reporting/exporter.go:102-202 | Through any number of passes, what has been uploaded stays uploaded |
| `Export.UploadedExactlyWhen` | go-backend/internal/reporting/exporter.go:102-166 | After any number of passes a day is uploaded if and only if it was at the start, or some pass found it past and with an event and every step of its export went well |
| `Export.StatusIsLatestRecord` | go-backend/internal/reporting/exporter.go:126-166 | After any number of passes the status of a day is that of its latest recorded export - uploaded, exported locally without an uploader, failed otherwise - and the one it had at the start while there was none |
| `Export.PassUploads` | go-backend/internal/reporting/exporter.go:126-166 | One pass marks a day uploaded only when the directory, the data, the workbook, the uploader, the upload and the record of it all go well, and then always |
| `Export.DailyExporter.ExportDate` | go-backend/internal/reporting/exporter.go:126-166 | Each early return records what the source records: nothing without a directory, a failure, a local export, or an upload |
| `Export.DailyExporter.ExportMonth` | go-backend/internal/reporting/exporter.go:168-202 | The same for a month, days untouched |
| `Export.DaysAreIndependent` | go-backend/internal/reporting/exporter.go:107-111 | What becomes of a day in a pass depends on its own attempt alone |
| `Export.MonthDueExactlyWhen` | go-backend/internal/store/store.go:1100-1133 | A month is due if and only if it is past, not uploaded, and some day of it with an event is not uploaded |
| `Export.MonthIsStarved` | go-backend/internal/reporting/exporter.go:102-124 | Once all days of a past month are uploaded before its own report is, no later pass over the same events reports it |
| `Export.SuccessfulDaysSkipTheMonth` | go-backend/internal/reporting/exporter.go:102-124 | A pass in which every due day goes up skips the past month, however its own export would have gone |
| `Export.DailyExporter.RunPending` | go-backend/internal/reporting/exporter.go:102-124 | A pass changes the status of each due day and month by its own attempt and keeps every other status |
| `GroupBy.Group` | go-backend/internal/reporting/exporter.go:348-397 | The map-filling loop: keys distinct, exactly those that occur, each with the sum of its entries |
| `GroupBy.RowsAddUp` | go-backend/internal/reporting/exporter.go:348-500 | The rows of a table over distinct keys add up to the whole input, in whatever order |
| `GroupBy.DaySheetAddsUp` | go-backend/internal/reporting/exporter.go:348-397 | The day rows count every stay, payment and audit entry exactly once and their amounts make up the takings |
| `GroupBy.StayModeSheetAddsUp` | go-backend/internal/reporting/exporter.go:399-429 | The stay-mode rows add up to all stays and amounts |
| `GroupBy.MethodSheetAddsUp` | go-backend/internal/reporting/exporter.go:431-460 | The payment-method rows add up to all payments |
| `GroupBy.RoomSheetAddsUp` | go-backend/internal/reporting/exporter.go:462-500 | The room rows add up to all stays, minutes and amounts; what a room row holds is GroupBy.TopRooms |
| `GroupBy.TopRooms` | go-backend/internal/reporting/exporter.go:462-500 | Exactly the rooms of the stays (one word for those without), each once, by count descending then id ascending, each with the number, amounts and minutes of its own stays, which add up to all stays |
| `GroupBy.DaySheet` | go-backend/internal/reporting/exporter.go:348-397 | A row for every day on which a guest came, a payment was made or an entry noted, in order, with their numbers and what was paid on it; the rows add up to everything |
| `GroupBy.StayModeSheet` | go-backend/internal/reporting/exporter.go:399-429 | A row for every stay mode of the stays (unknown for a blank one), in the order of names, with the number and amounts of its own stays; the rows add up to all |
| `GroupBy.MethodSheet` | go-backend/internal/reporting/exporter.go:431-460 | A row for every method of the payments (one word for a blank one), in the order of names, with the number and amounts of its own payments; the rows add up to all |

## Left out

* HTTP routing, JSON and its errors, CORS, the dashboard files, configuration: a request starts decoded.
* A server without a database, a failing bootstrap or migration, a commit whose outcome is unknown.
* SQLite, excelize, Google Drive, the serial port and clocks: tables are maps and sequences with keys, and
  failures and times come in as parameters.
* Floating point, 64-bit overflow and the width of SQLite columns: money is real, counts are integers.
* Times below a second, and several UTC offsets in one database.
* The column `stays.remark`, the table `export_runs`, and the paths and error texts of `report_runs`.
* Two calls of `ApplyIntent` at once: its cache has no lock, so calls come one at a time.
* LCD, keypad, printer bytes, LEDs, password prompts and the display output of the firmware; editing its room
  table. The two-dimensional arrays are one array, card `i`, port `j` at `i * 16 + j`.
* Entering a room number of the firmware other than three digits, and leaving a menu half-way.
* The client's `refresh` and reconnection, the handheld and dashboard stores, and the screens.
* The chunks in which the stream's bytes arrive: the parser gets whole lines.
* A failing lookup of export candidates, which ends that half of the pass.
* The alerts page, `listAudit` by room, the Google Drive settings.
* The sheets that only list rows, and column styling.
- Replication.ClientConverges: the handlers begin where they change memory; the transactions before it, and the order of commits and applies, belong to `ConcurrentExact.MirrorsExactlyWhen`.
- ConcurrentExact.MirrorsExactlyWhen: from a new database and without restarts; a drive of the relay is one step; the audit list and the events are not part of it.
- Concurrent.MirrorsWhenOrderly: from a new database and without restarts.
- Mirror.RunMirrors: requests are served one at a time; `ConcurrentExact.MirrorsExactlyWhen` has the overlapping ones.
- Mirror.RestartIsInvisible: requests are served one at a time.
- MirrorRuns.RestartNeverShowsExactlyWhen: requests are served one at a time.
- Relay.RelayAgreesExactlyWhen: requests are served one at a time; `Concurrent.RelayAgreesExactlyWhen` has the overlapping ones.
- ServerObject.HttpServer.HandleCheckIn: as the other handlers of the class, it runs without another in between; `Concurrent.AloneIsServe` ties it to the steps of an overlapping one.
- ReplicationRuns.ConvergesExactlyWhen: which alerts are raised is part of the schedule, since an alert takes a place in the queue; the runs of `ReplicationFailures` raise those the code raises.
- Replication.RunWord: one subscriber; a failed write to the response, after which the connection ends, is not a step.
- Sse.RoundTrip: JSON itself is not modelled; which texts decode to an object is a parameter.
- ServerObject.StateStore.AppendAudit: the fallback id for an entry without one, since every handler passes an id.
- CleanUpTime.PollEndsCleaningExactlyWhen: times are valid times of day and no poll leaves the log full.
- Overtime.OvertimeIsExact: the allowance must fit in the 16-bit `int` of the compiler, and no poll may leave the log full.
- StayLifecycle.StaysAreOk: the clock must not go back between requests.
- AuditWindow.RunWindow: requests are served one at a time, and at each restart the newest 200 rows ascend by time and id.
- RoomStore.RoomStore.RunAction: no event arrives while the request is out.
- ServerObject.HttpServer.HandleRoomCommand: an alert is its audit id and room; its title, severity and texts are constants.
- GroupBy.DaySheet: a stored stay always has a guest-in time, so the other times the loop tries are never reached.
- Export.CandidateDays: day keys are numbers, whose order is that of the printed keys for years of four digits.
- ReportLists.MonthIsItsDays: one fixed offset; zones with changing offsets are not modelled.
