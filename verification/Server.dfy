/** The HTTP server's own copy of the rooms and the five room handlers (`httpapi/server.go`), from a decoded
    request to the state it leaves behind. */
module Server {
  import opened Core
  import opened Database
  import Frames
  import StringOrder
  import Transport

  /** roomState */
  datatype RoomState = RoomState(
    roomId: string, floor: int, status: RoomStatus, stayMode: string, caseCode: string, controllerOnline: bool,
    remainingMinutes: int, lastPaymentAmount: real, lastPaymentMethod: string, lastPaymentRef: string, updatedAt: int)

  datatype Request =
    | CheckInRequest(requestId: string, roomId: string, stayMode: string, caseCode: string, stayHours: int,
      amount: real, paymentRef: string)
    | CheckOutRequest(requestId: string, roomId: string)
    | ExtendRequest(requestId: string, roomId: string, stayMode: string, caseCode: string, extendMinutes: int,
      amount: real, paymentRef: string)
    | PaymentRequest(requestId: string, roomId: string, amount: real, paidBy: string, paymentRef: string)
    | CommandRequest(requestId: string, roomId: string, action: string, actor: string, source: string, reason: string,
      serviceType: string)

  /** Made up from the clock, with a prefix. */
  type MadeUpId = s: string | s != "" witness "req-0"

  /** What the world decides during one request: the two bus writes, the health of the database, the id made up
      for a request without one, and the two clock readings (transaction, in-memory update). */
  datatype Env = Env(slave: Transport.Write, display: Transport.Write, healthy: bool, madeUpId: MadeUpId, now: int,
                     appliedAt: int)

  /** Both writes go through. */
  function Good(healthy: bool): Env {
    Env(Transport.Sent, Transport.Sent, healthy, "req-1", 0, 0)
  }

  datatype Outcome = Accepted | TransportError | RoomNotFound | InvalidAction | DbWriteFailed

  datatype ServerState = ServerState(rooms: map<string, RoomState>, audit: seq<Audit>, db: Tables, link: Transport.Link)

  const AUDIT_WINDOW := 200

  function FallbackCase(caseCode: string, stayMode: string): string {
    if caseCode != "" then caseCode else stayMode
  }

  function FallbackActor(actor: string, source: string): string {
    if actor != "" then actor else if source != "" then source else "system"
  }

  function FallbackDetail(reason: string, serviceType: string): string {
    if serviceType != "" then serviceType else reason
  }

  function DefaultMinutes(stayMode: string): int {
    if stayMode == "temporary" then 120
    else if stayMode == "monthly" then 43200
    else if stayMode == "yearly" then 525600
    else 720
  }

  function Max(a: int, b: int): int {
    if a > b then a else b
  }

  /** `int(roomID[0] - '0')`, a byte subtraction, for ids in ASCII. */
  function FloorOf(roomId: string): int {
    if roomId == "" then 0 else (roomId[0] as int - '0' as int) % 256
  }

  function RequestIdOrNow(req: Request, env: Env): (id: string)
    ensures id != ""
  {
    if req.requestId != "" then req.requestId else env.madeUpId
  }

  function CommandOf(action: string): Option<Command> {
    if action == "start_cleaning" then Some(StartCleaning)
    else if action == "finish_cleaning" then Some(FinishCleaning)
    else if action == "open_room" then Some(OpenRoom)
    else if action == "service" then Some(Service)
    else None
  }

  /** The state the handler asks the transport for, if it uses the transport at all. */
  function Target(req: Request): Option<Frames.SemanticState> {
    match req
    case CheckInRequest(_, _, _, _, _, _, _) => Some(Frames.Occupied)
    case CheckOutRequest(_, _) => Some(Frames.Vacant)
    case ExtendRequest(_, _, _, _, _, _, _) => Some(Frames.Occupied)
    case PaymentRequest(_, _, _, _, _) => None
    case CommandRequest(_, _, action, _, _, _, _) =>
      match CommandOf(action)
      case Some(StartCleaning) => Some(Frames.Cleaning)
      case Some(FinishCleaning) => Some(Frames.Vacant)
      case _ => None
  }

  /** The remaining minutes the extend handler computes from the room it read. */
  function ExtendedMinutes(current: int, extendMinutes: int): int {
    if current + extendMinutes < extendMinutes then extendMinutes else current + extendMinutes
  }

  function CurrentMinutes(rooms: map<string, RoomState>, roomId: string): int {
    if roomId in rooms then rooms[roomId].remainingMinutes else 0
  }

  /** The transaction the handler asks the store for. */
  function TxnOf(currentMinutes: int, req: Request, env: Env): Txn {
    var id := RequestIdOrNow(req, env);
    match req
    case CheckInRequest(_, room, mode, code, hours, amount, pref) =>
      CheckIn(id, room, env.now, "cashier", mode, FallbackCase(code, mode), Max(hours * 60, DefaultMinutes(mode)),
        amount, pref)
    case CheckOutRequest(_, room) => CheckOut(id, room, env.now, "cashier")
    case ExtendRequest(_, room, mode, code, minutes, amount, pref) =>
      Extend(id, room, env.now, "cashier", mode, FallbackCase(code, mode), ExtendedMinutes(currentMinutes, minutes),
        amount, pref)
    case PaymentRequest(_, room, amount, paidBy, pref) => Pay(id, room, env.now, "cashier", amount, paidBy, pref)
    case CommandRequest(_, room, action, actor, source, reason, service) =>
      var command := CommandOf(action).GetOr(Service);
      Order(id, room, env.now, FallbackActor(actor, source), command,
        if command == OpenRoom || command == Service then FallbackDetail(reason, service) else "")
  }

  // ----- the in-memory transitions: applyCheckIn, applyCheckOut, applyCommand, applyExtend, applyPayment -----

  function ApplyCheckIn(room: RoomState, stayMode: string, caseCode: string, stayHours: int, amount: real,
                        paymentRef: string, at: int): RoomState {
    var item := room.(status := Occupied, stayMode := stayMode, caseCode := caseCode,
      remainingMinutes := Max(stayHours * 60, DefaultMinutes(stayMode)), updatedAt := at);
    if amount > 0.0
    then item.(lastPaymentAmount := amount, lastPaymentRef := paymentRef, lastPaymentMethod := "check_in")
    else item
  }

  function ApplyCheckOut(room: RoomState, at: int): RoomState {
    room.(status := Vacant, stayMode := "", caseCode := "", remainingMinutes := 0, updatedAt := at)
  }

  function ApplyCommand(room: RoomState, action: string, at: int): RoomState {
    if action == "start_cleaning" then room.(status := Cleaning, updatedAt := at)
    else if action == "finish_cleaning"
    then room.(status := Vacant, stayMode := "", caseCode := "", remainingMinutes := 0, updatedAt := at)
    else room.(updatedAt := at)
  }

  function ApplyExtend(room: RoomState, stayMode: string, caseCode: string, extendMinutes: int, amount: real,
                       paymentRef: string, at: int): RoomState {
    var item := room.(status := Occupied, stayMode := if stayMode != "" then stayMode else room.stayMode,
      caseCode := if caseCode != "" then caseCode else room.caseCode,
      remainingMinutes := room.remainingMinutes + extendMinutes, updatedAt := at);
    if amount > 0.0
    then item.(lastPaymentAmount := amount, lastPaymentRef := paymentRef, lastPaymentMethod := "extend")
    else item
  }

  function ApplyPayment(room: RoomState, amount: real, paidBy: string, paymentRef: string, at: int): RoomState {
    room.(lastPaymentAmount := amount, lastPaymentMethod := paidBy, lastPaymentRef := paymentRef, updatedAt := at)
  }

  function ApplyTo(room: RoomState, req: Request, env: Env): RoomState {
    match req
    case CheckInRequest(_, _, mode, code, hours, amount, pref) =>
      ApplyCheckIn(room, mode, FallbackCase(code, mode), hours, amount, pref, env.appliedAt)
    case CheckOutRequest(_, _) => ApplyCheckOut(room, env.appliedAt)
    case ExtendRequest(_, _, mode, code, minutes, amount, pref) =>
      ApplyExtend(room, mode, FallbackCase(code, mode), minutes, amount, pref, env.appliedAt)
    case PaymentRequest(_, _, amount, paidBy, pref) => ApplyPayment(room, amount, paidBy, pref, env.appliedAt)
    case CommandRequest(_, _, action, _, _, _, _) => ApplyCommand(room, action, env.appliedAt)
  }

  function ApplyRooms(rooms: map<string, RoomState>, req: Request, env: Env): map<string, RoomState> {
    if req.roomId in rooms then rooms[req.roomId := ApplyTo(rooms[req.roomId], req, env)] else rooms
  }

  /** The in-memory audit entry; commands leave the stay mode and case blank. */
  function AuditOf(rooms: map<string, RoomState>, req: Request, env: Env): Audit {
    var id := RequestIdOrNow(req, env);
    match req
    case CheckInRequest(_, room, mode, code, _, _, pref) =>
      Audit(id, env.now, room, "check_in", "cashier", mode, FallbackCase(code, mode), pref)
    case CheckOutRequest(_, room) => Audit(id, env.now, room, "check_out", "cashier", "", "", "")
    case ExtendRequest(_, room, mode, code, _, _, pref) =>
      Audit(id, env.now, room, "extend_stay", "cashier", mode, FallbackCase(code, mode), pref)
    case PaymentRequest(_, room, _, _, pref) =>
      Audit(id, env.now, room, "receive_payment", "cashier",
        if room in rooms then rooms[room].stayMode else "", if room in rooms then rooms[room].caseCode else "", pref)
    case CommandRequest(_, room, action, actor, source, reason, service) =>
      Audit(id, env.now, room, action, FallbackActor(actor, source), "", "",
        if action == "open_room" || action == "service" then FallbackDetail(reason, service) else "")
  }

  /** appendAudit: newest first, at most 200. */
  function AppendAudit(audit: seq<Audit>, entry: Audit): seq<Audit> {
    var longer := [entry] + audit;
    if |longer| > AUDIT_WINDOW then longer[..AUDIT_WINDOW] else longer
  }

  /** The transport step of a handler: the link afterwards, and whether the handler goes on. */
  function Drive(repo: Transport.Repository, link: Transport.Link, req: Request, env: Env): (Transport.Link, bool) {
    match Target(req)
    case None => (link, true)
    case Some(target) =>
      Transport.Apply(repo, link, Transport.Attempt(Transport.Intent(req.roomId, target), env.slave, env.display))
  }

  /** One request, in the handlers' order: relay, database, memory. */
  function Serve(repo: Transport.Repository, s: ServerState, req: Request, env: Env): (ServerState, Outcome) {
    if req.CommandRequest? && CommandOf(req.action).None? then (s, InvalidAction)
    else if req.PaymentRequest? && req.roomId !in s.rooms then (s, RoomNotFound)
    else
      var (link, driven) := Drive(repo, s.link, req, env);
      if !driven then (s.(link := link), TransportError)
      else if req.CheckInRequest? && req.roomId !in s.rooms then (s.(link := link), RoomNotFound)
      else
        var call := Call(TxnOf(CurrentMinutes(s.rooms, req.roomId), req, env), env.healthy);
        if !Commits(s.db, call) then (s.(link := link), DbWriteFailed)
        else
          (ServerState(ApplyRooms(s.rooms, req, env), AppendAudit(s.audit, AuditOf(s.rooms, req, env)),
            WithTx(s.db, call), link), Accepted)
  }

  /** Not a command with an unknown action. */
  predicate Known(req: Request) {
    req.CommandRequest? ==> CommandOf(req.action).Some?
  }

  /** All or nothing: an accepted request is applied to both copies, any other to neither. */
  lemma ServeIsAtomic(repo: Transport.Repository, s: ServerState, req: Request, env: Env)
    ensures var (after, outcome) := Serve(repo, s, req, env);
      var t := TxnOf(CurrentMinutes(s.rooms, req.roomId), req, env);
      if outcome == Accepted
      then Known(req) && Body(s.db, t).Ok? && after.db == Body(s.db, t).value &&
        after.rooms == ApplyRooms(s.rooms, req, env) &&
           after.audit == AppendAudit(s.audit, AuditOf(s.rooms, req, env))
      else after.db == s.db && after.rooms == s.rooms && after.audit == s.audit
  {
  }

  // ----- start and restart -----

  function VacantRow(roomId: string, at: int): RoomRecord {
    RoomRecord(FloorOf(roomId), Vacant, "", "", true, 0, 0.0, "", "", at)
  }

  /** seedRooms: a row per mapping; an existing row only has its floor refreshed. */
  function SeedRooms(rooms: map<string, RoomRecord>, repo: Transport.Repository, at: int): map<string, RoomRecord> {
    map id | id in rooms.Keys + repo.Keys ::
      if id !in rooms then VacantRow(id, at) else if id in repo then rooms[id].(floor := FloorOf(id)) else rooms[id]
  }

  function FromRow(roomId: string, row: RoomRecord): RoomState {
    RoomState(roomId, row.floor, row.status, row.stayMode, row.caseCode, row.controllerOnline, row.remainingMinutes,
      row.lastPaymentAmount, row.lastPaymentMethod, row.lastPaymentRef, row.updatedAt)
  }

  predicate LaterAudit(a: Audit, b: Audit) {
    a.timestamp > b.timestamp || (a.timestamp == b.timestamp && StringOrder.Less(b.id, a.id))
  }

  function InsertByTime(entry: Audit, sorted: seq<Audit>): seq<Audit> {
    if sorted == [] || LaterAudit(entry, sorted[0]) then [entry] + sorted
    else [sorted[0]] + InsertByTime(entry, sorted[1..])
  }

  function NewestFirst(audits: seq<Audit>): seq<Audit> {
    if audits == [] then [] else InsertByTime(audits[|audits| - 1], NewestFirst(audits[..|audits| - 1]))
  }

  /** ListRecentAudit("", 200) */
  function RecentAudits(audits: seq<Audit>): seq<Audit> {
    var all := NewestFirst(audits);
    if |all| > AUDIT_WINDOW then all[..AUDIT_WINDOW] else all
  }

  /** Opening the store and building the server from it: Bootstrap's rows replace the mapped defaults. */
  function Boot(repo: Transport.Repository, db: Tables, at: int): ServerState {
    var rows := SeedRooms(db.rooms, repo, at);
    ServerState(map id | id in rows :: FromRow(id, rows[id]), RecentAudits(db.audits), db.(rooms := rows),
      Transport.IDLE)
  }

  datatype Event = Handle(req: Request, env: Env) | Restart(at: int)

  function Next(repo: Transport.Repository, s: ServerState, e: Event): ServerState {
    match e
    case Handle(req, env) => Serve(repo, s, req, env).0
    case Restart(at) => Boot(repo, s.db, at)
  }

  /** A server on a new database, after a run of requests and restarts. */
  function ServerRun(repo: Transport.Repository, events: seq<Event>): ServerState {
    if events == [] then Boot(repo, Tables(map[], [], [], []), 0)
    else Next(repo, ServerRun(repo, events[..|events| - 1]), events[|events| - 1])
  }
}

/** The memory and the database are two hand-written implementations of one transition; when they agree. */
module Mirror {
  import opened Core
  import opened Database
  import opened Server
  import Transport

  /** Equal on every column but updated_at. */
  predicate Mirrors(room: RoomState, row: RoomRecord) {
    && room.floor == row.floor && room.status == row.status
    && room.stayMode == row.stayMode && room.caseCode == row.caseCode
    && room.controllerOnline == row.controllerOnline && room.remainingMinutes == row.remainingMinutes
    && room.lastPaymentAmount == row.lastPaymentAmount && room.lastPaymentMethod == row.lastPaymentMethod
    && room.lastPaymentRef == row.lastPaymentRef
  }

  predicate InStep(room: RoomState, row: RoomRecord) {
    Mirrors(room, row) && room.controllerOnline && room.remainingMinutes >= 0
  }

  predicate PaymentConsistent(amount: real, paymentRef: string) {
    (amount > 0.0 && paymentRef != "") || (amount == 0.0 && paymentRef == "")
  }

  /** What a caller can check: a check-in or extension either pays with a reference or does neither, and an
      extension names a stay mode and does not shorten. */
  predicate Consistent(req: Request) {
    match req
    case CheckInRequest(_, _, _, _, _, amount, pref) => PaymentConsistent(amount, pref)
    case ExtendRequest(_, _, mode, _, minutes, amount, pref) =>
      PaymentConsistent(amount, pref) && mode != "" && minutes >= 0
    case _ => true
  }

  predicate StaysInStep(room: RoomState, row: RoomRecord, req: Request, env: Env) {
    InStep(ApplyTo(room, req, env), RowAfter(row, TxnOf(room.remainingMinutes, req, env)))
  }

  lemma CommandNamesDiffer()
    ensures "start_cleaning" != "finish_cleaning" && "open_room" != "service"
    ensures |"start_cleaning"| == 14 && |"finish_cleaning"| == 15 && |"open_room"| == 9 && |"service"| == 7
  {
  }

  lemma ConsistentStaysInStep(room: RoomState, row: RoomRecord, req: Request, env: Env)
    requires InStep(room, row) && Consistent(req) && Known(req)
    ensures StaysInStep(room, row, req, env)
  {
    CommandNamesDiffer();
  }

  // ----- whole runs -----

  ghost predicate MirroredRooms(rooms: map<string, RoomState>, rows: map<string, RoomRecord>) {
    && rooms.Keys == rows.Keys
    && forall id :: id in rooms ==>
       InStep(rooms[id], rows[id]) && rooms[id].roomId == id && rooms[id].floor == FloorOf(id)
  }

  ghost predicate Mirrored(s: ServerState) {
    MirroredRooms(s.rooms, s.db.rooms)
  }

  lemma ApplyKeepsIdentity(room: RoomState, req: Request, env: Env)
    ensures ApplyTo(room, req, env).roomId == room.roomId && ApplyTo(room, req, env).floor == room.floor
  {
  }

  lemma OneRoomMirrors(rooms: map<string, RoomState>, rows: map<string, RoomRecord>, req: Request, env: Env)
    requires MirroredRooms(rooms, rows) && Consistent(req) && Known(req) && req.roomId in rooms
    ensures MirroredRooms(rooms[req.roomId := ApplyTo(rooms[req.roomId], req, env)],
      rows[req.roomId := RowAfter(rows[req.roomId], TxnOf(rooms[req.roomId].remainingMinutes, req, env))])
  {
    ConsistentStaysInStep(rooms[req.roomId], rows[req.roomId], req, env);
    ApplyKeepsIdentity(rooms[req.roomId], req, env);
  }

  lemma AcceptedMirrors(s: ServerState, after: ServerState, req: Request, env: Env)
    requires Mirrored(s) && Consistent(req) && Known(req)
    requires var t := TxnOf(CurrentMinutes(s.rooms, req.roomId), req, env);
      Body(s.db, t).Ok? && after.db == Body(s.db, t).value
    requires after.rooms == ApplyRooms(s.rooms, req, env)
    ensures Mirrored(after) && after.rooms.Keys == s.rooms.Keys
  {
    CommittedRooms(s.db, TxnOf(CurrentMinutes(s.rooms, req.roomId), req, env));
    OneRoomMirrors(s.rooms, s.db.rooms, req, env);
  }

  lemma ServeMirrors(repo: Transport.Repository, s: ServerState, req: Request, env: Env)
    requires Mirrored(s) && Consistent(req)
    ensures Mirrored(Serve(repo, s, req, env).0)
    ensures Serve(repo, s, req, env).0.rooms.Keys == s.rooms.Keys
  {
    ServeIsAtomic(repo, s, req, env);
    var (after, outcome) := Serve(repo, s, req, env);
    if outcome == Accepted {
      AcceptedMirrors(s, after, req, env);
    }
  }

  lemma BootMirrors(repo: Transport.Repository, s: ServerState, at: int)
    requires Mirrored(s)
    ensures Mirrored(Boot(repo, s.db, at))
  {
  }

  predicate AllConsistent(events: seq<Event>) {
    forall e :: e in events ==> e.Handle? ==> Consistent(e.req)
  }

  lemma NextMirrors(repo: Transport.Repository, s: ServerState, e: Event)
    requires Mirrored(s) && s.rooms.Keys == repo.Keys && (e.Handle? ==> Consistent(e.req))
    ensures Mirrored(Next(repo, s, e)) && Next(repo, s, e).rooms.Keys == repo.Keys
  {
    match e
    case Handle(req, env) => ServeMirrors(repo, s, req, env);
    case Restart(at) => BootMirrors(repo, s, at);
  }

  /** Over every run of consistent requests and restarts, with any failures, the in-memory room is its
      database row. */
  lemma {:induction false} RunMirrors(repo: Transport.Repository, events: seq<Event>)
    requires AllConsistent(events)
    ensures Mirrored(ServerRun(repo, events)) && ServerRun(repo, events).rooms.Keys == repo.Keys
  {
    if events != [] {
      var n := |events| - 1;
      assert events[n] in events;
      RunMirrors(repo, events[..n]);
      NextMirrors(repo, ServerRun(repo, events[..n]), events[n]);
    }
  }

  predicate SameRoom(a: RoomState, b: RoomState) {
    a == b.(updatedAt := a.updatedAt)
  }

  /** Restarting is invisible in every room. */
  lemma RestartIsInvisible(repo: Transport.Repository, events: seq<Event>, at: int)
    requires AllConsistent(events)
    ensures var before := ServerRun(repo, events); var after := Next(repo, before, Restart(at));
      before.rooms.Keys == after.rooms.Keys && forall id :: id in before.rooms ==>
        SameRoom(after.rooms[id], before.rooms[id])
  {
    RunMirrors(repo, events);
  }
}
