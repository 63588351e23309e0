/** What each request means, told from the request alone: what the handlers (`httpapi/server.go`) make of it in memory
    and ask of the store, and what the audit entry says. */
module Requests {
  import opened Core
  import opened Database
  import opened Server
  import opened Mirror
  import Transport

  /** The least stay a mode is good for: two hours, thirty days, a year of 365 days, otherwise twelve hours. */
  function LeastStay(stayMode: string): int {
    if stayMode == "temporary" then 2 * 60
    else if stayMode == "monthly" then 30 * 24 * 60
    else if stayMode == "yearly" then 365 * 24 * 60
    else 12 * 60
  }

  /** A check-in occupies the room, in memory and in the row alike, under the stay mode and case given - the stay mode
      when no case is - for the hours given, but never for less than its mode is good for. */
  lemma CheckInMeans(room: RoomState, row: RoomRecord, current: int, req: Request, env: Env)
    requires req.CheckInRequest?
    ensures var after, t := ApplyTo(room, req, env), TxnOf(current, req, env); var stored := RowAfter(row, t);
      && t.CheckIn? && t.roomId == req.roomId && t.at == env.now && after.updatedAt == env.appliedAt
      && after.status == stored.status == Occupied && after.stayMode == stored.stayMode == req.stayMode
      && after.caseCode == stored.caseCode == (if req.caseCode == "" then req.stayMode else req.caseCode)
      && after.remainingMinutes == stored.remainingMinutes
      && after.remainingMinutes >= LeastStay(req.stayMode) && after.remainingMinutes >= 60 * req.stayHours
      && (after.remainingMinutes > LeastStay(req.stayMode) ==> after.remainingMinutes == 60 * req.stayHours)
  {
  }

  /** An extension keeps the room occupied and adds its minutes; what it leaves blank stays as it was in memory. */
  lemma ExtendMeans(room: RoomState, req: Request, env: Env)
    requires req.ExtendRequest?
    ensures var after, t := ApplyTo(room, req, env), TxnOf(room.remainingMinutes, req, env);
      && t.Extend? && t.roomId == req.roomId && t.at == env.now && after.updatedAt == env.appliedAt
      && after.status == Occupied && after.remainingMinutes == room.remainingMinutes + req.extendMinutes
      && t.remainingMinutes == (if room.remainingMinutes < 0 then 0 else room.remainingMinutes) + req.extendMinutes
      && t.stayMode == req.stayMode && t.caseCode == (if req.caseCode == "" then req.stayMode else req.caseCode)
      && after.stayMode == (if req.stayMode == "" then room.stayMode else req.stayMode)
      && after.caseCode == (if req.caseCode != "" then req.caseCode
                            else if req.stayMode != "" then req.stayMode else room.caseCode)
  {
  }

  /** Who the entry names and what it adds: the cashier and the payment reference, or for a command its actor, else its
      source, else the system, and for a door opened or a service asked the service, else the reason. */
  lemma EntrySays(rooms: map<string, RoomState>, req: Request, env: Env)
    ensures var entry := AuditOf(rooms, req, env);
      && entry.id == RequestIdOrNow(req, env) && entry.roomId == req.roomId && entry.timestamp == env.now
      && entry.actor == (if !req.CommandRequest? then "cashier"
                         else if req.actor != "" then req.actor
                         else if req.source != "" then req.source else "system")
      && match req
         case CheckInRequest(_, _, _, _, _, _, paymentRef) => entry.action == "check_in" && entry.detail == paymentRef
         case CheckOutRequest(_, _) => entry.action == "check_out" && entry.detail == ""
         case ExtendRequest(_, _, _, _, _, _, paymentRef) => entry.action == "extend_stay" && entry.detail == paymentRef
         case PaymentRequest(_, _, _, _, paymentRef) => entry.action == "receive_payment" && entry.detail == paymentRef
         case CommandRequest(_, _, action, _, _, reason, serviceType) =>
           entry.action == action &&
           (action == "open_room" || action == "service" ==>
              entry.detail == if serviceType == "" then reason else serviceType)
  {
  }

  /** A room whose id begins with a digit is on that floor. */
  lemma FloorIsFirstDigit(roomId: string)
    requires roomId != "" && '0' <= roomId[0] <= '9'
    ensures FloorOf(roomId) == roomId[0] as int - '0' as int && 0 <= FloorOf(roomId) <= 9
  {
  }

  /** After every run of consistent requests and restarts a room is on the floor its id begins with. */
  lemma RoomsAreOnTheirFloors(repo: Transport.Repository, events: seq<Event>, roomId: string)
    requires AllConsistent(events) && roomId in repo && roomId != "" && '0' <= roomId[0] <= '9'
    ensures var s := ServerRun(repo, events);
      && roomId in s.rooms && s.rooms[roomId].roomId == roomId
      && s.rooms[roomId].floor == roomId[0] as int - '0' as int
      && roomId in s.db.rooms && s.db.rooms[roomId].floor == roomId[0] as int - '0' as int
  {
    RunMirrors(repo, events);
    FloorIsFirstDigit(roomId);
  }

  /** Whatever came before, a restart reads every room from its row, column by column, but for the floor, which a mapped
      room gets from its id; a mapped room without a row gets a vacant one. */
  lemma RestartReadsRows(repo: Transport.Repository, s: ServerState, at: int, roomId: string)
    ensures var after := Server.Next(repo, s, Restart(at));
      && after.rooms.Keys == after.db.rooms.Keys == s.db.rooms.Keys + repo.Keys
      && after.db.stays == s.db.stays && after.db.payments == s.db.payments && after.db.audits == s.db.audits
    ensures roomId in s.db.rooms ==>
      var room, row := Server.Next(repo, s, Restart(at)).rooms[roomId], s.db.rooms[roomId];
      && room.floor == (if roomId in repo then FloorOf(roomId) else row.floor)
      && room.roomId == roomId && room.updatedAt == row.updatedAt && room.status == row.status
      && room.stayMode == row.stayMode && room.caseCode == row.caseCode
      && room.controllerOnline == row.controllerOnline && room.remainingMinutes == row.remainingMinutes
      && room.lastPaymentAmount == row.lastPaymentAmount && room.lastPaymentMethod == row.lastPaymentMethod
      && room.lastPaymentRef == row.lastPaymentRef
    ensures roomId in repo && roomId !in s.db.rooms ==>
      var room := Server.Next(repo, s, Restart(at)).rooms[roomId];
      room == RoomState(roomId, FloorOf(roomId), Vacant, "", "", true, 0, 0.0, "", "", at)
  {
  }
}
