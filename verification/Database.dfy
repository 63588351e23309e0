/** The persistent store (`store/store.go`): four tables with their keys, and the five transactions.
    Times are seconds of one UTC offset, so that the text order SQLite sorts by is time order. */
module Database {
  import opened Core
  import opened StringOrder

  datatype RoomStatus = Vacant | Occupied | Cleaning | Overstay | Dnd | Unknown

  datatype RoomRecord = RoomRecord(
    floor: int, status: RoomStatus, stayMode: string, caseCode: string, controllerOnline: bool, remainingMinutes: int,
    lastPaymentAmount: real, lastPaymentMethod: string, lastPaymentRef: string, updatedAt: int)

  datatype StayStatus = InUse | CheckedOut

  datatype Stay = Stay(
    stayId: string, requestId: string, roomId: string, stayMode: string, caseCode: string, status: StayStatus,
    guestIn: int, guestOut: Option<int>, cleanUp: Option<int>, allocatedMinutes: int, usedMinutes: int,
    paymentAmount: real, paymentRef: string, lastUpdated: int)

  datatype Payment = Payment(
    paymentId: string, requestId: string, stayId: string, roomId: string,
    amount: real, paidBy: string, reference: string, paidAt: int)

  datatype Audit = Audit(
    id: string, timestamp: int, roomId: string, action: string, actor: string,
    stayMode: string, caseCode: string, detail: string)

  /** Rows in insertion order; `rooms` by its key. */
  datatype Tables = Tables(rooms: map<string, RoomRecord>, stays: seq<Stay>, payments: seq<Payment>, audits: seq<Audit>)

  datatype Command = StartCleaning | FinishCleaning | OpenRoom | Service {
    function Name(): string {
      match this
      case StartCleaning => "start_cleaning"
      case FinishCleaning => "finish_cleaning"
      case OpenRoom => "open_room"
      case Service => "service"
    }
  }

  datatype Txn =
    | CheckIn(requestId: string, roomId: string, at: int, actor: string, stayMode: string, caseCode: string,
              remainingMinutes: int, amount: real, paymentRef: string)
    | CheckOut(requestId: string, roomId: string, at: int, actor: string)
    | Extend(requestId: string, roomId: string, at: int, actor: string, stayMode: string, caseCode: string,
             remainingMinutes: int, amount: real, paymentRef: string)
    | Pay(requestId: string, roomId: string, at: int, actor: string, amount: real, paidBy: string, paymentRef: string)
    | Order(requestId: string, roomId: string, at: int, actor: string, command: Command, detail: string)

  // ----- statements -----

  function InsertStay(db: Tables, stay: Stay): Result<Tables> {
    if stay.roomId !in db.rooms || (exists s | s in db.stays :: s.stayId == stay.stayId) then Failed
    else Ok(db.(stays := db.stays + [stay]))
  }

  function InsertPayment(db: Tables, payment: Payment): Result<Tables> {
    if payment.roomId !in db.rooms || (exists p | p in db.payments :: p.paymentId == payment.paymentId) then Failed
    else Ok(db.(payments := db.payments + [payment]))
  }

  function InsertAudit(db: Tables, audit: Audit): Result<Tables> {
    if audit.roomId !in db.rooms || (exists a | a in db.audits :: a.id == audit.id) then Failed
    else Ok(db.(audits := db.audits + [audit]))
  }

  function ChoosePaymentMethod(amount: real, fallback: string): string {
    if amount <= 0.0 then "" else fallback
  }

  /** updateRoomState, without TouchOnly. */
  function UpdatedRow(row: RoomRecord, status: RoomStatus, stayMode: string, caseCode: string, remaining: int,
      amount: real, paidBy: string, paymentRef: string, at: int): RoomRecord {
    RoomRecord(row.floor, status, stayMode, caseCode, true, remaining,
      if amount != 0.0 then amount else row.lastPaymentAmount,
      if paidBy != "" then paidBy else row.lastPaymentMethod,
      if paymentRef != "" then paymentRef else row.lastPaymentRef,
      at)
  }

  /** What a transaction does to the row of its room. */
  function RowAfter(row: RoomRecord, t: Txn): RoomRecord {
    match t
    case CheckIn(_, _, at, _, mode, code, remaining, amount, pref) =>
      UpdatedRow(row, Occupied, mode, code, remaining, amount, ChoosePaymentMethod(amount, "check_in"), pref, at)
    case CheckOut(_, _, at, _) => UpdatedRow(row, Vacant, "", "", 0, 0.0, "", "", at)
    case Extend(_, _, at, _, mode, code, remaining, amount, pref) =>
      UpdatedRow(row, Occupied, mode, code, remaining, amount, ChoosePaymentMethod(amount, "extend"), pref, at)
    case Pay(_, _, at, _, amount, paidBy, pref) =>
      row.(lastPaymentAmount := amount, lastPaymentMethod := paidBy, lastPaymentRef := pref, updatedAt := at)
    case Order(_, _, at, _, command, _) =>
      match command
      case StartCleaning => row.(status := Cleaning, controllerOnline := true, updatedAt := at)
      case FinishCleaning => UpdatedRow(row, Vacant, "", "", 0, 0.0, "", "", at)
      case OpenRoom => row
      case Service => row
  }

  /** An UPDATE that names a room without a row changes nothing. */
  function UpdateRoom(db: Tables, t: Txn): Tables {
    if t.roomId in db.rooms then db.(rooms := db.rooms[t.roomId := RowAfter(db.rooms[t.roomId], t)]) else db
  }

  predicate IsActive(s: Stay, roomId: string) {
    s.roomId == roomId && s.status == InUse
  }

  predicate LaterIn(a: Stay, b: Stay) {
    a.guestIn > b.guestIn || (a.guestIn == b.guestIn && Less(b.stayId, a.stayId))
  }

  /** Position of the active stay of the room: latest guest-in, then greatest id. */
  function ActiveIndex(stays: seq<Stay>, roomId: string): (r: Option<nat>)
    ensures r.Some? ==> r.value < |stays| && IsActive(stays[r.value], roomId)
    ensures r.None? ==> forall i :: 0 <= i < |stays| ==> !IsActive(stays[i], roomId)
  {
    if stays == [] then None
    else
      var n := |stays| - 1;
      var best := ActiveIndex(stays[..n], roomId);
      if IsActive(stays[n], roomId) && (best.None? || LaterIn(stays[n], stays[best.value])) then Some(n) else best
  }

  /** The stay a check-out, extension or payment works on; an empty id counts as no stay. */
  function FindActiveStay(db: Tables, roomId: string): (r: Option<nat>)
    ensures r.Some? ==> r.value < |db.stays| && IsActive(db.stays[r.value], roomId)
  {
    match ActiveIndex(db.stays, roomId)
    case None => None
    case Some(i) => if db.stays[i].stayId == "" then None else Some(i)
  }

  function ActiveStayId(db: Tables, roomId: string): string {
    match FindActiveStay(db, roomId)
    case None => ""
    case Some(i) => db.stays[i].stayId
  }

  predicate IsClosed(s: Stay, roomId: string) {
    s.roomId == roomId && s.guestOut.Some?
  }

  predicate LaterOut(a: Stay, b: Stay)
    requires a.guestOut.Some? && b.guestOut.Some?
  {
    a.guestOut.value > b.guestOut.value || (a.guestOut == b.guestOut && Less(b.stayId, a.stayId))
  }

  /** Position of the stay finish_cleaning marks: latest guest-out, then greatest id. */
  function ClosedIndex(stays: seq<Stay>, roomId: string): (r: Option<nat>)
    ensures r.Some? ==> r.value < |stays| && IsClosed(stays[r.value], roomId)
    ensures r.None? ==> forall i :: 0 <= i < |stays| ==> !IsClosed(stays[i], roomId)
  {
    if stays == [] then None
    else
      var n := |stays| - 1;
      var best := ClosedIndex(stays[..n], roomId);
      if IsClosed(stays[n], roomId) && (best.None? || LaterOut(stays[n], stays[best.value])) then Some(n) else best
  }

  /** diffMinutes: whole minutes, none when the clock went backwards. */
  function DiffMinutes(start: int, end: int): int {
    if end < start then 0 else (end - start) / 60
  }

  function CloseStay(db: Tables, roomId: string, at: int): Tables {
    match FindActiveStay(db, roomId)
    case None => db
    case Some(i) =>
      var s := db.stays[i];
      var closed := s.(status := CheckedOut, guestOut := Some(at), usedMinutes := DiffMinutes(s.guestIn, at),
                       lastUpdated := at);
      db.(stays := db.stays[i := closed])
  }

  function ExtendStay(db: Tables, t: Txn): Tables
    requires t.Extend?
  {
    match FindActiveStay(db, t.roomId)
    case None => db
    case Some(i) =>
      var s := db.stays[i];
      var extended := s.(stayMode := t.stayMode, caseCode := t.caseCode, allocatedMinutes := t.remainingMinutes,
                         paymentAmount := s.paymentAmount + t.amount, paymentRef := t.paymentRef, lastUpdated := t.at);
      db.(stays := db.stays[i := extended])
  }

  function MarkCleaned(db: Tables, roomId: string, at: int): Tables {
    match ClosedIndex(db.stays, roomId)
    case None => db
    case Some(i) =>
      var s := db.stays[i];
      db.(stays := db.stays[i := s.(cleanUp := if s.cleanUp.Some? then s.cleanUp else Some(at), lastUpdated := at)])
  }

  // ----- transactions -----

  function NewStay(t: Txn): Stay
    requires t.CheckIn?
  {
    Stay(t.requestId, t.requestId, t.roomId, t.stayMode, t.caseCode, InUse, t.at, None, None,
      t.remainingMinutes, 0, t.amount, t.paymentRef, t.at)
  }

  function RecordCheckIn(db: Tables, t: Txn): Result<Tables>
    requires t.CheckIn?
  {
    var d1 := UpdateRoom(db, t);
    var d2 :- InsertStay(d1, NewStay(t));
    var d3 :- if t.amount > 0.0
      then InsertPayment(d2,
        Payment(t.requestId + "-checkin", t.requestId, t.requestId, t.roomId, t.amount, "check_in", t.paymentRef, t.at))
      else Ok(d2);
    InsertAudit(d3, Audit(t.requestId, t.at, t.roomId, "check_in", t.actor, t.stayMode, t.caseCode, t.paymentRef))
  }

  function RecordCheckOut(db: Tables, t: Txn): Result<Tables>
    requires t.CheckOut?
  {
    var d1 := CloseStay(db, t.roomId, t.at);
    InsertAudit(UpdateRoom(d1, t), Audit(t.requestId, t.at, t.roomId, "check_out", t.actor, "", "", ""))
  }

  function RecordExtend(db: Tables, t: Txn): Result<Tables>
    requires t.Extend?
  {
    var stayId := ActiveStayId(db, t.roomId);
    var d1 := UpdateRoom(ExtendStay(db, t), t);
    var d2 :- if t.amount > 0.0
      then InsertPayment(d1,
        Payment(t.requestId + "-extend", t.requestId, stayId, t.roomId, t.amount, "extend", t.paymentRef, t.at))
      else Ok(d1);
    InsertAudit(d2, Audit(t.requestId, t.at, t.roomId, "extend_stay", t.actor, t.stayMode, t.caseCode, t.paymentRef))
  }

  function RecordPayment(db: Tables, t: Txn): Result<Tables>
    requires t.Pay?
  {
    var stayId := ActiveStayId(db, t.roomId);
    var d1 := UpdateRoom(db, t);
    var d2 :- InsertPayment(d1,
      Payment(t.requestId, t.requestId, stayId, t.roomId, t.amount, t.paidBy, t.paymentRef, t.at));
    if t.roomId !in d2.rooms then Failed
    else
      var meta := d2.rooms[t.roomId];
      InsertAudit(d2,
        Audit(t.requestId, t.at, t.roomId, "receive_payment", t.actor, meta.stayMode, meta.caseCode, t.paymentRef))
  }

  function RecordCommand(db: Tables, t: Txn): Result<Tables>
    requires t.Order?
  {
    var d1 := UpdateRoom(db, t);
    var d2 := if t.command == FinishCleaning then MarkCleaned(d1, t.roomId, t.at) else d1;
    if t.roomId !in d2.rooms then Failed
    else
      var meta := d2.rooms[t.roomId];
      InsertAudit(d2,
        Audit(t.requestId, t.at, t.roomId, t.command.Name(), t.actor, meta.stayMode, meta.caseCode, t.detail))
  }

  /** The body of the transaction: the new tables, or an error that rolls everything back. */
  function Body(db: Tables, t: Txn): Result<Tables> {
    match t
    case CheckIn(_, _, _, _, _, _, _, _, _) => RecordCheckIn(db, t)
    case CheckOut(_, _, _, _) => RecordCheckOut(db, t)
    case Extend(_, _, _, _, _, _, _, _, _) => RecordExtend(db, t)
    case Pay(_, _, _, _, _, _, _) => RecordPayment(db, t)
    case Order(_, _, _, _, _, _) => RecordCommand(db, t)
  }

  /** One call of the store; `healthy` is false when the database itself fails (begin, a statement or commit). */
  datatype Call = Call(txn: Txn, healthy: bool)

  predicate Commits(db: Tables, call: Call) {
    call.healthy && Body(db, call.txn).Ok?
  }

  function WithTx(db: Tables, call: Call): Tables {
    if Commits(db, call) then Body(db, call.txn).value else db
  }

  function Run(db: Tables, calls: seq<Call>): Tables {
    if calls == [] then db else WithTx(Run(db, calls[..|calls| - 1]), calls[|calls| - 1])
  }

  /** The tables after seeding: rooms only. */
  predicate Seeded(db: Tables) {
    db.stays == [] && db.payments == [] && db.audits == []
  }

  /** How a committed transaction changes the tables, table by table. */
  lemma CommittedRooms(db: Tables, t: Txn)
    requires Body(db, t).Ok?
    ensures t.roomId in db.rooms
    ensures Body(db, t).value.rooms == db.rooms[t.roomId := RowAfter(db.rooms[t.roomId], t)]
  {
  }

  lemma CommittedAudits(db: Tables, t: Txn)
    requires Body(db, t).Ok?
    ensures var after := Body(db, t).value;
      && |after.audits| == |db.audits| + 1 && after.audits[..|db.audits|] == db.audits
      && after.audits[|db.audits|].id == t.requestId && after.audits[|db.audits|].timestamp == t.at
      && (forall a | a in db.audits :: a.id != t.requestId)
  {
  }

  lemma CommittedStays(db: Tables, t: Txn)
    requires Body(db, t).Ok?
    ensures var after := Body(db, t).value;
      match t
      case CheckIn(_, _, _, _, _, _, _, _, _) =>
        after.stays == db.stays + [NewStay(t)] && (forall s | s in db.stays :: s.stayId != t.requestId)
      case CheckOut(_, _, _, _) => after.stays == CloseStay(db, t.roomId, t.at).stays
      case Extend(_, _, _, _, _, _, _, _, _) => after.stays == ExtendStay(db, t).stays
      case Pay(_, _, _, _, _, _, _) => after.stays == db.stays
      case Order(_, _, _, _, c, _) =>
        after.stays == if c == FinishCleaning then MarkCleaned(db, t.roomId, t.at).stays else db.stays
  {
  }

  /** The payment row of a transaction that takes money: who asked for it, for which stay and room, how it was paid,
      what the receipt says, and when. */
  predicate Receipt(p: Payment, t: Txn, suffix: string, stayId: string, paidBy: string)
    requires t.CheckIn? || t.Extend? || t.Pay?
  {
    && p.paymentId == t.requestId + suffix && p.requestId == t.requestId && p.stayId == stayId && p.roomId == t.roomId
    && p.amount == t.amount && p.paidBy == paidBy && p.reference == t.paymentRef && p.paidAt == t.at
  }

  lemma CommittedPayments(db: Tables, t: Txn)
    requires Body(db, t).Ok?
    ensures var after := Body(db, t).value;
      match t
      case CheckIn(_, _, _, _, _, _, _, amount, _) =>
        if amount > 0.0 then |after.payments| == |db.payments| + 1 && after.payments[..|db.payments|] == db.payments &&
          Receipt(after.payments[|db.payments|], t, "-checkin", t.requestId, "check_in")
        else after.payments == db.payments
      case CheckOut(_, _, _, _) => after.payments == db.payments
      case Extend(_, _, _, _, _, _, _, amount, _) =>
        if amount > 0.0 then |after.payments| == |db.payments| + 1 && after.payments[..|db.payments|] == db.payments &&
          Receipt(after.payments[|db.payments|], t, "-extend", ActiveStayId(db, t.roomId), "extend")
        else after.payments == db.payments
      case Pay(_, _, _, _, _, paidBy, _) =>
        |after.payments| == |db.payments| + 1 && after.payments[..|db.payments|] == db.payments &&
        Receipt(after.payments[|db.payments|], t, "", ActiveStayId(db, t.roomId), paidBy)
      case Order(_, _, _, _, c, _) => after.payments == db.payments
  {
  }

  predicate EmptiesRoom(t: Txn) {
    t.CheckOut? || (t.Order? && t.command == FinishCleaning)
  }

  predicate FillsRoom(t: Txn) {
    t.CheckIn? || t.Extend?
  }

  /** A commit touches one row of rooms and never its floor. Check-in and extension occupy it, check-out and
      finish_cleaning empty it, start_cleaning changes its status alone, a payment its three payment columns alone,
      and open_room and service nothing. */
  lemma RowChanges(db: Tables, t: Txn)
    requires Body(db, t).Ok?
    ensures t.roomId in db.rooms && Body(db, t).value.rooms.Keys == db.rooms.Keys
    ensures forall id :: id in db.rooms && id != t.roomId ==> Body(db, t).value.rooms[id] == db.rooms[id]
    ensures var was, row := db.rooms[t.roomId], Body(db, t).value.rooms[t.roomId];
      && row.floor == was.floor
      && (FillsRoom(t) || EmptiesRoom(t) || (t.Order? && t.command == StartCleaning) ==>
            row.controllerOnline && row.updatedAt == t.at)
      && (FillsRoom(t) ==>
            row.status == Occupied && row.stayMode == t.stayMode && row.caseCode == t.caseCode &&
            row.remainingMinutes == t.remainingMinutes &&
            row.lastPaymentRef == (if t.paymentRef != "" then t.paymentRef else was.lastPaymentRef) &&
            row.lastPaymentAmount == (if t.amount != 0.0 then t.amount else was.lastPaymentAmount) &&
            row.lastPaymentMethod ==
              (if t.amount <= 0.0 then was.lastPaymentMethod else if t.CheckIn? then "check_in" else "extend"))
      && (EmptiesRoom(t) ==>
            row.status == Vacant && row.stayMode == "" && row.caseCode == "" && row.remainingMinutes == 0 &&
            row.lastPaymentRef == was.lastPaymentRef && row.lastPaymentAmount == was.lastPaymentAmount &&
            row.lastPaymentMethod == was.lastPaymentMethod)
      && (t.Order? && t.command == StartCleaning ==>
            row == was.(status := Cleaning, controllerOnline := row.controllerOnline, updatedAt := t.at))
      && (t.Pay? ==>
            row == was.(lastPaymentAmount := t.amount, lastPaymentMethod := t.paidBy, lastPaymentRef := t.paymentRef,
              updatedAt := t.at))
      && (t.Order? && (t.command == OpenRoom || t.command == Service) ==> row == was)
  {
    CommittedRooms(db, t);
  }

  /** The one stay a commit may rewrite: the open one a check-out or extension finds, or the closed one
      finish_cleaning finds. */
  function FoundStay(db: Tables, t: Txn): (r: Option<nat>)
    ensures r.Some? ==> r.value < |db.stays|
  {
    if t.CheckOut? || t.Extend? then FindActiveStay(db, t.roomId)
    else if EmptiesRoom(t) then ClosedIndex(db.stays, t.roomId)
    else None
  }

  predicate Opens(s: Stay, t: Txn)
    requires t.CheckIn?
  {
    && s.stayId == t.requestId && s.requestId == t.requestId && s.roomId == t.roomId && s.status == InUse
    && s.guestIn == t.at && s.guestOut == None && s.cleanUp == None && s.usedMinutes == 0 && s.lastUpdated == t.at
    && s.stayMode == t.stayMode && s.caseCode == t.caseCode && s.allocatedMinutes == t.remainingMinutes
    && s.paymentAmount == t.amount && s.paymentRef == t.paymentRef
  }

  /** A check-out ends the stay, an extension adds to its total and replaces what it was booked for, finish_cleaning
      sets its clean-up time if it has none. */
  predicate Rewrites(was: Stay, s: Stay, t: Txn) {
    && s.stayId == was.stayId && s.requestId == was.requestId && s.roomId == was.roomId == t.roomId
    && s.guestIn == was.guestIn && s.lastUpdated == t.at
    && s.status == (if t.CheckOut? then CheckedOut else was.status)
    && s.guestOut == (if t.CheckOut? then Some(t.at) else was.guestOut)
    && s.usedMinutes == (if t.CheckOut? then DiffMinutes(was.guestIn, t.at) else was.usedMinutes)
    && s.cleanUp == (if t.Order? && was.cleanUp.None? then Some(t.at) else was.cleanUp)
    && s.paymentAmount == (if t.Extend? then was.paymentAmount + t.amount else was.paymentAmount)
    && s.stayMode == (if t.Extend? then t.stayMode else was.stayMode)
    && s.caseCode == (if t.Extend? then t.caseCode else was.caseCode)
    && s.allocatedMinutes == (if t.Extend? then t.remainingMinutes else was.allocatedMinutes)
    && s.paymentRef == (if t.Extend? then t.paymentRef else was.paymentRef)
  }

  /** A check-in adds one open stay at the end. Otherwise no stay comes or goes and only the found one changes. */
  lemma StayChanges(db: Tables, t: Txn)
    requires Body(db, t).Ok?
    ensures var after := Body(db, t).value.stays;
      if t.CheckIn?
      then |after| == |db.stays| + 1 && after[..|db.stays|] == db.stays && Opens(after[|db.stays|], t)
      else |after| == |db.stays| && forall i :: 0 <= i < |after| && Some(i) != FoundStay(db, t) ==>
        after[i] == db.stays[i]
    ensures !t.CheckIn? && FoundStay(db, t).Some? ==>
      var i := FoundStay(db, t).value; Rewrites(db.stays[i], Body(db, t).value.stays[i], t)
  {
    CommittedStays(db, t);
  }
}
