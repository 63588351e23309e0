/** Which requests can make a restart visible: the runs on which the two copies of a room part. */
module MirrorRuns {
  import opened Core
  import opened Database
  import opened Ledger
  import opened Server
  import opened Mirror
  import opened Relay
  import Transport

  /** Restarting now would change no room but its update time. */
  ghost predicate NothingShows(repo: Transport.Repository, events: seq<Event>, at: int) {
    var before := ServerRun(repo, events); var after := Next(repo, before, Restart(at));
    before.rooms.Keys == after.rooms.Keys && forall id :: id in before.rooms ==>
      SameRoom(after.rooms[id], before.rooms[id])
  }

  /** Every request of the run is consistent or is this one. */
  predicate Apart(events: seq<Event>, req: Request) {
    forall e :: e in events ==> e.Handle? ==> Consistent(e.req) || e.req == req
  }

  // ----- two accepted requests on a new database -----

  function OneRoom(roomId: string): Transport.Repository {
    map[roomId := Transport.Mapping(0, 0, 0)]
  }

  /** Only these request ids and payment ids have been used, and the room has this state and row. */
  ghost predicate Stands(s: ServerState, roomId: string, room: RoomState, row: RoomRecord, ids: set<string>,
                         paymentIds: set<string>) {
    && Keyed(s.db) && AuditIds(s.db) <= ids && (forall p :: p in s.db.payments ==> p.paymentId in paymentIds)
    && roomId in s.rooms && s.rooms[roomId] == room && roomId in s.db.rooms && s.db.rooms[roomId] == row
  }

  function PaymentIds(t: Txn): set<string> {
    match PaymentId(t)
    case None => {}
    case Some(id) => {id}
  }

  lemma StandsAfterBoot(roomId: string)
    ensures var row := VacantRow(roomId, 0);
      Stands(Boot(OneRoom(roomId), Tables(map[], [], [], []), 0), roomId, FromRow(roomId, row), row, {}, {})
  {
  }

  lemma OnePaymentMore(before: seq<Payment>, after: seq<Payment>, ids: set<string>, more: set<string>)
    requires |after| == |before| + 1 && after[..|before|] == before
    requires (forall p :: p in before ==> p.paymentId in ids) && after[|before|].paymentId in more
    ensures forall p :: p in after ==> p.paymentId in ids + more
  {
    assert after == before + [after[|before|]];
  }

  lemma PaymentsAfter(db: Tables, t: Txn, paymentIds: set<string>)
    requires Body(db, t).Ok? && forall p :: p in db.payments ==> p.paymentId in paymentIds
    ensures forall p :: p in Body(db, t).value.payments ==> p.paymentId in paymentIds + PaymentIds(t)
  {
    CommittedPayments(db, t);
    if |Body(db, t).value.payments| == |db.payments| + 1 {
      OnePaymentMore(db.payments, Body(db, t).value.payments, paymentIds, PaymentIds(t));
    }
  }

  lemma Accepts(s: ServerState, req: Request)
    requires req.roomId in s.rooms && req.roomId in s.db.rooms && Keyed(s.db) && Known(req)
    requires RequestIdOrNow(req, Good(true)) !in AuditIds(s.db)
    requires forall p :: p in s.db.payments ==>
      Some(p.paymentId) != PaymentId(TxnOf(s.rooms[req.roomId].remainingMinutes, req, Good(true)))
    ensures Serve(OneRoom(req.roomId), s, req, Good(true)).1 == Accepted
  {
    AcceptedExactlyWhen(OneRoom(req.roomId), s, req, Good(true));
  }

  lemma StandsAfter(s: ServerState, req: Request, room: RoomState, row: RoomRecord, ids: set<string>,
                    paymentIds: set<string>)
    requires Stands(s, req.roomId, room, row, ids, paymentIds) && Known(req)
    requires var t := TxnOf(room.remainingMinutes, req, Good(true)); t.requestId !in ids && PaymentIds(t) !! paymentIds
    ensures var t := TxnOf(room.remainingMinutes, req, Good(true));
      Stands(Serve(OneRoom(req.roomId), s, req, Good(true)).0, req.roomId, ApplyTo(room, req, Good(true)),
        RowAfter(row, t),
        ids + {t.requestId}, paymentIds + PaymentIds(t))
  {
    var repo := OneRoom(req.roomId);
    var t := TxnOf(room.remainingMinutes, req, Good(true));
    TxnNames(room.remainingMinutes, req, Good(true));
    Accepts(s, req);
    ServeIsAtomic(repo, s, req, Good(true));
    ServeKeyed(repo, s, req, Good(true));
    CommittedRooms(s.db, t);
    PaymentsAfter(s.db, t, paymentIds);
  }

  lemma RunOne(repo: Transport.Repository, events: seq<Event>, e: Event)
    ensures ServerRun(repo, events + [e]) == Next(repo, ServerRun(repo, events), e)
  {
    assert (events + [e])[..|events|] == events;
  }

  /** The room and row two requests leave, whose ids do not clash. */
  function BothRooms(first: Request, second: Request): RoomState {
    ApplyTo(ApplyTo(FromRow(first.roomId, VacantRow(first.roomId, 0)), first, Good(true)), second, Good(true))
  }

  function FirstTxn(first: Request): Txn {
    TxnOf(0, first, Good(true))
  }

  function SecondTxn(first: Request, second: Request): Txn {
    TxnOf(ApplyTo(FromRow(first.roomId, VacantRow(first.roomId, 0)), first, Good(true)).remainingMinutes, second,
      Good(true))
  }

  function BothRows(first: Request, second: Request): RoomRecord {
    RowAfter(RowAfter(VacantRow(first.roomId, 0), FirstTxn(first)), SecondTxn(first, second))
  }

  function Both(first: Request, second: Request): seq<Event> {
    [] + [Handle(first, Good(true))] + [Handle(second, Good(true))]
  }

  predicate NoClash(a: Txn, b: Txn) {
    a.requestId != b.requestId && PaymentIds(a) !! PaymentIds(b)
  }

  lemma BothServed(first: Request, second: Request)
    requires first.roomId == second.roomId && Known(first) && Known(second)
    requires NoClash(FirstTxn(first), SecondTxn(first, second))
    ensures var s := ServerRun(OneRoom(first.roomId), Both(first, second));
      && first.roomId in s.rooms && s.rooms[first.roomId] == BothRooms(first, second)
      && first.roomId in s.db.rooms && s.db.rooms[first.roomId] == BothRows(first, second)
  {
    var repo, id := OneRoom(first.roomId), first.roomId;
    var row := VacantRow(id, 0);
    var s0 := ServerRun(repo, []);
    StandsAfterBoot(id);
    StandsAfter(s0, first, FromRow(id, row), row, {}, {});
    var s1 := Serve(repo, s0, first, Good(true)).0;
    RunOne(repo, [], Handle(first, Good(true)));
    RunOne(repo, [] + [Handle(first, Good(true))], Handle(second, Good(true)));
    StandsAfter(s1, second, ApplyTo(FromRow(id, row), first, Good(true)), RowAfter(row, FirstTxn(first)),
      {FirstTxn(first).requestId}, PaymentIds(FirstTxn(first)));
  }

  /** They differ on something a restart shows. */
  predicate Differs(room: RoomState, row: RoomRecord) {
    || room.stayMode != row.stayMode || room.remainingMinutes != row.remainingMinutes
    || room.lastPaymentAmount != row.lastPaymentAmount || room.lastPaymentRef != row.lastPaymentRef
  }

  lemma DifferenceShows(repo: Transport.Repository, events: seq<Event>, roomId: string, at: int)
    requires var s := ServerRun(repo, events);
      roomId in s.rooms && roomId in s.db.rooms && Differs(s.rooms[roomId], s.db.rooms[roomId])
    ensures !NothingShows(repo, events, at)
  {
    var s := ServerRun(repo, events);
    BootShowsRow(repo, s.db, roomId, at);
  }

  lemma BootShowsRow(repo: Transport.Repository, db: Tables, roomId: string, at: int)
    requires roomId in db.rooms
    ensures var s := Boot(repo, db, at);
      roomId in s.rooms && s.rooms[roomId] == FromRow(roomId, db.rooms[roomId].(floor := s.rooms[roomId].floor))
  {
  }

  // ----- the companion of an inconsistent request -----

  function OtherId(req: Request): string {
    RequestIdOrNow(req, Good(true)) + "p"
  }

  /** The two requests whose run tells: a payment, an opened door or a check-in before the request, or one more
      extension after it when the request shortens a stay. */
  function Telling(req: Request): (Request, Request)
    requires !Consistent(req)
  {
    var id := OtherId(req);
    if req.amount > 0.0 && req.paymentRef == "" then (PaymentRequest(id, req.roomId, 1.0, "", "x"), req)
    else if !PaymentConsistent(req.amount, req.paymentRef)
    then (CommandRequest(id, req.roomId, "open_room", "", "", "", ""), req)
    else if req.ExtendRequest? && req.stayMode == "" then (CheckInRequest(id, req.roomId, "x", "", 0, 0.0, ""), req)
    else (req, ExtendRequest(id, req.roomId, "x", "", 0, 0.0, ""))
  }

  lemma LongerIds(id: string)
    ensures id != id + "p" && id + "-checkin" != id + "p" && id + "-extend" != id + "p"
  {
    assert |id + "p"| == |id| + 1 && |id + "-checkin"| == |id| + 8 && |id + "-extend"| == |id| + 7;
  }

  lemma TellingIdsDiffer(req: Request)
    requires !Consistent(req)
    ensures var (first, second) := Telling(req);
      && first.roomId == second.roomId == req.roomId && Known(first) && Known(second)
      && NoClash(FirstTxn(first), SecondTxn(first, second))
  {
    LongerIds(RequestIdOrNow(req, Good(true)));
    OpenRoomIsKnown();
  }

  lemma OpenRoomIsKnown()
    ensures CommandOf("open_room") == Some(OpenRoom)
  {
    CommandNamesDiffer();
    assert |"open_room"| == 9 && |"start_cleaning"| == 14 && |"finish_cleaning"| == 15;
  }

  lemma TellingDiffers(req: Request)
    requires !Consistent(req)
    ensures var (first, second) := Telling(req); Differs(BothRooms(first, second), BothRows(first, second))
  {
    OpenRoomIsKnown();
  }

  lemma TellingIsApart(req: Request)
    requires !Consistent(req)
    ensures var (first, second) := Telling(req); Apart(Both(first, second), req)
  {
  }

  lemma BothShow(first: Request, second: Request, at: int)
    requires first.roomId == second.roomId && Known(first) && Known(second)
    requires NoClash(FirstTxn(first), SecondTxn(first, second)) &&
      Differs(BothRooms(first, second), BothRows(first, second))
    ensures !NothingShows(OneRoom(first.roomId), Both(first, second), at)
  {
    BothServed(first, second);
    DifferenceShows(OneRoom(first.roomId), Both(first, second), first.roomId, at);
  }

  // ----- main results -----

  /** For every inconsistent request there is a run, otherwise consistent and without any failure, after which a
      restart changes a room. */
  lemma InconsistentShows(req: Request, at: int) returns (repo: Transport.Repository, events: seq<Event>)
    requires !Consistent(req)
    ensures Apart(events, req) && !NothingShows(repo, events, at)
  {
    var (first, second) := Telling(req);
    repo, events := OneRoom(req.roomId), Both(first, second);
    TellingIdsDiffer(req);
    TellingDiffers(req);
    TellingIsApart(req);
    BothShow(first, second, at);
  }

  /** A request is consistent if and only if no run of it and consistent requests, with whatever restarts and
      failures, ever lets a restart show. */
  lemma RestartNeverShowsExactlyWhen(req: Request)
    ensures Consistent(req) <==>
      forall repo: Transport.Repository, events: seq<Event>, at: int :: Apart(events, req) ==>
        NothingShows(repo, events, at)
  {
    if Consistent(req) {
      forall repo: Transport.Repository, events: seq<Event>, at: int | Apart(events, req)
        ensures NothingShows(repo, events, at) {
        RestartIsInvisible(repo, events, at);
      }
    } else {
      var repo, events := InconsistentShows(req, 0);
    }
  }
}
