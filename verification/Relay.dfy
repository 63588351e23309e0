/** The relay word cached for the bus against the room status the server believes in. */
module Relay {
  import opened Core
  import opened Bits
  import opened Database
  import opened Ledger
  import opened Server
  import Frames
  import Transport

  /** The room has a usable port that no other room is wired to. */
  ghost predicate OwnsPort(repo: Transport.Repository, roomId: string) {
    && roomId in repo && 0 <= repo[roomId].port < 16
    && forall other :: other in repo && other != roomId ==>
         repo[other].address != repo[roomId].address || repo[other].port != repo[roomId].port
  }

  predicate RelayOn(repo: Transport.Repository, s: ServerState, roomId: string)
    requires roomId in repo && 0 <= repo[roomId].port < 16
  {
    Bit(Transport.Word(s.link, repo[roomId].address), repo[roomId].port)
  }

  predicate Agrees(repo: Transport.Repository, s: ServerState, roomId: string)
    requires roomId in repo && 0 <= repo[roomId].port < 16
  {
    roomId in s.rooms && (RelayOn(repo, s, roomId) <==> s.rooms[roomId].status != Vacant)
  }

  /** The request reaches the relay of the room, and this is what it asks of it. */
  function AskedOf(repo: Transport.Repository, s: ServerState, req: Request, roomId: string): Option<bool> {
    if req.roomId != roomId || (req.PaymentRequest? && req.roomId !in s.rooms) then None
    else
      match Target(req)
      case None => None
      case Some(target) =>
        if Transport.Accept(repo, Transport.Intent(roomId, target)).None? then None else Some(target != Frames.Vacant)
  }

  lemma OtherRoomsAskElsewhere(repo: Transport.Repository, intent: Transport.Intent, roomId: string)
    requires OwnsPort(repo, roomId) && intent.roomId != roomId
    ensures Transport.Asks(repo, intent, repo[roomId].address, repo[roomId].port) == None
  {
  }

  lemma OwnRoomAsksHere(repo: Transport.Repository, target: Frames.SemanticState, roomId: string)
    requires OwnsPort(repo, roomId)
    ensures Transport.Asks(repo, Transport.Intent(roomId, target), repo[roomId].address, repo[roomId].port)
         == if Transport.Accept(repo, Transport.Intent(roomId, target)).None? then None
          else Some(target != Frames.Vacant)
  {
  }

  lemma ServeLink(repo: Transport.Repository, s: ServerState, req: Request, env: Env)
    ensures Serve(repo, s, req, env).0.link ==
      if req.PaymentRequest? || Target(req).None? then s.link
      else Transport.Apply(repo, s.link,
        Transport.Attempt(Transport.Intent(req.roomId, Target(req).value), env.slave, env.display)).0
  {
  }

  /** The relay follows what is asked, whether or not the request goes on to succeed. */
  lemma ServeRelay(repo: Transport.Repository, s: ServerState, req: Request, env: Env, roomId: string)
    requires OwnsPort(repo, roomId)
    ensures RelayOn(repo, Serve(repo, s, req, env).0, roomId) ==
      AskedOf(repo, s, req, roomId).GetOr(RelayOn(repo, s, roomId))
  {
    ServeLink(repo, s, req, env);
    var m := repo[roomId];
    if Target(req).Some? {
      var intent := Transport.Intent(req.roomId, Target(req).value);
      Transport.ApplyBit(repo, s.link, Transport.Attempt(intent, env.slave, env.display), m.address, m.port);
      if req.roomId == roomId {
        OwnRoomAsksHere(repo, Target(req).value, roomId);
      } else {
        OtherRoomsAskElsewhere(repo, intent, roomId);
      }
    }
  }

  lemma ServeStatus(repo: Transport.Repository, s: ServerState, req: Request, env: Env, roomId: string)
    requires OwnsPort(repo, roomId) && roomId in s.rooms
    ensures var (after, outcome) := Serve(repo, s, req, env);
      && roomId in after.rooms
      && (outcome == Accepted && AskedOf(repo, s, req, roomId).Some? ==>
            (after.rooms[roomId].status != Vacant) == AskedOf(repo, s, req, roomId).value)
      && (!(outcome == Accepted && AskedOf(repo, s, req, roomId).Some?) ==>
         after.rooms[roomId].status == s.rooms[roomId].status)
  {
    AcceptedDrives(repo, s, req, env);
    ServeIsAtomic(repo, s, req, env);
  }

  /** A request that needs the relay and does not get past the room table is not accepted. */
  lemma AcceptedDrives(repo: Transport.Repository, s: ServerState, req: Request, env: Env)
    ensures Serve(repo, s, req, env).1 == Accepted && Target(req).Some? ==>
      Transport.Accept(repo, Transport.Intent(req.roomId, Target(req).value)).Some?
  {
  }

  // ----- which requests succeed, from what goes in -----

  /** A known action; a known room where the handler looks for one; a relay that takes the command, with both writes
      going through, where there is a command; a healthy database that has the room, has not seen the request id, and
      has no payment under the id this one would get. */
  predicate Acceptable(repo: Transport.Repository, s: ServerState, req: Request, env: Env) {
    && Known(req)
    && (req.CheckInRequest? || req.PaymentRequest? ==> req.roomId in s.rooms)
    && (Target(req).Some? ==>
          Transport.Accept(repo, Transport.Intent(req.roomId, Target(req).value)).Some? && env.slave.Sent? &&
          env.display.Sent?)
    && env.healthy && req.roomId in s.db.rooms && RequestIdOrNow(req, env) !in AuditIds(s.db)
    && forall p :: p in s.db.payments ==>
       Some(p.paymentId) != PaymentId(TxnOf(CurrentMinutes(s.rooms, req.roomId), req, env))
  }

  lemma TxnNames(currentMinutes: int, req: Request, env: Env)
    ensures var t := TxnOf(currentMinutes, req, env); t.requestId == RequestIdOrNow(req, env) && t.roomId == req.roomId
  {
  }

  lemma AcceptedExactlyWhen(repo: Transport.Repository, s: ServerState, req: Request, env: Env)
    requires Keyed(s.db)
    ensures Serve(repo, s, req, env).1 == Accepted <==> Acceptable(repo, s, req, env)
  {
    CommitsExactlyWhen(s.db, TxnOf(CurrentMinutes(s.rooms, req.roomId), req, env));
    TxnNames(CurrentMinutes(s.rooms, req.roomId), req, env);
  }

  /** The relay of a room agrees with its status after one request exactly when it did before and the request does
      not ask anything of it, or the request asks and is acceptable, or asks for what the status already says. */
  lemma AgreementStep(repo: Transport.Repository, s: ServerState, req: Request, env: Env, roomId: string)
    requires OwnsPort(repo, roomId) && roomId in s.rooms && Keyed(s.db)
    ensures var asked := AskedOf(repo, s, req, roomId);
      Agrees(repo, Serve(repo, s, req, env).0, roomId) <==>
        if asked.None? then Agrees(repo, s, roomId)
        else Acceptable(repo, s, req, env) || asked.value == (s.rooms[roomId].status != Vacant)
  {
    AcceptedExactlyWhen(repo, s, req, env);
    ServeRelay(repo, s, req, env, roomId);
    ServeStatus(repo, s, req, env, roomId);
  }

  // ----- whole runs -----

  datatype Exchange = Exchange(req: Request, env: Env)

  function ServeAll(repo: Transport.Repository, exchanges: seq<Exchange>): ServerState {
    if exchanges == [] then Boot(repo, Tables(map[], [], [], []), 0)
    else
      var last := exchanges[|exchanges| - 1];
      Serve(repo, ServeAll(repo, exchanges[..|exchanges| - 1]), last.req, last.env).0
  }

  /** The latest request that asked something of the room's relay was acceptable, or asked for what the status said
      when it came. */
  predicate LatestAskWasKept(repo: Transport.Repository, exchanges: seq<Exchange>, roomId: string) {
    exchanges == [] ||
    var before, last := exchanges[..|exchanges| - 1], exchanges[|exchanges| - 1];
    var s := ServeAll(repo, before);
    match AskedOf(repo, s, last.req, roomId)
    case None => LatestAskWasKept(repo, before, roomId)
    case Some(on) =>
      Acceptable(repo, s, last.req, last.env) || (roomId in s.rooms && on == (s.rooms[roomId].status != Vacant))
  }

  /** Every request that asks something of a relay is acceptable: no failed write, no refused transaction. */
  predicate AllAcceptable(repo: Transport.Repository, exchanges: seq<Exchange>) {
    exchanges == [] ||
    var before, last := exchanges[..|exchanges| - 1], exchanges[|exchanges| - 1];
    var s := ServeAll(repo, before);
    && AllAcceptable(repo, before)
    && (AskedOf(repo, s, last.req, last.req.roomId).Some? ==> Acceptable(repo, s, last.req, last.env))
  }

  lemma BootAgrees(repo: Transport.Repository, roomId: string)
    requires OwnsPort(repo, roomId)
    ensures var s := Boot(repo, Tables(map[], [], [], []), 0);
      Agrees(repo, s, roomId) && s.rooms[roomId].status == Vacant && Seeded(s.db)
  {
    Transport.EmptyWord(repo[roomId].port);
  }

  lemma ServeKeyed(repo: Transport.Repository, s: ServerState, req: Request, env: Env)
    requires Keyed(s.db)
    ensures Keyed(Serve(repo, s, req, env).0.db)
    ensures Serve(repo, s, req, env).1 == Accepted ==>
      AuditIds(Serve(repo, s, req, env).0.db) == AuditIds(s.db) + {RequestIdOrNow(req, env)}
  {
    ServeIsAtomic(repo, s, req, env);
    var t := TxnOf(CurrentMinutes(s.rooms, req.roomId), req, env);
    TxnNames(CurrentMinutes(s.rooms, req.roomId), req, env);
    if Serve(repo, s, req, env).1 == Accepted {
      CommitAudits(s.db, t);
      CommitStays(s.db, t);
      CommitPayments(s.db, t);
    }
  }

  lemma {:induction false} ServeAllKeyed(repo: Transport.Repository, exchanges: seq<Exchange>, roomId: string)
    requires OwnsPort(repo, roomId)
    ensures Keyed(ServeAll(repo, exchanges).db) && roomId in ServeAll(repo, exchanges).rooms
  {
    if exchanges == [] {
      BootAgrees(repo, roomId);
    } else {
      var n := |exchanges| - 1;
      ServeAllKeyed(repo, exchanges[..n], roomId);
      ServeKeyed(repo, ServeAll(repo, exchanges[..n]), exchanges[n].req, exchanges[n].env);
      ServeStatus(repo, ServeAll(repo, exchanges[..n]), exchanges[n].req, exchanges[n].env, roomId);
    }
  }

  /** From an all-vacant start, after any requests, writes and database failures: the relay of a room agrees with its
      status if and only if the latest request that asked something of it was acceptable or asked for what the status
      said. */
  lemma {:induction false} RelayAgreesExactlyWhen(repo: Transport.Repository, exchanges: seq<Exchange>, roomId: string)
    requires OwnsPort(repo, roomId)
    ensures Agrees(repo, ServeAll(repo, exchanges), roomId) <==> LatestAskWasKept(repo, exchanges, roomId)
  {
    if exchanges == [] {
      BootAgrees(repo, roomId);
    } else {
      var n := |exchanges| - 1;
      RelayAgreesExactlyWhen(repo, exchanges[..n], roomId);
      ServeAllKeyed(repo, exchanges[..n], roomId);
      AgreementStep(repo, ServeAll(repo, exchanges[..n]), exchanges[n].req, exchanges[n].env, roomId);
    }
  }

  /** In particular, while no write and no database operation fails and the transactions are acceptable, the relay of
      a room is on exactly when it is not vacant, after every request. */
  lemma {:induction false} RelaysAgreeWithRooms(repo: Transport.Repository, exchanges: seq<Exchange>, roomId: string)
    requires OwnsPort(repo, roomId) && AllAcceptable(repo, exchanges)
    ensures Agrees(repo, ServeAll(repo, exchanges), roomId)
  {
    if exchanges == [] {
      BootAgrees(repo, roomId);
    } else {
      var n := |exchanges| - 1;
      RelaysAgreeWithRooms(repo, exchanges[..n], roomId);
      ServeAllKeyed(repo, exchanges[..n], roomId);
      AgreementStep(repo, ServeAll(repo, exchanges[..n]), exchanges[n].req, exchanges[n].env, roomId);
    }
  }

  // ----- runs after which relay and status disagree -----

  function Arrival(id: string, roomId: string): Request {
    CheckInRequest(id, roomId, "overnight", "", 0, 0.0, "")
  }

  lemma ServeOne(repo: Transport.Repository, exchanges: seq<Exchange>, x: Exchange)
    ensures ServeAll(repo, exchanges + [x]) == Serve(repo, ServeAll(repo, exchanges), x.req, x.env).0
  {
    assert (exchanges + [x])[..|exchanges|] == exchanges;
  }

  /** A check-in of a vacant room whose transaction fails: the relay goes on, the room stays vacant. */
  lemma FailedCommitParts(repo: Transport.Repository, s: ServerState, roomId: string, id: string)
    requires OwnsPort(repo, roomId) && roomId in s.rooms && Keyed(s.db) && s.rooms[roomId].status == Vacant
    ensures !Agrees(repo, Serve(repo, s, Arrival(id, roomId), Good(false)).0, roomId)
  {
    AgreementStep(repo, s, Arrival(id, roomId), Good(false), roomId);
  }

  /** A check-out that repeats a request id: refused after the relay has gone off, and the room stays occupied. */
  lemma RepeatedIdParts(repo: Transport.Repository, s: ServerState, roomId: string, id: string)
    requires OwnsPort(repo, roomId) && roomId in s.rooms && Keyed(s.db) && s.rooms[roomId].status != Vacant
    requires id != "" && id in AuditIds(s.db)
    ensures !Agrees(repo, Serve(repo, s, CheckOutRequest(id, roomId), Good(true)).0, roomId)
  {
    AgreementStep(repo, s, CheckOutRequest(id, roomId), Good(true), roomId);
  }

  lemma ArrivalAccepted(repo: Transport.Repository, s: ServerState, roomId: string, id: string)
    requires OwnsPort(repo, roomId) && roomId in s.rooms && roomId in s.db.rooms && Seeded(s.db) && id != ""
    ensures var after := Serve(repo, s, Arrival(id, roomId), Good(true)).0;
      id in AuditIds(after.db) && roomId in after.rooms && after.rooms[roomId].status != Vacant
  {
    AcceptedExactlyWhen(repo, s, Arrival(id, roomId), Good(true));
    ServeKeyed(repo, s, Arrival(id, roomId), Good(true));
    ServeStatus(repo, s, Arrival(id, roomId), Good(true), roomId);
  }

  lemma StartsVacant(repo: Transport.Repository, roomId: string)
    requires OwnsPort(repo, roomId)
    ensures var s := ServeAll(repo, []);
      roomId in s.rooms && roomId in s.db.rooms && s.rooms[roomId].status == Vacant && Seeded(s.db) && Keyed(s.db)
  {
    BootAgrees(repo, roomId);
  }

  /** The first guest's check-in, with a database that fails: the relay is on, the room vacant. */
  lemma FailedCommitRunsAhead(repo: Transport.Repository, roomId: string)
    requires OwnsPort(repo, roomId)
    ensures !Agrees(repo, ServeAll(repo, [] + [Exchange(Arrival("a", roomId), Good(false))]), roomId)
  {
    StartsVacant(repo, roomId);
    ServeOne(repo, [], Exchange(Arrival("a", roomId), Good(false)));
    FailedCommitParts(repo, ServeAll(repo, []), roomId, "a");
  }

  /** Nothing fails, but the check-out repeats the request id of the check-in: the relay is off, the room occupied. */
  lemma RepeatedIdRunsAhead(repo: Transport.Repository, roomId: string)
    requires OwnsPort(repo, roomId)
    ensures !Agrees(repo,
      ServeAll(repo,
      [] + [Exchange(Arrival("a", roomId), Good(true))] + [Exchange(CheckOutRequest("a", roomId), Good(true))]), roomId)
  {
    var x, y := Exchange(Arrival("a", roomId), Good(true)), Exchange(CheckOutRequest("a", roomId), Good(true));
    StartsVacant(repo, roomId);
    ServeOne(repo, [], x);
    ServeOne(repo, [] + [x], y);
    ServeAllKeyed(repo, [] + [x], roomId);
    ArrivalAccepted(repo, ServeAll(repo, []), roomId, "a");
    RepeatedIdParts(repo, ServeAll(repo, [] + [x]), roomId, "a");
  }
}
