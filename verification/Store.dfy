/** The store as the object its transactions change in place (`store/store.go`). */
module StoreObject {
  import opened Core
  import opened Database
  import Server
  import Transport

  class Store {
    var rooms: map<string, RoomRecord>
    var stays: seq<Stay>
    var payments: seq<Payment>
    var audits: seq<Audit>

    function State(): Tables
      reads this
    {
      Tables(rooms, stays, payments, audits)
    }

    constructor (db: Tables)
      ensures State() == db
    {
      rooms, stays, payments, audits := db.rooms, db.stays, db.payments, db.audits;
    }

    method Rollback(saved: Tables)
      modifies this
      ensures State() == saved
    {
      rooms, stays, payments, audits := saved.rooms, saved.stays, saved.payments, saved.audits;
    }

    /** updateRoomState and updateRoomPayment */
    method UpdateRoomRow(t: Txn)
      modifies this`rooms
      ensures State() == UpdateRoom(old(State()), t)
    {
      if t.roomId in rooms {
        rooms := rooms[t.roomId := RowAfter(rooms[t.roomId], t)];
      }
    }

    method InsertStayRow(stay: Stay) returns (ok: bool)
      modifies this`stays
      ensures ok == InsertStay(old(State()), stay).Ok?
      ensures State() == if ok then InsertStay(old(State()), stay).value else old(State())
    {
      ok := stay.roomId in rooms && !exists s | s in stays :: s.stayId == stay.stayId;
      if ok {
        stays := stays + [stay];
      }
    }

    method InsertPaymentRow(payment: Payment) returns (ok: bool)
      modifies this`payments
      ensures ok == InsertPayment(old(State()), payment).Ok?
      ensures State() == if ok then InsertPayment(old(State()), payment).value else old(State())
    {
      ok := payment.roomId in rooms && !exists p | p in payments :: p.paymentId == payment.paymentId;
      if ok {
        payments := payments + [payment];
      }
    }

    method InsertAuditRow(audit: Audit) returns (ok: bool)
      modifies this`audits
      ensures ok == InsertAudit(old(State()), audit).Ok?
      ensures State() == if ok then InsertAudit(old(State()), audit).value else old(State())
    {
      ok := audit.roomId in rooms && !exists a | a in audits :: a.id == audit.id;
      if ok {
        audits := audits + [audit];
      }
    }

    /** The stay query, as one pass over the rows. */
    method FindActive(roomId: string) returns (found: Option<nat>)
      ensures found == FindActiveStay(State(), roomId)
    {
      found := None;
      for i := 0 to |stays|
        invariant found == ActiveIndex(stays[..i], roomId)
      {
        assert stays[..i + 1][..i] == stays[..i];
        if IsActive(stays[i], roomId) && (found.None? || LaterIn(stays[i], stays[found.value])) {
          found := Some(i);
        }
      }
      assert stays[..|stays|] == stays;
      if found.Some? && stays[found.value].stayId == "" {
        found := None;
      }
    }

    method FindClosed(roomId: string) returns (found: Option<nat>)
      ensures found == ClosedIndex(stays, roomId)
    {
      found := None;
      for i := 0 to |stays|
        invariant found == ClosedIndex(stays[..i], roomId)
      {
        assert stays[..i + 1][..i] == stays[..i];
        if IsClosed(stays[i], roomId) && (found.None? || LaterOut(stays[i], stays[found.value])) {
          found := Some(i);
        }
      }
      assert stays[..|stays|] == stays;
    }

    method CheckInBody(t: Txn) returns (ok: bool)
      requires t.CheckIn?
      modifies this
      ensures ok == RecordCheckIn(old(State()), t).Ok?
      ensures ok ==> State() == RecordCheckIn(old(State()), t).value
    {
      UpdateRoomRow(t);
      ok := InsertStayRow(NewStay(t));
      if !ok { return; }
      if t.amount > 0.0 {
        ok := InsertPaymentRow(Payment(t.requestId + "-checkin", t.requestId, t.requestId, t.roomId, t.amount,
          "check_in", t.paymentRef, t.at));
        if !ok { return; }
      }
      ok := InsertAuditRow(Audit(t.requestId, t.at, t.roomId, "check_in", t.actor, t.stayMode, t.caseCode,
        t.paymentRef));
    }

    method CheckOutBody(t: Txn) returns (ok: bool)
      requires t.CheckOut?
      modifies this
      ensures ok == RecordCheckOut(old(State()), t).Ok?
      ensures ok ==> State() == RecordCheckOut(old(State()), t).value
    {
      var active := FindActive(t.roomId);
      if active.Some? {
        var s := stays[active.value];
        var closed := s.(status := CheckedOut, guestOut := Some(t.at), usedMinutes := DiffMinutes(s.guestIn, t.at),
                         lastUpdated := t.at);
        stays := stays[active.value := closed];
      }
      UpdateRoomRow(t);
      ok := InsertAuditRow(Audit(t.requestId, t.at, t.roomId, "check_out", t.actor, "", "", ""));
    }

    method ExtendBody(t: Txn) returns (ok: bool)
      requires t.Extend?
      modifies this
      ensures ok == RecordExtend(old(State()), t).Ok?
      ensures ok ==> State() == RecordExtend(old(State()), t).value
    {
      var active := FindActive(t.roomId);
      var stayId := "";
      if active.Some? {
        var s := stays[active.value];
        stayId := s.stayId;
        var extended := s.(stayMode := t.stayMode, caseCode := t.caseCode, allocatedMinutes := t.remainingMinutes,
                           paymentAmount := s.paymentAmount + t.amount, paymentRef := t.paymentRef,
                           lastUpdated := t.at);
        stays := stays[active.value := extended];
      }
      UpdateRoomRow(t);
      if t.amount > 0.0 {
        ok := InsertPaymentRow(Payment(t.requestId + "-extend", t.requestId, stayId, t.roomId, t.amount, "extend",
          t.paymentRef, t.at));
        if !ok { return; }
      }
      ok := InsertAuditRow(Audit(t.requestId, t.at, t.roomId, "extend_stay", t.actor, t.stayMode, t.caseCode,
        t.paymentRef));
    }

    method PaymentBody(t: Txn) returns (ok: bool)
      requires t.Pay?
      modifies this
      ensures ok == RecordPayment(old(State()), t).Ok?
      ensures ok ==> State() == RecordPayment(old(State()), t).value
    {
      var active := FindActive(t.roomId);
      var stayId := if active.Some? then stays[active.value].stayId else "";
      UpdateRoomRow(t);
      ok := InsertPaymentRow(Payment(t.requestId, t.requestId, stayId, t.roomId, t.amount, t.paidBy, t.paymentRef,
        t.at));
      if !ok { return; }
      if t.roomId !in rooms { return false; }
      var meta := rooms[t.roomId];
      ok := InsertAuditRow(Audit(t.requestId, t.at, t.roomId, "receive_payment", t.actor, meta.stayMode, meta.caseCode,
        t.paymentRef));
    }

    method CommandBody(t: Txn) returns (ok: bool)
      requires t.Order?
      modifies this
      ensures ok == RecordCommand(old(State()), t).Ok?
      ensures ok ==> State() == RecordCommand(old(State()), t).value
    {
      UpdateRoomRow(t);
      if t.command == FinishCleaning {
        var closed := FindClosed(t.roomId);
        if closed.Some? {
          var s := stays[closed.value];
          var cleaned := s.(cleanUp := if s.cleanUp.Some? then s.cleanUp else Some(t.at), lastUpdated := t.at);
          stays := stays[closed.value := cleaned];
        }
      }
      if t.roomId !in rooms { return false; }
      var meta := rooms[t.roomId];
      ok := InsertAuditRow(Audit(t.requestId, t.at, t.roomId, t.command.Name(), t.actor, meta.stayMode, meta.caseCode,
        t.detail));
    }

    method RunBody(t: Txn) returns (ok: bool)
      modifies this
      ensures ok == Body(old(State()), t).Ok?
      ensures ok ==> State() == Body(old(State()), t).value
    {
      match t
      case CheckIn(_, _, _, _, _, _, _, _, _) => ok := CheckInBody(t);
      case CheckOut(_, _, _, _) => ok := CheckOutBody(t);
      case Extend(_, _, _, _, _, _, _, _, _) => ok := ExtendBody(t);
      case Pay(_, _, _, _, _, _, _) => ok := PaymentBody(t);
      case Order(_, _, _, _, _, _) => ok := CommandBody(t);
    }

    /** seedRooms: one insert, or update of the floor, for each mapping. */
    method SeedRooms(repo: Transport.Repository, at: int)
      modifies this`rooms
      ensures State() == old(State()).(rooms := Server.SeedRooms(old(rooms), repo, at))
    {
      ghost var seeded := Server.SeedRooms(rooms, repo, at);
      var todo := repo.Keys;
      while todo != {}
        invariant todo <= repo.Keys && rooms.Keys == old(rooms).Keys + (repo.Keys - todo)
        invariant forall id :: id in rooms ==> rooms[id] == if id in todo then old(rooms)[id] else seeded[id]
        decreases todo
      {
        var id :| id in todo;
        SeedRoom(id, at);
        todo := todo - {id};
      }
      assert rooms == seeded;
    }

    method SeedRoom(id: string, at: int)
      modifies this`rooms
      ensures var was := old(rooms);
        rooms == was[id := if id in was then was[id].(floor := Server.FloorOf(id)) else Server.VacantRow(id, at)]
    {
      rooms := rooms[id := if id in rooms then rooms[id].(floor := Server.FloorOf(id)) else Server.VacantRow(id, at)];
    }

    /** withTx around one of the five bodies: an error, or a commit that fails, takes every change back. */
    method Record(call: Call) returns (ok: bool)
      modifies this
      ensures ok == Commits(old(State()), call)
      ensures State() == WithTx(old(State()), call)
    {
      var saved := State();
      ok := RunBody(call.txn);
      if !ok || !call.healthy {
        Rollback(saved);
        ok := false;
      }
    }
  }
}

/** The server as the object its handlers change (`httpapi/server.go`): the effects of a request in order. */
module ServerObject {
  import opened Core
  import opened Database
  import opened Server
  import opened Announcements
  import Frames
  import Payloads
  import StoreObject
  import StringOrder
  import Transport

  function CountStatus(rooms: seq<Payloads.RoomJson>, status: Option<RoomStatus>): nat {
    if rooms == [] then 0
    else CountStatus(rooms[..|rooms| - 1], status) + if rooms[|rooms| - 1].status == status then 1 else 0
  }

  function DefaultRoom(roomId: string, at: int): RoomState {
    RoomState(roomId, FloorOf(roomId), Vacant, "", "", true, 0, 0.0, "", "", at)
  }

  /** A mapped room starts as a new row of it would make it. */
  lemma DefaultIsVacantRow(roomId: string, at: int)
    ensures DefaultRoom(roomId, at) == FromRow(roomId, Server.VacantRow(roomId, at))
  {
  }

  /** The rooms with this status. */
  function RoomsWith(rooms: map<string, RoomState>, status: Option<RoomStatus>): set<string> {
    set id | id in rooms && Some(rooms[id].status) == status
  }

  /** Those among `ids` that are such rooms. */
  function Among(rooms: map<string, RoomState>, ids: seq<string>, status: Option<RoomStatus>): set<string> {
    set id | id in ids && id in RoomsWith(rooms, status)
  }

  lemma AmongMore(rooms: map<string, RoomState>, ids: seq<string>, id: string, status: Option<RoomStatus>)
    requires id !in ids
    ensures |Among(rooms, ids + [id], status)| ==
      |Among(rooms, ids, status)| + if id in RoomsWith(rooms, status) then 1 else 0
  {
    var before, after := Among(rooms, ids, status), Among(rooms, ids + [id], status);
    assert after == if id in RoomsWith(rooms, status) then before + {id} else before;
  }

  lemma {:induction false} CountIsNumber(rooms: map<string, RoomState>, ids: seq<string>, status: Option<RoomStatus>)
    requires StringOrder.Sorted(ids) && forall id :: id in ids ==> id in rooms
    ensures CountStatus(Payloads.SnapshotsOf(rooms, ids), status) == |Among(rooms, ids, status)|
  {
    if ids == [] {
      assert Among(rooms, ids, status) == {};
    } else {
      var n := |ids| - 1;
      CountIsNumber(rooms, ids[..n], status);
      StringOrder.WithoutLast(ids, ids[n]);
      AmongMore(rooms, ids[..n], ids[n], status);
      assert ids[..n] + [ids[n]] == ids;
    }
  }

  lemma CountsRooms(rooms: map<string, RoomState>, status: Option<RoomStatus>)
    ensures CountStatus(Payloads.SnapshotsOf(rooms, Payloads.SortedIds(rooms.Keys)), status) ==
      |RoomsWith(rooms, status)|
  {
    var ids := Payloads.SortedIds(rooms.Keys);
    CountIsNumber(rooms, ids, status);
    assert Among(rooms, ids, status) == RoomsWith(rooms, status);
  }

  class StateStore {
    var rooms: map<string, RoomState>
    var audit: seq<Audit>

    constructor (rooms: map<string, RoomState>, audit: seq<Audit>)
      ensures this.rooms == rooms && this.audit == audit
    {
      this.rooms, this.audit := rooms, audit;
    }

    method Put(roomId: string, item: RoomState)
      modifies this`rooms
      ensures rooms == old(rooms)[roomId := item]
    {
      rooms := rooms[roomId := item];
    }

    method ApplyCheckIn(roomId: string, stayMode: string, caseCode: string, stayHours: int, amount: real,
                        paymentRef: string, at: int)
      modifies this`rooms
      ensures rooms == if roomId in old(rooms)
        then old(rooms)[roomId :=
          Server.ApplyCheckIn(old(rooms)[roomId], stayMode, caseCode, stayHours, amount, paymentRef, at)]
        else old(rooms)
    {
      if roomId !in rooms { return; }
      var item := rooms[roomId];
      item := item.(status := Occupied, stayMode := stayMode, caseCode := caseCode,
        remainingMinutes := Max(stayHours * 60, DefaultMinutes(stayMode)));
      if amount > 0.0 {
        item := item.(lastPaymentAmount := amount, lastPaymentRef := paymentRef, lastPaymentMethod := "check_in");
      }
      Put(roomId, item.(updatedAt := at));
    }

    method ApplyCheckOut(roomId: string, at: int)
      modifies this`rooms
      ensures rooms ==
        if roomId in old(rooms) then old(rooms)[roomId := Server.ApplyCheckOut(old(rooms)[roomId], at)] else old(rooms)
    {
      if roomId !in rooms { return; }
      Put(roomId,
        rooms[roomId].(status := Vacant, stayMode := "", caseCode := "", remainingMinutes := 0, updatedAt := at));
    }

    method ApplyCommand(roomId: string, action: string, at: int)
      modifies this`rooms
      ensures rooms ==
        if roomId in old(rooms) then old(rooms)[roomId := Server.ApplyCommand(old(rooms)[roomId], action, at)]
        else old(rooms)
    {
      if roomId !in rooms { return; }
      var item := rooms[roomId];
      if action == "start_cleaning" {
        item := item.(status := Cleaning);
      } else if action == "finish_cleaning" {
        item := item.(status := Vacant, stayMode := "", caseCode := "", remainingMinutes := 0);
      }
      Put(roomId, item.(updatedAt := at));
    }

    method ApplyExtend(roomId: string, stayMode: string, caseCode: string, extendMinutes: int, amount: real,
                       paymentRef: string, at: int)
      modifies this`rooms
      ensures rooms == if roomId in old(rooms)
        then old(rooms)[roomId :=
          Server.ApplyExtend(old(rooms)[roomId], stayMode, caseCode, extendMinutes, amount, paymentRef, at)]
        else old(rooms)
    {
      if roomId !in rooms { return; }
      var item := rooms[roomId].(status := Occupied);
      if stayMode != "" {
        item := item.(stayMode := stayMode);
      }
      if caseCode != "" {
        item := item.(caseCode := caseCode);
      }
      item := item.(remainingMinutes := item.remainingMinutes + extendMinutes);
      if amount > 0.0 {
        item := item.(lastPaymentAmount := amount, lastPaymentRef := paymentRef, lastPaymentMethod := "extend");
      }
      Put(roomId, item.(updatedAt := at));
    }

    method ApplyPayment(roomId: string, amount: real, paidBy: string, paymentRef: string, at: int)
      modifies this`rooms
      ensures rooms == if roomId in old(rooms)
        then old(rooms)[roomId := Server.ApplyPayment(old(rooms)[roomId], amount, paidBy, paymentRef, at)]
        else old(rooms)
    {
      if roomId !in rooms { return; }
      Put(roomId,
        rooms[roomId].(lastPaymentAmount := amount, lastPaymentMethod := paidBy, lastPaymentRef := paymentRef,
                       updatedAt := at));
    }

    /** newStateStoreFromStore: the mapped rooms as vacant defaults, then the rows over them, then the audit. */
    method LoadFrom(repo: Transport.Repository, rows: map<string, RoomRecord>, recent: seq<Audit>, at: int)
      modifies this
      ensures rooms.Keys == repo.Keys + rows.Keys && audit == recent
      ensures forall id :: id in rooms ==>
        rooms[id] == if id in rows then FromRow(id, rows[id]) else DefaultRoom(id, at)
    {
      rooms, audit := map[], recent;
      var todo := repo.Keys;
      while todo != {}
        invariant todo <= repo.Keys && rooms.Keys == repo.Keys - todo && audit == recent
        invariant forall id :: id in rooms ==> rooms[id] == DefaultRoom(id, at)
        decreases todo
      {
        var id :| id in todo;
        rooms := rooms[id := DefaultRoom(id, at)];
        todo := todo - {id};
      }
      todo := rows.Keys;
      while todo != {}
        invariant todo <= rows.Keys && rooms.Keys == repo.Keys + (rows.Keys - todo) && audit == recent
        invariant forall id :: id in rooms ==>
          rooms[id] == if id in rows && id !in todo then FromRow(id, rows[id]) else DefaultRoom(id, at)
        decreases todo
      {
        var id :| id in todo;
        rooms := rooms[id := FromRow(id, rows[id])];
        todo := todo - {id};
      }
    }

    /** The ids of list(), ascending. */
    method ListIds() returns (ids: seq<string>)
      ensures ids == Payloads.SortedIds(rooms.Keys)
    {
      ids := [];
      var todo := rooms.Keys;
      while todo != {}
        invariant todo <= rooms.Keys
        invariant StringOrder.Sorted(ids) && forall id :: id in ids <==> id in rooms.Keys - todo
        decreases todo
      {
        var id :| id in todo;
        StringOrder.InsertStringSorts(ids, id);
        ids := StringOrder.InsertString(ids, id);
        todo := todo - {id};
      }
      StringOrder.SortedIsUnique(ids, Payloads.SortedIds(rooms.Keys));
    }

    /** The counting loop of fullStatePayload: statuses that occur beyond the five usual ones get a count too. */
    method Summarize(items: seq<Payloads.RoomJson>) returns (summary: map<Option<RoomStatus>, nat>)
      ensures forall st :: st in summary ==> summary[st] == CountStatus(items, st)
      ensures forall st :: st !in summary ==> CountStatus(items, st) == 0
    {
      summary := map[Some(Vacant) := 0, Some(Occupied) := 0, Some(Cleaning) := 0, Some(Overstay) := 0, Some(Dnd) := 0];
      for i := 0 to |items|
        invariant forall st :: st in summary ==> summary[st] == CountStatus(items[..i], st)
        invariant forall st :: st !in summary ==> CountStatus(items[..i], st) == 0
      {
        assert items[..i + 1][..i] == items[..i];
        var st := items[i].status;
        summary := summary[st := (if st in summary then summary[st] else 0) + 1];
      }
      assert items[..|items|] == items;
    }

    /** fullStatePayload */
    method FullState() returns (payload: Payloads.Event, summary: map<Option<RoomStatus>, nat>)
      ensures payload == Payloads.FullStatePayload(rooms) && payload.FullState?
      ensures forall st :: (if st in summary then summary[st] else 0) == |RoomsWith(rooms, st)|
    {
      var ids := ListIds();
      var items: seq<Payloads.RoomJson> := [];
      for i := 0 to |ids|
        invariant items == Payloads.SnapshotsOf(rooms, ids[..i])
      {
        assert ids[..i + 1][..i] == ids[..i];
        items := items + [Payloads.Snapshot(rooms[ids[i]])];
      }
      assert ids[..|ids|] == ids;
      summary := Summarize(items);
      payload := Payloads.FullState(items);
      forall st ensures (if st in summary then summary[st] else 0) == |RoomsWith(rooms, st)| {
        CountsRooms(rooms, st);
      }
    }

    method AppendAudit(entry: Audit)
      modifies this`audit
      ensures audit == Server.AppendAudit(old(audit), entry)
      ensures audit[0] == entry && audit[1..] == old(audit)[..|audit| - 1]
      ensures |audit| == if |old(audit)| < 200 then |old(audit)| + 1 else 200
    {
      audit := [entry] + audit;
      if |audit| > AUDIT_WINDOW {
        audit := audit[..AUDIT_WINDOW];
      }
    }
  }

  class HttpServer {
    const transport: Transport.Service
    const store: StoreObject.Store
    const state: StateStore
    var published: seq<Payloads.Event>

    ghost function State(): ServerState
      reads this, transport, store, state
    {
      ServerState(state.rooms, state.audit, store.State(), transport.State())
    }

    constructor (transport: Transport.Service, store: StoreObject.Store, state: StateStore)
      ensures this.transport == transport && this.store == store && this.state == state && published == []
    {
      this.transport, this.store, this.state := transport, store, state;
      published := [];
    }

    /** appendAudit, then the events: the audit entry, an alert if it calls for one, the room read back. */
    method Announce(entry: Audit)
      modifies state`audit, this`published
      ensures state.audit == Server.AppendAudit(old(state.audit), entry)
      ensures published == old(published) + Announcement(state.rooms, entry)
    {
      state.AppendAudit(entry);
      published := published + [Payloads.AuditEvent(entry)];
      published := published + Payloads.AlertFor(state.rooms, entry);
      published := published + [Payloads.RoomUpdate(Payloads.UpdatePayload(state.rooms, entry.roomId))];
    }

    method Drive(roomId: string, target: Frames.SemanticState, env: Env) returns (ok: bool)
      modifies transport
      ensures (transport.State(), ok) ==
        Transport.Apply(transport.repo, old(transport.State()),
          Transport.Attempt(Transport.Intent(roomId, target), env.slave, env.display))
    {
      ok := transport.ApplyIntent(Transport.Attempt(Transport.Intent(roomId, target), env.slave, env.display));
    }

    method HandleCheckIn(req: Request, env: Env) returns (outcome: Outcome)
      requires req.CheckInRequest?
      modifies transport, store, state, this`published
      ensures (State(), outcome) == Serve(transport.repo, old(State()), req, env)
      ensures published == old(published) + Announced(old(State()), State(), req, env, outcome)
      ensures Identified(old(state.rooms)) && outcome == Accepted ==>
        Identified(state.rooms) && Tells(published[|old(published)|..], State(), req, env)
    {
      var driven := Drive(req.roomId, Frames.Occupied, env);
      if !driven { return TransportError; }
      if req.roomId !in state.rooms { return RoomNotFound; }
      var caseCode := FallbackCase(req.caseCode, req.stayMode);
      var recorded := store.Record(Call(TxnOf(0, req, env), env.healthy));
      if !recorded { return DbWriteFailed; }
      state.ApplyCheckIn(req.roomId, req.stayMode, caseCode, req.stayHours, req.amount, req.paymentRef, env.appliedAt);
      Announce(Audit(RequestIdOrNow(req, env), env.now, req.roomId, "check_in", "cashier", req.stayMode, caseCode,
        req.paymentRef));
      SentTells(transport.repo, old(State()), State(), req, env, published[|old(published)|..]);
      return Accepted;
    }

    method HandleCheckOut(req: Request, env: Env) returns (outcome: Outcome)
      requires req.CheckOutRequest?
      modifies transport, store, state, this`published
      ensures (State(), outcome) == Serve(transport.repo, old(State()), req, env)
      ensures published == old(published) + Announced(old(State()), State(), req, env, outcome)
      ensures Identified(old(state.rooms)) && outcome == Accepted ==>
        Identified(state.rooms) && Tells(published[|old(published)|..], State(), req, env)
    {
      var driven := Drive(req.roomId, Frames.Vacant, env);
      if !driven { return TransportError; }
      var recorded := store.Record(Call(TxnOf(0, req, env), env.healthy));
      if !recorded { return DbWriteFailed; }
      state.ApplyCheckOut(req.roomId, env.appliedAt);
      Announce(Audit(RequestIdOrNow(req, env), env.now, req.roomId, "check_out", "cashier", "", "", ""));
      SentTells(transport.repo, old(State()), State(), req, env, published[|old(published)|..]);
      return Accepted;
    }

    method HandleExtend(req: Request, env: Env) returns (outcome: Outcome)
      requires req.ExtendRequest?
      modifies transport, store, state, this`published
      ensures (State(), outcome) == Serve(transport.repo, old(State()), req, env)
      ensures published == old(published) + Announced(old(State()), State(), req, env, outcome)
      ensures Identified(old(state.rooms)) && outcome == Accepted ==>
        Identified(state.rooms) && Tells(published[|old(published)|..], State(), req, env)
    {
      var driven := Drive(req.roomId, Frames.Occupied, env);
      if !driven { return TransportError; }
      var caseCode := FallbackCase(req.caseCode, req.stayMode);
      var current := CurrentMinutes(state.rooms, req.roomId);
      var recorded := store.Record(Call(TxnOf(current, req, env), env.healthy));
      if !recorded { return DbWriteFailed; }
      state.ApplyExtend(req.roomId, req.stayMode, caseCode, req.extendMinutes, req.amount, req.paymentRef,
        env.appliedAt);
      Announce(Audit(RequestIdOrNow(req, env), env.now, req.roomId, "extend_stay", "cashier", req.stayMode, caseCode,
        req.paymentRef));
      SentTells(transport.repo, old(State()), State(), req, env, published[|old(published)|..]);
      return Accepted;
    }

    method HandlePayment(req: Request, env: Env) returns (outcome: Outcome)
      requires req.PaymentRequest?
      modifies transport, store, state, this`published
      ensures (State(), outcome) == Serve(transport.repo, old(State()), req, env)
      ensures published == old(published) + Announced(old(State()), State(), req, env, outcome)
      ensures Identified(old(state.rooms)) && outcome == Accepted ==>
        Identified(state.rooms) && Tells(published[|old(published)|..], State(), req, env)
    {
      if req.roomId !in state.rooms { return RoomNotFound; }
      var room := state.rooms[req.roomId];
      var recorded := store.Record(Call(TxnOf(0, req, env), env.healthy));
      if !recorded { return DbWriteFailed; }
      state.ApplyPayment(req.roomId, req.amount, req.paidBy, req.paymentRef, env.appliedAt);
      Announce(Audit(RequestIdOrNow(req, env), env.now, req.roomId, "receive_payment", "cashier", room.stayMode,
        room.caseCode, req.paymentRef));
      SentTells(transport.repo, old(State()), State(), req, env, published[|old(published)|..]);
      return Accepted;
    }

    /** open_room and service leave the bus alone. */
    method HandleRoomCommand(req: Request, env: Env) returns (outcome: Outcome)
      requires req.CommandRequest?
      modifies transport, store, state, this`published
      ensures (State(), outcome) == Serve(transport.repo, old(State()), req, env)
      ensures published == old(published) + Announced(old(State()), State(), req, env, outcome)
      ensures Identified(old(state.rooms)) && outcome == Accepted ==>
        Identified(state.rooms) && Tells(published[|old(published)|..], State(), req, env)
    {
      var command := CommandOf(req.action);
      if command.None? { return InvalidAction; }
      if command.value == StartCleaning || command.value == FinishCleaning {
        var driven := Drive(req.roomId, if command.value == StartCleaning then Frames.Cleaning else Frames.Vacant, env);
        if !driven { return TransportError; }
      }
      var recorded := store.Record(Call(TxnOf(0, req, env), env.healthy));
      if !recorded { return DbWriteFailed; }
      state.ApplyCommand(req.roomId, req.action, env.appliedAt);
      var detail :=
        if command.value == OpenRoom || command.value == Service then FallbackDetail(req.reason, req.serviceType)
        else "";
      Announce(Audit(RequestIdOrNow(req, env), env.now, req.roomId, req.action, FallbackActor(req.actor, req.source),
        "", "", detail));
      SentTells(transport.repo, old(State()), State(), req, env, published[|old(published)|..]);
      return Accepted;
    }
  }

  /** A server process that starts on the tables an earlier one left. */
  method Start(repo: Transport.Repository, db: Tables, at: int) returns (server: HttpServer)
    ensures fresh(server) && server.transport.repo == repo
    ensures server.State() == Boot(repo, db, at)
  {
    var store := new StoreObject.Store(db);
    store.SeedRooms(repo, at);
    var transport := new Transport.Service(repo);
    var state := new StateStore(map[], []);
    state.LoadFrom(repo, store.rooms, RecentAudits(store.audits), at);
    assert state.rooms == Boot(repo, db, at).rooms;
    server := new HttpServer(transport, store, state);
  }
}
