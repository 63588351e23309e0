/** The payment columns of a room row against the payment table: two places that record the same thing. */
module LastPayments {
  import opened Core
  import opened Database
  import opened Server
  import opened Mirror
  import Transport

  /** The latest payment of the room. */
  function LatestPayment(payments: seq<Payment>, roomId: string): Option<Payment> {
    if payments == [] then None
    else
      var last := payments[|payments| - 1];
      if last.roomId == roomId then Some(last) else LatestPayment(payments[..|payments| - 1], roomId)
  }

  /** The row shows the amount, the method and the reference of the latest payment, or none of them. */
  predicate Follows(row: RoomRecord, latest: Option<Payment>) {
    match latest
    case None => row.lastPaymentAmount == 0.0 && row.lastPaymentMethod == "" && row.lastPaymentRef == ""
    case Some(p) =>
      && row.lastPaymentAmount == p.amount && row.lastPaymentMethod == p.paidBy && row.lastPaymentRef == p.reference
  }

  ghost predicate RowsFollow(db: Tables) {
    && (forall p :: p in db.payments ==> p.roomId in db.rooms)
    && (forall id :: id in db.rooms ==> Follows(db.rooms[id], LatestPayment(db.payments, id)))
  }

  lemma LatestAppend(payments: seq<Payment>, p: Payment, roomId: string)
    ensures LatestPayment(payments + [p], roomId) ==
      if p.roomId == roomId then Some(p) else LatestPayment(payments, roomId)
  {
    assert (payments + [p])[..|payments|] == payments;
  }

  lemma {:induction false} NoPaymentYet(payments: seq<Payment>, roomId: string)
    requires forall p :: p in payments ==> p.roomId != roomId
    ensures LatestPayment(payments, roomId) == None
  {
    if payments != [] {
      assert payments[|payments| - 1] in payments;
      NoPaymentYet(payments[..|payments| - 1], roomId);
    }
  }

  /** A check-in or extension pays with a reference or does neither. */
  predicate PaysConsistently(t: Txn) {
    t.CheckIn? || t.Extend? ==> PaymentConsistent(t.amount, t.paymentRef)
  }

  predicate Takes(t: Txn) {
    t.Pay? || ((t.CheckIn? || t.Extend?) && t.amount > 0.0)
  }

  /** A transaction that takes money appends a payment its row then shows; any other leaves both as they are. */
  ghost predicate Paid(db: Tables, after: Tables, t: Txn) {
    && after.rooms.Keys == db.rooms.Keys && t.roomId in db.rooms
    && (forall id :: id in db.rooms && id != t.roomId ==> after.rooms[id] == db.rooms[id])
    && (Takes(t) ==>
          |after.payments| == |db.payments| + 1 && after.payments[..|db.payments|] == db.payments &&
          after.payments[|db.payments|].roomId == t.roomId &&
          Follows(after.rooms[t.roomId], Some(after.payments[|db.payments|])))
    && (!Takes(t) ==>
          after.payments == db.payments &&
          after.rooms[t.roomId].lastPaymentAmount == db.rooms[t.roomId].lastPaymentAmount &&
          after.rooms[t.roomId].lastPaymentMethod == db.rooms[t.roomId].lastPaymentMethod &&
          after.rooms[t.roomId].lastPaymentRef == db.rooms[t.roomId].lastPaymentRef)
  }

  lemma CommitPays(db: Tables, t: Txn)
    requires Body(db, t).Ok? && PaysConsistently(t)
    ensures Paid(db, Body(db, t).value, t)
  {
    RowChanges(db, t);
    CommittedPayments(db, t);
  }

  /** One room's row gets one payment more. */
  lemma OnePaymentMore(before: Tables, after: Tables, roomId: string, p: Payment)
    requires RowsFollow(before) && roomId in before.rooms && p.roomId == roomId
    requires after.payments == before.payments + [p] && after.rooms.Keys == before.rooms.Keys
    requires Follows(after.rooms[roomId], Some(p))
    requires forall id :: id in before.rooms && id != roomId ==> after.rooms[id] == before.rooms[id]
    ensures RowsFollow(after)
  {
    forall id | id in after.rooms ensures Follows(after.rooms[id], LatestPayment(after.payments, id)) {
      LatestAppend(before.payments, p, id);
    }
  }

  lemma NoPaymentMore(before: Tables, after: Tables, roomId: string)
    requires RowsFollow(before) && after.payments == before.payments && after.rooms.Keys == before.rooms.Keys
    requires forall id :: id in before.rooms ==>
      && after.rooms[id].lastPaymentAmount == before.rooms[id].lastPaymentAmount
      && after.rooms[id].lastPaymentMethod == before.rooms[id].lastPaymentMethod
      && after.rooms[id].lastPaymentRef == before.rooms[id].lastPaymentRef
    ensures RowsFollow(after)
  {
  }

  lemma PaidFollows(db: Tables, after: Tables, t: Txn)
    requires RowsFollow(db) && Paid(db, after, t)
    ensures RowsFollow(after)
  {
    if Takes(t) {
      assert after.payments == db.payments + [after.payments[|db.payments|]];
      OnePaymentMore(db, after, t.roomId, after.payments[|db.payments|]);
    } else {
      NoPaymentMore(db, after, t.roomId);
    }
  }

  lemma CommitFollows(db: Tables, t: Txn)
    requires RowsFollow(db) && Body(db, t).Ok? && PaysConsistently(t)
    ensures RowsFollow(Body(db, t).value)
  {
    CommitPays(db, t);
    PaidFollows(db, Body(db, t).value, t);
  }

  lemma SeedsFollow(db: Tables, repo: Transport.Repository, at: int)
    requires RowsFollow(db)
    ensures RowsFollow(db.(rooms := Server.SeedRooms(db.rooms, repo, at)))
  {
    forall id | id in repo && id !in db.rooms ensures LatestPayment(db.payments, id) == None {
      NoPaymentYet(db.payments, id);
    }
  }

  lemma RequestPaysConsistently(currentMinutes: int, req: Request, env: Env)
    requires Consistent(req)
    ensures PaysConsistently(TxnOf(currentMinutes, req, env))
  {
  }

  lemma NextFollows(repo: Transport.Repository, s: ServerState, e: Event)
    requires RowsFollow(s.db) && (e.Handle? ==> Consistent(e.req))
    ensures RowsFollow(Server.Next(repo, s, e).db)
  {
    match e
    case Handle(req, env) =>
      var t := TxnOf(CurrentMinutes(s.rooms, req.roomId), req, env);
      ServeIsAtomic(repo, s, req, env);
      RequestPaysConsistently(CurrentMinutes(s.rooms, req.roomId), req, env);
      if Serve(repo, s, req, env).1 == Accepted {
        CommitFollows(s.db, t);
      }
    case Restart(at) => SeedsFollow(s.db, repo, at);
  }

  lemma {:induction false} RunFollows(repo: Transport.Repository, events: seq<Event>)
    requires AllConsistent(events)
    ensures RowsFollow(ServerRun(repo, events).db)
  {
    if events == [] {
      SeedsFollow(Tables(map[], [], [], []), repo, 0);
    } else {
      var n := |events| - 1;
      assert events[n] in events;
      RunFollows(repo, events[..n]);
      NextFollows(repo, ServerRun(repo, events[..n]), events[n]);
    }
  }

  /** After every run of consistent requests and restarts, with any failures: the payment columns of every room, in its
      row and in memory, are the amount, method and reference of the latest payment stored for it, and blank while
      there is none. */
  lemma LastPaymentIsLatest(repo: Transport.Repository, events: seq<Event>, roomId: string)
    requires AllConsistent(events) && roomId in repo
    ensures var s := ServerRun(repo, events); var latest := LatestPayment(s.db.payments, roomId);
      && roomId in s.db.rooms && roomId in s.rooms && Follows(s.db.rooms[roomId], latest)
      && s.rooms[roomId].lastPaymentAmount == (if latest.Some? then latest.value.amount else 0.0)
      && s.rooms[roomId].lastPaymentMethod == (if latest.Some? then latest.value.paidBy else "")
      && s.rooms[roomId].lastPaymentRef == (if latest.Some? then latest.value.reference else "")
  {
    RunFollows(repo, events);
    RunMirrors(repo, events);
  }

  // ----- exactly which check-ins and extensions keep them together -----

  function OneRow(roomId: string, row: RoomRecord, payments: seq<Payment>): Tables {
    Tables(map[roomId := row], [], payments, [])
  }

  /** Tables with one room on which the transaction parts its row from its payments. */
  lemma PartedBy(t: Txn) returns (db: Tables)
    requires (t.CheckIn? || t.Extend?) && !PaymentConsistent(t.amount, t.paymentRef)
    ensures RowsFollow(db) && Body(db, t).Ok? && !RowsFollow(Body(db, t).value)
  {
    var p := Payment("", "", "", t.roomId, 1.0, "cash", "receipt", 0);
    var row := VacantRow(t.roomId, 0);
    if t.amount > 0.0 {
      var paid := row.(lastPaymentAmount := 1.0, lastPaymentMethod := "cash", lastPaymentRef := "receipt");
      db := OneRow(t.roomId, paid, [p]);
      LatestAppend([], p, t.roomId);
      assert [] + [p] == [p];
      PartedByBlankReference(db, t);
    } else {
      db := OneRow(t.roomId, row, []);
      PartedByNoPayment(db, t);
    }
  }

  /** The payment has no reference, and the row keeps one. */
  lemma PartedByBlankReference(db: Tables, t: Txn)
    requires (t.CheckIn? || t.Extend?) && t.amount > 0.0 && t.paymentRef == "" && Body(db, t).Ok?
    requires db.rooms[t.roomId].lastPaymentRef != ""
    ensures !RowsFollow(Body(db, t).value)
  {
    var after := Body(db, t).value;
    RowChanges(db, t);
    CommittedPayments(db, t);
    var q := after.payments[|db.payments|];
    assert after.payments == db.payments + [q];
    LatestAppend(db.payments, q, t.roomId);
  }

  /** There is no payment, and the row shows one. */
  lemma PartedByNoPayment(db: Tables, t: Txn)
    requires (t.CheckIn? || t.Extend?) && t.amount <= 0.0 && (t.amount != 0.0 || t.paymentRef != "") && Body(db, t).Ok?
    requires LatestPayment(db.payments, t.roomId) == None
    ensures !RowsFollow(Body(db, t).value)
  {
    RowChanges(db, t);
    CommittedPayments(db, t);
  }

  /** A check-in or extension keeps every row with its payments, whatever came before, if and only if it pays with a
      reference or does neither. */
  lemma FollowsExactlyWhen(t: Txn)
    requires t.CheckIn? || t.Extend?
    ensures (forall db: Tables :: RowsFollow(db) && Body(db, t).Ok? ==> RowsFollow(Body(db, t).value)) <==>
      PaymentConsistent(t.amount, t.paymentRef)
  {
    if PaymentConsistent(t.amount, t.paymentRef) {
      forall db: Tables | RowsFollow(db) && Body(db, t).Ok? ensures RowsFollow(Body(db, t).value) {
        CommitFollows(db, t);
      }
    } else {
      var db := PartedBy(t);
    }
  }
}
