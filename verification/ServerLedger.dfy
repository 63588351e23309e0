/** The ledger under the server: whatever requests and restarts come, the stored totals hold. */
module ServerLedger {
  import opened Core
  import opened Database
  import opened Ledger
  import opened Server
  import Transport

  /** Amounts of check-ins and extensions are not negative. */
  predicate FairRequest(req: Request) {
    req.CheckInRequest? || req.ExtendRequest? ==> req.amount >= 0.0
  }

  predicate AllFair(events: seq<Event>) {
    forall e :: e in events ==> e.Handle? ==> FairRequest(e.req)
  }

  ghost predicate LedgerOk(db: Tables) {
    Keyed(db) && Conserved(db)
  }

  lemma TxnIsFair(db: Tables, currentMinutes: int, req: Request, env: Env)
    requires FairRequest(req)
    ensures var t := TxnOf(currentMinutes, req, env); t.requestId != "" && Fair(db, t)
  {
  }

  lemma CommitKeepsLedger(db: Tables, t: Txn)
    requires LedgerOk(db) && Body(db, t).Ok? && t.requestId != "" && Fair(db, t)
    ensures LedgerOk(Body(db, t).value)
  {
    CommitAudits(db, t);
    CommitStays(db, t);
    CommitPayments(db, t);
    ConservationStep(db, t);
  }

  lemma ServeKeepsLedger(repo: Transport.Repository, s: ServerState, req: Request, env: Env)
    requires LedgerOk(s.db) && FairRequest(req)
    ensures LedgerOk(Serve(repo, s, req, env).0.db)
  {
    ServeIsAtomic(repo, s, req, env);
    if Serve(repo, s, req, env).1 == Accepted {
      var t := TxnOf(CurrentMinutes(s.rooms, req.roomId), req, env);
      TxnIsFair(s.db, CurrentMinutes(s.rooms, req.roomId), req, env);
      CommitKeepsLedger(s.db, t);
    }
  }

  /** Seeding touches rooms only. */
  lemma SameRows(db: Tables, after: Tables)
    requires LedgerOk(db) && after.stays == db.stays && after.payments == db.payments && after.audits == db.audits
    ensures LedgerOk(after)
  {
    assert AuditIds(after) == AuditIds(db) && StayIds(after) == StayIds(db);
  }

  /** After every run of fair requests and restarts, with any failures of bus or database: every stay's total is the
      sum of its check-in and extend payments, and no request has been committed or paid for twice. */
  lemma {:induction false} ServerConserves(repo: Transport.Repository, events: seq<Event>)
    requires AllFair(events)
    ensures Keyed(ServerRun(repo, events).db) && Conserved(ServerRun(repo, events).db)
  {
    if events != [] {
      var n := |events| - 1;
      var s := ServerRun(repo, events[..n]);
      ServerConserves(repo, events[..n]);
      assert events[n] in events;
      match events[n]
      case Handle(req, env) => ServeKeepsLedger(repo, s, req, env);
      case Restart(at) => SameRows(s.db, Boot(repo, s.db, at).db);
    }
  }
}
