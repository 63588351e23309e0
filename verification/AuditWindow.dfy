/** The server's list of recent audit entries is the newest part of the audit table. */
module AuditWindow {
  import opened Core
  import opened Database
  import opened Server
  import opened Mirror
  import MirrorRuns
  import StringOrder
  import Transport

  predicate CommandAction(action: string) {
    CommandOf(action).Some?
  }

  /** The in-memory entry of a row: the same, but a command's entry may leave stay mode and case blank. */
  predicate EntryOf(entry: Audit, row: Audit) {
    entry == row || (CommandAction(row.action) && entry == row.(stayMode := "", caseCode := ""))
  }

  /** `audit` lists the newest rows, newest first, up to the window. */
  ghost predicate WindowOf(audit: seq<Audit>, rows: seq<Audit>) {
    && |audit| == (if |rows| > AUDIT_WINDOW then AUDIT_WINDOW else |rows|)
    && forall i :: 0 <= i < |audit| ==> EntryOf(audit[i], rows[|rows| - 1 - i])
  }

  ghost predicate Windowed(s: ServerState) {
    WindowOf(s.audit, s.db.audits)
  }

  lemma CommandNames(c: Command)
    ensures CommandOf(c.Name()) == Some(c)
  {
  }

  lemma NameOfCommand(action: string)
    requires CommandOf(action).Some?
    ensures CommandOf(action).value.Name() == action
  {
  }

  /** The audit row a transaction writes. */
  function AuditRow(db: Tables, t: Txn): Audit
    requires Body(db, t).Ok?
  {
    var audits := Body(db, t).value.audits;
    if audits == [] then Audit("", 0, "", "", "", "", "", "") else audits[|audits| - 1]
  }

  lemma RowWritten(db: Tables, t: Txn)
    requires Body(db, t).Ok? && t.roomId in db.rooms
    ensures var row := RowAfter(db.rooms[t.roomId], t);
      AuditRow(db, t) ==
        match t
        case CheckIn(id, room, at, actor, mode, code, _, _, pref) =>
          Audit(id, at, room, "check_in", actor, mode, code, pref)
        case CheckOut(id, room, at, actor) => Audit(id, at, room, "check_out", actor, "", "", "")
        case Extend(id, room, at, actor, mode, code, _, _, pref) =>
          Audit(id, at, room, "extend_stay", actor, mode, code, pref)
        case Pay(id, room, at, actor, _, _, pref) =>
          Audit(id, at, room, "receive_payment", actor, row.stayMode, row.caseCode, pref)
        case Order(id, room, at, actor, c, detail) =>
          Audit(id, at, room, c.Name(), actor, row.stayMode, row.caseCode, detail)
  {
  }

  lemma EntryMatchesRow(s: ServerState, req: Request, env: Env)
    requires Mirrored(s) && Known(req)
    requires Body(s.db, TxnOf(CurrentMinutes(s.rooms, req.roomId), req, env)).Ok?
    ensures EntryOf(AuditOf(s.rooms, req, env), AuditRow(s.db, TxnOf(CurrentMinutes(s.rooms, req.roomId), req, env)))
  {
    var t := TxnOf(CurrentMinutes(s.rooms, req.roomId), req, env);
    CommittedRooms(s.db, t);
    RowWritten(s.db, t);
    if req.CommandRequest? {
      NameOfCommand(req.action);
      CommandNames(t.command);
    }
  }

  lemma AppendWindow(audit: seq<Audit>, rows: seq<Audit>, entry: Audit, after: seq<Audit>)
    requires WindowOf(audit, rows)
    requires |after| == |rows| + 1 && after[..|rows|] == rows && EntryOf(entry, after[|rows|])
    ensures WindowOf(AppendAudit(audit, entry), after)
  {
    var longer := AppendAudit(audit, entry);
    forall i | 0 <= i < |longer| ensures EntryOf(longer[i], after[|after| - 1 - i]) {
      if i > 0 {
        assert longer[i] == audit[i - 1];
        assert after[|rows| - i] == after[..|rows|][|rows| - i];
      }
    }
  }

  lemma AcceptedWindow(s: ServerState, req: Request, env: Env, after: ServerState)
    requires Mirrored(s) && Windowed(s) && Known(req)
    requires var t := TxnOf(CurrentMinutes(s.rooms, req.roomId), req, env);
      Body(s.db, t).Ok? && after.db == Body(s.db, t).value
    requires after.audit == AppendAudit(s.audit, AuditOf(s.rooms, req, env))
    ensures Windowed(after)
  {
    CommittedAudits(s.db, TxnOf(CurrentMinutes(s.rooms, req.roomId), req, env));
    EntryMatchesRow(s, req, env);
    AppendWindow(s.audit, s.db.audits, AuditOf(s.rooms, req, env), after.db.audits);
  }

  lemma ServeWindow(repo: Transport.Repository, s: ServerState, req: Request, env: Env)
    requires Mirrored(s) && Windowed(s)
    ensures Windowed(Serve(repo, s, req, env).0)
  {
    ServeIsAtomic(repo, s, req, env);
    var (after, outcome) := Serve(repo, s, req, env);
    if outcome == Accepted {
      AcceptedWindow(s, req, env, after);
    }
  }

  // ----- restart -----

  /** Each of the newest 200 rows is later than all rows before it: by time, and within a second by id. */
  ghost predicate WindowAscends(rows: seq<Audit>) {
    Ascends(rows, AUDIT_WINDOW)
  }

  /** The same, for the newest `k` rows. */
  ghost predicate Ascends(rows: seq<Audit>, k: int) {
    forall i, j :: 0 <= i < j < |rows| && |rows| - j <= k ==> LaterAudit(rows[j], rows[i])
  }

  ghost predicate DistinctIds(rows: seq<Audit>) {
    forall i, j :: 0 <= i < j < |rows| ==> rows[i].id != rows[j].id
  }

  lemma LaterOrders(a: Audit, b: Audit, c: Audit)
    ensures a.id != b.id ==> (LaterAudit(a, b) <==> !LaterAudit(b, a))
    ensures LaterAudit(a, b) && LaterAudit(b, c) ==> LaterAudit(a, c)
  {
    StringOrder.Trichotomy(a.id, b.id);
    if StringOrder.Less(c.id, b.id) && StringOrder.Less(b.id, a.id) {
      StringOrder.Transitive(c.id, b.id, a.id);
    }
  }

  ghost predicate Newest(sorted: seq<Audit>) {
    forall i, j :: 0 <= i < j < |sorted| ==> LaterAudit(sorted[i], sorted[j])
  }

  lemma {:induction false} InsertByTimeSorts(entry: Audit, sorted: seq<Audit>)
    requires Newest(sorted) && forall a :: a in sorted ==> a.id != entry.id
    ensures Newest(InsertByTime(entry, sorted)) && |InsertByTime(entry, sorted)| == |sorted| + 1
    ensures forall a :: a in InsertByTime(entry, sorted) <==> a in sorted || a == entry
  {
    if sorted != [] {
      assert sorted[0] in sorted && sorted == [sorted[0]] + sorted[1..];
      LaterOrders(entry, sorted[0], sorted[0]);
      if LaterAudit(entry, sorted[0]) {
        forall j | 0 <= j < |sorted| ensures LaterAudit(entry, sorted[j]) {
          LaterOrders(entry, sorted[0], sorted[j]);
        }
      } else {
        InsertByTimeSorts(entry, sorted[1..]);
        FirstOfRest(sorted[0], InsertByTime(entry, sorted[1..]), sorted[1..], entry);
      }
    }
  }

  lemma FirstOfRest(first: Audit, longer: seq<Audit>, rest: seq<Audit>, entry: Audit)
    requires Newest(longer) && LaterAudit(first, entry) && forall a :: a in rest ==> LaterAudit(first, a)
    requires forall a :: a in longer <==> a in rest || a == entry
    ensures Newest([first] + longer)
  {
    assert forall j :: 0 <= j < |longer| ==> longer[j] in longer;
  }

  lemma {:induction false} NewestFirstSorts(rows: seq<Audit>)
    requires DistinctIds(rows)
    ensures Newest(NewestFirst(rows)) && |NewestFirst(rows)| == |rows|
    ensures forall a :: a in NewestFirst(rows) <==> a in rows
  {
    if rows != [] {
      var n := |rows| - 1;
      NewestFirstSorts(rows[..n]);
      assert rows == rows[..n] + [rows[n]];
      InsertByTimeSorts(rows[n], NewestFirst(rows[..n]));
    }
  }

  /** Where the newest `k` rows ascend, the query's order begins with them, last row first. */
  lemma {:induction false} NewestFirstReverses(rows: seq<Audit>, k: nat)
    requires DistinctIds(rows) && k <= |rows| && Ascends(rows, k)
    ensures |NewestFirst(rows)| == |rows|
    ensures forall i :: 0 <= i < k ==> NewestFirst(rows)[i] == rows[|rows| - 1 - i]
  {
    NewestFirstSorts(rows);
    if k > 0 {
      var n := |rows| - 1;
      NewestFirstReverses(rows[..n], k - 1);
      NewestFirstSorts(rows[..n]);
      InsertFirst(rows[n], NewestFirst(rows[..n]), rows[..n]);
    }
  }

  lemma InsertFirst(row: Audit, rest: seq<Audit>, earlier: seq<Audit>)
    requires (forall a :: a in rest ==> a in earlier) && forall a :: a in earlier ==> LaterAudit(row, a)
    ensures InsertByTime(row, rest) == [row] + rest
  {
    if rest != [] {
      assert rest[0] in rest;
    }
  }

  /** Row `i` of the table stands at this place of the query's order. */
  lemma PlaceOf(rows: seq<Audit>, i: nat) returns (q: nat)
    requires DistinctIds(rows) && i < |rows|
    ensures q < |NewestFirst(rows)| == |rows| && NewestFirst(rows)[q] == rows[i]
  {
    NewestFirstSorts(rows);
    assert rows[i] in NewestFirst(rows);
    q :| 0 <= q < |NewestFirst(rows)| && NewestFirst(rows)[q] == rows[i];
  }

  /** Where the query shows the newest rows last row first, they ascend. */
  lemma ShownAscends(rows: seq<Audit>, k: nat)
    requires DistinctIds(rows) && k <= |rows| && |NewestFirst(rows)| == |rows|
    requires forall i :: 0 <= i < k ==> NewestFirst(rows)[i].id == rows[|rows| - 1 - i].id
    ensures Ascends(rows, k)
  {
    NewestFirstSorts(rows);
    forall i, j | 0 <= i < j < |rows| && |rows| - j <= k ensures LaterAudit(rows[j], rows[i]) {
      var p := PlaceOf(rows, j);
      var q := PlaceOf(rows, i);
      PlaceInWindow(rows, k, j, p);
      PlaceInWindow(rows, k, i, q);
    }
  }

  lemma PlaceInWindow(rows: seq<Audit>, k: nat, i: nat, q: nat)
    requires DistinctIds(rows) && k <= |rows| && |NewestFirst(rows)| == |rows| && i < |rows| && q < |rows|
    requires forall m :: 0 <= m < k ==> NewestFirst(rows)[m].id == rows[|rows| - 1 - m].id
    requires NewestFirst(rows)[q] == rows[i] && Newest(NewestFirst(rows))
    ensures if |rows| - i <= k then q == |rows| - 1 - i else q >= k
  {
    var m := |rows| - 1 - i;
    if m < k && q != m {
      NewestFirstSorts(rows);
      assert NewestFirst(rows)[m] in rows;
      SameRow(rows, NewestFirst(rows)[m], rows[i]);
      NeverLaterThanItself(rows[i]);
    }
  }

  lemma SameRow(rows: seq<Audit>, a: Audit, b: Audit)
    requires DistinctIds(rows) && a in rows && b in rows && a.id == b.id
    ensures a == b
  {
  }

  lemma NeverLaterThanItself(a: Audit)
    ensures !LaterAudit(a, a)
  {
    StringOrder.Trichotomy(a.id, a.id);
  }

  lemma RecentAreWindow(rows: seq<Audit>)
    requires DistinctIds(rows) && WindowAscends(rows)
    ensures WindowOf(RecentAudits(rows), rows)
    ensures forall i :: 0 <= i < |RecentAudits(rows)| ==> RecentAudits(rows)[i] == rows[|rows| - 1 - i]
  {
    NewestFirstReverses(rows, if |rows| < AUDIT_WINDOW then |rows| else AUDIT_WINDOW);
  }

  // ----- whole runs -----

  lemma ServeDistinct(repo: Transport.Repository, s: ServerState, req: Request, env: Env)
    requires DistinctIds(s.db.audits)
    ensures DistinctIds(Serve(repo, s, req, env).0.db.audits)
  {
    ServeIsAtomic(repo, s, req, env);
    if Serve(repo, s, req, env).1 == Accepted {
      var t := TxnOf(CurrentMinutes(s.rooms, req.roomId), req, env);
      CommittedAudits(s.db, t);
      OneMoreId(s.db.audits, Body(s.db, t).value.audits);
    }
  }

  lemma OneMoreId(before: seq<Audit>, after: seq<Audit>)
    requires DistinctIds(before) && |after| == |before| + 1 && after[..|before|] == before
    requires forall a :: a in before ==> a.id != after[|before|].id
    ensures DistinctIds(after)
  {
    assert forall i :: 0 <= i < |before| ==> after[i] == before[i] && before[i] in before;
  }

  lemma {:induction false} RunDistinct(repo: Transport.Repository, events: seq<Event>)
    ensures DistinctIds(ServerRun(repo, events).db.audits)
  {
    if events != [] {
      var n := |events| - 1;
      RunDistinct(repo, events[..n]);
      match events[n]
      case Handle(req, env) => ServeDistinct(repo, ServerRun(repo, events[..n]), req, env);
      case Restart(at) =>
    }
  }

  /** Whenever the server restarts, the newest 200 rows ascend. */
  ghost predicate AscendingRestarts(repo: Transport.Repository, events: seq<Event>) {
    events == [] ||
    var before, last := events[..|events| - 1], events[|events| - 1];
    AscendingRestarts(repo, before) && (last.Restart? ==> WindowAscends(ServerRun(repo, before).db.audits))
  }

  lemma {:induction false} RunWindow(repo: Transport.Repository, events: seq<Event>)
    requires AllConsistent(events) && AscendingRestarts(repo, events)
    ensures Windowed(ServerRun(repo, events))
  {
    if events != [] {
      var n := |events| - 1;
      var s := ServerRun(repo, events[..n]);
      RunWindow(repo, events[..n]);
      RunMirrors(repo, events[..n]);
      RunDistinct(repo, events[..n]);
      match events[n]
      case Handle(req, env) => ServeWindow(repo, s, req, env);
      case Restart(at) => RecentAreWindow(s.db.audits);
    }
  }

  /** Two lists are the same, but for the stay mode and case a command's entry may be missing. */
  ghost predicate SameEntries(shown: seq<Audit>, full: seq<Audit>) {
    |shown| == |full| && forall i :: 0 <= i < |shown| ==> EntryOf(shown[i], full[i])
  }

  lemma WindowShowsRecent(audit: seq<Audit>, rows: seq<Audit>)
    requires WindowOf(audit, rows) && DistinctIds(rows)
    ensures SameEntries(audit, RecentAudits(rows)) <==> WindowAscends(rows)
  {
    var k := if |rows| < AUDIT_WINDOW then |rows| else AUDIT_WINDOW;
    NewestFirstSorts(rows);
    if WindowAscends(rows) {
      RecentAreWindow(rows);
    }
    if SameEntries(audit, RecentAudits(rows)) {
      forall i | 0 <= i < k ensures NewestFirst(rows)[i].id == rows[|rows| - 1 - i].id {
        assert EntryOf(audit[i], RecentAudits(rows)[i]) && EntryOf(audit[i], rows[|rows| - 1 - i]);
      }
      ShownAscends(rows, k);
    }
  }

  /** A restart shows the same entries in the same order - a command's entry may gain the stay mode and case its row
      has - if and only if the newest 200 rows ascend: by time, and within a second by id. */
  lemma RestartKeepsAuditWindow(repo: Transport.Repository, events: seq<Event>, at: int)
    requires AllConsistent(events) && AscendingRestarts(repo, events)
    ensures var s := ServerRun(repo, events);
      SameEntries(s.audit, Next(repo, s, Restart(at)).audit) <==> WindowAscends(s.db.audits)
  {
    RunWindow(repo, events);
    RunDistinct(repo, events);
    WindowShowsRecent(ServerRun(repo, events).audit, ServerRun(repo, events).db.audits);
  }

  // ----- when the rows ascend -----

  /** The latest request, as its row would be ordered. */
  function Latest(events: seq<Event>): Option<(int, string)> {
    if events == [] then None
    else
      var last := events[|events| - 1];
      if last.Handle? then Some((last.env.now, RequestIdOrNow(last.req, last.env))) else Latest(events[..|events| - 1])
  }

  predicate After(a: (int, string), b: (int, string)) {
    a.0 > b.0 || (a.0 == b.0 && StringOrder.Less(b.1, a.1))
  }

  /** The clock does not go back between requests, and within a second request ids ascend. */
  predicate ClockAdvances(events: seq<Event>) {
    events == [] ||
    var before, last := events[..|events| - 1], events[|events| - 1];
    && ClockAdvances(before)
    && (last.Handle? && Latest(before).Some? ==>
       After((last.env.now, RequestIdOrNow(last.req, last.env)), Latest(before).value))
  }

  ghost predicate NoneAfter(rows: seq<Audit>, latest: Option<(int, string)>) {
    forall a :: a in rows ==>
      latest.Some? && ((a.timestamp, a.id) == latest.value || After(latest.value, (a.timestamp, a.id)))
  }

  lemma AfterOrders(a: (int, string), b: (int, string), c: (int, string))
    requires After(a, b) && After(b, c)
    ensures After(a, c)
  {
    if StringOrder.Less(c.1, b.1) && StringOrder.Less(b.1, a.1) {
      StringOrder.Transitive(c.1, b.1, a.1);
    }
  }

  lemma OneMoreRow(rows: seq<Audit>, after: seq<Audit>, latest: Option<(int, string)>)
    requires Ascends(rows, |rows|) && NoneAfter(rows, latest) && |after| == |rows| + 1 && after[..|rows|] == rows
    requires var row := after[|rows|]; latest.Some? ==> After((row.timestamp, row.id), latest.value)
    ensures var row := after[|rows|]; Ascends(after, |after|) && NoneAfter(after, Some((row.timestamp, row.id)))
  {
    var row := after[|rows|];
    assert after == rows + [row];
    forall a | a in rows ensures After((row.timestamp, row.id), (a.timestamp, a.id)) {
      if (a.timestamp, a.id) != latest.value {
        AfterOrders((row.timestamp, row.id), latest.value, (a.timestamp, a.id));
      }
    }
    assert forall i :: 0 <= i < |rows| ==> rows[i] in rows;
  }

  lemma NoneAfterLater(rows: seq<Audit>, latest: Option<(int, string)>, next: (int, string))
    requires NoneAfter(rows, latest) && (latest.Some? ==> After(next, latest.value))
    ensures NoneAfter(rows, Some(next))
  {
    forall a | a in rows ensures (a.timestamp, a.id) == next || After(next, (a.timestamp, a.id)) {
      if (a.timestamp, a.id) != latest.value {
        AfterOrders(next, latest.value, (a.timestamp, a.id));
      }
    }
  }

  lemma TxnKeys(currentMinutes: int, req: Request, env: Env)
    ensures TxnOf(currentMinutes, req, env).at == env.now
    ensures TxnOf(currentMinutes, req, env).requestId == RequestIdOrNow(req, env)
  {
  }

  lemma ServeAscends(repo: Transport.Repository, s: ServerState, req: Request, env: Env, latest: Option<(int, string)>)
    requires var rows := s.db.audits; Ascends(rows, |rows|) && NoneAfter(rows, latest)
    requires latest.Some? ==> After((env.now, RequestIdOrNow(req, env)), latest.value)
    ensures var rows := Serve(repo, s, req, env).0.db.audits;
      Ascends(rows, |rows|) && NoneAfter(rows, Some((env.now, RequestIdOrNow(req, env))))
  {
    ServeIsAtomic(repo, s, req, env);
    var t := TxnOf(CurrentMinutes(s.rooms, req.roomId), req, env);
    if Serve(repo, s, req, env).1 == Accepted {
      CommittedAudits(s.db, t);
      TxnKeys(CurrentMinutes(s.rooms, req.roomId), req, env);
      OneMoreRow(s.db.audits, Body(s.db, t).value.audits, latest);
    } else {
      NoneAfterLater(s.db.audits, latest, (env.now, RequestIdOrNow(req, env)));
    }
  }

  /** Under such a clock all rows ascend, so every restart keeps the list. */
  lemma {:induction false} ClockOrdersRows(repo: Transport.Repository, events: seq<Event>)
    requires ClockAdvances(events)
    ensures AscendingRestarts(repo, events)
    ensures var rows := ServerRun(repo, events).db.audits; Ascends(rows, |rows|) && NoneAfter(rows, Latest(events))
  {
    if events != [] {
      var n := |events| - 1;
      ClockOrdersRows(repo, events[..n]);
      match events[n]
      case Handle(req, env) => ServeAscends(repo, ServerRun(repo, events[..n]), req, env, Latest(events[..n]));
      case Restart(at) =>
    }
  }

  // ----- a run whose order a restart reverses -----

  lemma RowAdded(s: ServerState, req: Request)
    requires Serve(MirrorRuns.OneRoom(req.roomId), s, req, Good(true)).1 == Accepted && req.requestId != ""
    ensures var rows := Serve(MirrorRuns.OneRoom(req.roomId), s, req, Good(true)).0.db.audits; var n := |s.db.audits|;
      |rows| == n + 1 && rows[..n] == s.db.audits && rows[n].id == req.requestId && rows[n].timestamp == 0
  {
    var t := TxnOf(CurrentMinutes(s.rooms, req.roomId), req, Good(true));
    ServeIsAtomic(MirrorRuns.OneRoom(req.roomId), s, req, Good(true));
    TxnKeys(CurrentMinutes(s.rooms, req.roomId), req, Good(true));
    CommittedAudits(s.db, t);
  }

  lemma BothRecorded(first: Request, second: Request)
    requires first.CheckOutRequest? && second.CheckOutRequest? && first.roomId == second.roomId
    requires first.requestId != "" && second.requestId != "" && first.requestId != second.requestId
    ensures var rows := ServerRun(MirrorRuns.OneRoom(first.roomId), MirrorRuns.Both(first, second)).db.audits;
      && |rows| == 2 && rows[0].id == first.requestId && rows[1].id == second.requestId
      && rows[0].timestamp == rows[1].timestamp
  {
    var repo, id := MirrorRuns.OneRoom(first.roomId), first.roomId;
    var row := VacantRow(id, 0);
    var s0 := ServerRun(repo, []);
    MirrorRuns.StandsAfterBoot(id);
    MirrorRuns.Accepts(s0, first);
    MirrorRuns.StandsAfter(s0, first, FromRow(id, row), row, {}, {});
    RowAdded(s0, first);
    var s1 := Serve(repo, s0, first, Good(true)).0;
    MirrorRuns.RunOne(repo, [], Handle(first, Good(true)));
    MirrorRuns.RunOne(repo, [] + [Handle(first, Good(true))], Handle(second, Good(true)));
    MirrorRuns.Accepts(s1, second);
    RowAdded(s1, second);
  }

  /** Two check-outs in one second whose ids descend: a restart shows their entries the other way round. */
  lemma SameSecondReorders(roomId: string, at: int)
    ensures var repo := MirrorRuns.OneRoom(roomId);
      var s := ServerRun(repo, MirrorRuns.Both(CheckOutRequest("b", roomId), CheckOutRequest("a", roomId)));
      !SameEntries(s.audit, Next(repo, s, Restart(at)).audit)
  {
    var events := MirrorRuns.Both(CheckOutRequest("b", roomId), CheckOutRequest("a", roomId));
    BothRecorded(CheckOutRequest("b", roomId), CheckOutRequest("a", roomId));
    var rows := ServerRun(MirrorRuns.OneRoom(roomId), events).db.audits;
    assert !LaterAudit(rows[1], rows[0]);
    assert AscendingRestarts(MirrorRuns.OneRoom(roomId), events[..1]);
    RestartKeepsAuditWindow(MirrorRuns.OneRoom(roomId), events, at);
  }
}
