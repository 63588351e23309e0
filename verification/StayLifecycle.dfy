/** The stays of one room behave as a stack of open visits, and a closed visit is never touched again. */
module StayLifecycle {
  import opened Core
  import opened Database
  import opened Ledger
  import StringOrder

  predicate InTime(calls: seq<Call>) {
    forall i, j :: 0 <= i < j < |calls| ==> calls[i].txn.at <= calls[j].txn.at
  }

  /** Calls in time order, and check-ins of one room in the same second in the order of their ids. */
  predicate InOrder(calls: seq<Call>) {
    forall i, j :: 0 <= i < j < |calls| ==>
      && calls[i].txn.at <= calls[j].txn.at
      && (calls[i].txn.CheckIn? && calls[j].txn.CheckIn? && calls[i].txn.roomId == calls[j].txn.roomId ==>
            calls[i].txn.at < calls[j].txn.at || StringOrder.Less(calls[i].txn.requestId, calls[j].txn.requestId))
  }

  /** A stay is open until it has an end; it ends after it began, is cleaned after it ended, and its used
      minutes are the whole minutes between. */
  predicate StayOk(s: Stay) {
    && (s.status == InUse <==> s.guestOut.None?)
    && (s.guestOut.None? ==> s.usedMinutes == 0 && s.cleanUp.None?)
    && (s.guestOut.Some? ==> s.guestIn <= s.guestOut.value && s.usedMinutes == (s.guestOut.value - s.guestIn) / 60)
    && (s.cleanUp.Some? ==> s.guestOut.Some? && s.guestOut.value <= s.cleanUp.value)
  }

  predicate NotAfter(s: Stay, now: int) {
    && s.guestIn <= now
    && (s.guestOut.Some? ==> s.guestOut.value <= now)
    && (s.cleanUp.Some? ==> s.cleanUp.value <= now)
  }

  /** Every stay is well formed, and recorded by `now`. */
  ghost predicate Past(db: Tables, now: int) {
    forall s :: s in db.stays ==> StayOk(s) && NotAfter(s, now)
  }

  ghost predicate Timely(db: Tables, now: int) {
    Past(db, now) && InRoomOrder(db.stays)
  }

  /** The stays of a room stand in the order the query compares them by. */
  ghost predicate InRoomOrder(stays: seq<Stay>) {
    forall i, j :: 0 <= i < j < |stays| && stays[i].roomId == stays[j].roomId ==> LaterIn(stays[j], stays[i])
  }

  /** The call may come next: it is not before anything recorded, and a check-in is after all of its room's. */
  ghost predicate MayFollow(db: Tables, now: int, t: Txn) {
    && now <= t.at
    && (t.CheckIn? ==> forall s :: s in db.stays && s.roomId == t.roomId ==> LaterIn(NewStay(t), s))
  }

  lemma PastLater(db: Tables, now: int, later: int)
    requires Past(db, now) && now <= later
    ensures Past(db, later)
  {
  }

  lemma RewritePast(db: Tables, now: int, i: nat, s: Stay, after: Tables)
    requires Past(db, now) && i < |db.stays| && after.stays == db.stays[i := s] && StayOk(s) && NotAfter(s, now)
    ensures Past(after, now)
  {
    forall x | x in after.stays ensures StayOk(x) && NotAfter(x, now) {
      var k :| 0 <= k < |after.stays| && after.stays[k] == x;
      assert k == i || db.stays[k] in db.stays;
    }
  }

  lemma CommitPast(db: Tables, now: int, t: Txn)
    requires Past(db, now) && now <= t.at && Body(db, t).Ok?
    ensures Past(Body(db, t).value, t.at)
  {
    PastLater(db, now, t.at);
    CommittedStays(db, t);
    var after := Body(db, t).value;
    if !t.CheckIn? {
      CommitRewrites(db, t);
      var r := FoundStay(db, t);
      if r.Some? {
        assert db.stays[r.value] in db.stays;
        RewritePast(db, t.at, r.value, after.stays[r.value], after);
      }
    }
  }

  lemma TimelyLater(db: Tables, now: int, later: int)
    requires Timely(db, now) && now <= later
    ensures Timely(db, later)
  {
  }

  lemma OrderOfKeys(before: seq<Stay>, after: seq<Stay>)
    requires InRoomOrder(before) && |after| == |before|
    requires forall i :: 0 <= i < |after| ==>
      after[i].stayId == before[i].stayId && after[i].roomId == before[i].roomId &&
      after[i].guestIn == before[i].guestIn
    ensures InRoomOrder(after)
  {
  }

  lemma OrderWithOneMore(stays: seq<Stay>, s: Stay)
    requires InRoomOrder(stays) && forall x :: x in stays && x.roomId == s.roomId ==> LaterIn(s, x)
    ensures InRoomOrder(stays + [s])
  {
    assert forall i :: 0 <= i < |stays| ==> stays[i] in stays;
  }

  /** A commit keeps the order of a room's stays. */
  lemma CommitTimely(db: Tables, now: int, t: Txn)
    requires Timely(db, now) && MayFollow(db, now, t) && Body(db, t).Ok?
    ensures Timely(Body(db, t).value, t.at)
  {
    CommitPast(db, now, t);
    if t.CheckIn? {
      CommittedStays(db, t);
      OrderWithOneMore(db.stays, NewStay(t));
    } else {
      KeysKept(db, t);
      OrderOfKeys(db.stays, Body(db, t).value.stays);
    }
  }

  lemma KeysKept(db: Tables, t: Txn)
    requires Body(db, t).Ok? && !t.CheckIn?
    ensures var after := Body(db, t).value.stays;
      |after| == |db.stays| && forall i :: 0 <= i < |after| ==>
        after[i].stayId == db.stays[i].stayId && after[i].roomId == db.stays[i].roomId &&
        after[i].guestIn == db.stays[i].guestIn
  {
    StayChanges(db, t);
  }

  // ----- the stack -----

  /** Ids of the open stays of the room, oldest first. */
  function OpenStays(stays: seq<Stay>, roomId: string): seq<string> {
    if stays == [] then []
    else
      var last := stays[|stays| - 1];
      OpenStays(stays[..|stays| - 1], roomId) + if IsActive(last, roomId) then [last.stayId] else []
  }

  lemma OpenAppend(stays: seq<Stay>, s: Stay, roomId: string)
    ensures OpenStays(stays + [s], roomId) == OpenStays(stays, roomId) + if IsActive(s, roomId) then [s.stayId] else []
  {
    assert (stays + [s])[..|stays|] == stays;
  }

  predicate DistinctIds(stays: seq<Stay>) {
    forall i, j :: 0 <= i < j < |stays| ==> stays[i].stayId != stays[j].stayId
  }

  lemma LaterInOrders(a: Stay, b: Stay, c: Stay)
    ensures a.stayId != b.stayId ==> (LaterIn(a, b) <==> !LaterIn(b, a))
    ensures LaterIn(a, b) && LaterIn(b, c) ==> LaterIn(a, c)
  {
    StringOrder.Trichotomy(a.stayId, b.stayId);
    if StringOrder.Less(c.stayId, b.stayId) && StringOrder.Less(b.stayId, a.stayId) {
      StringOrder.Transitive(c.stayId, b.stayId, a.stayId);
    }
  }

  /** The query finds the greatest open stay of the room, by guest-in and then by id. */
  lemma {:induction false} ActiveIsLatest(stays: seq<Stay>, roomId: string, i: nat)
    requires DistinctIds(stays) && i < |stays| && IsActive(stays[i], roomId)
    ensures var r := ActiveIndex(stays, roomId); r.Some? && (i != r.value ==> LaterIn(stays[r.value], stays[i]))
  {
    var n := |stays| - 1;
    var best := ActiveIndex(stays[..n], roomId);
    if i < n {
      ActiveIsLatest(stays[..n], roomId, i);
      LaterInOrders(stays[n], stays[best.value], stays[i]);
    } else if best.Some? {
      LaterInOrders(stays[n], stays[best.value], stays[i]);
    }
  }

  predicate IsTop(stays: seq<Stay>, roomId: string, i: nat)
    requires i < |stays|
  {
    IsActive(stays[i], roomId) && forall m :: i < m < |stays| ==> !IsActive(stays[m], roomId)
  }

  /** The room's most recent open check-in is later, by guest-in and then by id, than all its other open stays. */
  ghost predicate TopIsLatest(stays: seq<Stay>, roomId: string) {
    forall top, i ::
      0 <= top < |stays| && IsTop(stays, roomId, top) && 0 <= i < |stays| && i != top && IsActive(stays[i], roomId) ==>
      LaterIn(stays[top], stays[i])
  }

  /** The latest row of the room that is open. */
  function Top(stays: seq<Stay>, roomId: string): (r: Option<nat>)
    ensures r.Some? ==> r.value < |stays| && IsTop(stays, roomId, r.value)
    ensures r.None? ==> forall i :: 0 <= i < |stays| ==> !IsActive(stays[i], roomId)
  {
    if stays == [] then None
    else if IsActive(stays[|stays| - 1], roomId) then Some(|stays| - 1)
    else Top(stays[..|stays| - 1], roomId)
  }

  /** A check-out, extension or payment works on the one open stay of the room that came in last - of those of one
      second the one with the greatest id - unless that has no id. */
  lemma FindsActiveExactlyWhen(db: Tables, roomId: string, i: nat)
    requires DistinctIds(db.stays) && i < |db.stays|
    ensures FindActiveStay(db, roomId) == Some(i) <==>
      && db.stays[i].roomId == roomId && db.stays[i].status == InUse && db.stays[i].stayId != ""
      && forall j :: 0 <= j < |db.stays| && j != i && db.stays[j].roomId == roomId && db.stays[j].status == InUse ==>
         db.stays[j].guestIn < db.stays[i].guestIn ||
         (db.stays[j].guestIn == db.stays[i].guestIn && StringOrder.Less(db.stays[j].stayId, db.stays[i].stayId))
  {
    forall j | 0 <= j < |db.stays| && IsActive(db.stays[j], roomId)
      ensures var r := ActiveIndex(db.stays, roomId);
        r.Some? && (j == r.value || LaterIn(db.stays[r.value], db.stays[j]))
    {
      ActiveIsLatest(db.stays, roomId, j);
    }
    var r := ActiveIndex(db.stays, roomId);
    if r.Some? && r.value != i && IsActive(db.stays[i], roomId) {
      LaterInOrders(db.stays[r.value], db.stays[i], db.stays[i]);
    }
  }

  /** The query finds the room's most recent open check-in if and only if that is later than its other open stays. */
  lemma FindsTopExactlyWhen(stays: seq<Stay>, roomId: string)
    requires DistinctIds(stays)
    ensures ActiveIndex(stays, roomId) == Top(stays, roomId) <==> TopIsLatest(stays, roomId)
  {
    var r, top := ActiveIndex(stays, roomId), Top(stays, roomId);
    if top.Some? {
      ActiveIsLatest(stays, roomId, top.value);
      if r == top {
        forall t, i | 0 <= t < |stays| && IsTop(stays, roomId, t) && 0 <= i < |stays| && i != t &&
          IsActive(stays[i], roomId)
          ensures LaterIn(stays[t], stays[i])
        {
          ActiveIsLatest(stays, roomId, i);
        }
      } else {
        LaterInOrders(stays[r.value], stays[top.value], stays[top.value]);
      }
    }
  }

  /** The open stays are those before the top, and the top. */
  lemma {:induction false} OpenIsTopped(stays: seq<Stay>, roomId: string)
    ensures match Top(stays, roomId)
      case None => OpenStays(stays, roomId) == []
      case Some(top) => OpenStays(stays, roomId) == OpenStays(stays[..top], roomId) + [stays[top].stayId]
  {
    if stays != [] {
      var n := |stays| - 1;
      OpenIsTopped(stays[..n], roomId);
      var top := Top(stays, roomId);
      if top.Some? && top.value < n {
        assert stays[..n][..top.value] == stays[..top.value];
      }
    }
  }

  lemma {:induction false} OpenMembers(stays: seq<Stay>, roomId: string, id: string)
    ensures id in OpenStays(stays, roomId) <==>
      exists i :: 0 <= i < |stays| && IsActive(stays[i], roomId) && stays[i].stayId == id
  {
    if stays != [] {
      var n := |stays| - 1;
      OpenMembers(stays[..n], roomId, id);
      assert forall i :: 0 <= i < n ==> stays[..n][i] == stays[i];
    }
  }

  lemma {:induction false} ReplaceKeeps(stays: seq<Stay>, i: nat, s: Stay, roomId: string)
    requires i < |stays| && s.stayId == stays[i].stayId && IsActive(s, roomId) == IsActive(stays[i], roomId)
    ensures OpenStays(stays[i := s], roomId) == OpenStays(stays, roomId)
  {
    var n := |stays| - 1;
    if i == n {
      assert stays[i := s][..n] == stays[..n];
    } else {
      ReplaceKeeps(stays[..n], i, s, roomId);
      assert stays[i := s][..n] == stays[..n][i := s];
    }
  }

  lemma {:induction false} ClosePops(stays: seq<Stay>, i: nat, s: Stay, roomId: string)
    requires i < |stays| && IsActive(stays[i], roomId) && !IsActive(s, roomId)
    requires forall j :: i < j < |stays| ==> !IsActive(stays[j], roomId)
    ensures var open := OpenStays(stays, roomId); open != [] && OpenStays(stays[i := s], roomId) == open[..|open| - 1]
  {
    var n := |stays| - 1;
    if i == n {
      assert stays[i := s][..n] == stays[..n];
    } else {
      ClosePops(stays[..n], i, s, roomId);
      assert stays[i := s][..n] == stays[..n][i := s];
    }
  }

  /** What a committed transaction does to the stack of a room. */
  function Stacked(stack: seq<string>, roomId: string, t: Txn): seq<string> {
    if t.roomId != roomId then stack
    else if t.CheckIn? then stack + [t.requestId]
    else if t.CheckOut? && stack != [] then stack[..|stack| - 1]
    else stack
  }

  lemma FindsActive(db: Tables, roomId: string)
    requires Keyed(db)
    ensures DistinctIds(db.stays) && FindActiveStay(db, roomId) == ActiveIndex(db.stays, roomId)
  {
    var r := ActiveIndex(db.stays, roomId);
    if r.Some? {
      assert db.stays[r.value] in db.stays;
    }
  }

  /** Closing any open stay but the top leaves the top's id open; the stack discipline would have taken it. */
  lemma CloseBelowTop(stays: seq<Stay>, i: nat, s: Stay, roomId: string)
    requires DistinctIds(stays) && i < |stays| && s.stayId == stays[i].stayId
    requires Top(stays, roomId).Some? && Top(stays, roomId).value != i
    ensures var open := OpenStays(stays, roomId); open != [] && OpenStays(stays[i := s], roomId) != open[..|open| - 1]
  {
    var top := Top(stays, roomId).value;
    var open, after := OpenStays(stays, roomId), stays[i := s];
    OpenIsTopped(stays, roomId);
    assert open[..|open| - 1] == OpenStays(stays[..top], roomId);
    OpenMembers(stays[..top], roomId, stays[top].stayId);
    OpenMembers(after, roomId, stays[top].stayId);
    assert after[top] == stays[top];
  }

  /** One commit does to a room's open stays what it does to the stack, if and only if it is not a check-out of the
      room or the room's most recent open check-in is its latest open stay. */
  lemma CommitStacks(db: Tables, t: Txn, roomId: string)
    requires Keyed(db) && Body(db, t).Ok?
    ensures OpenStays(Body(db, t).value.stays, roomId) == Stacked(OpenStays(db.stays, roomId), roomId, t) <==>
      (t.CheckOut? && t.roomId == roomId ==> TopIsLatest(db.stays, roomId))
  {
    CommittedStays(db, t);
    var after := Body(db, t).value;
    if t.CheckIn? {
      OpenAppend(db.stays, NewStay(t), roomId);
    } else {
      CommitRewrites(db, t);
      FindsActive(db, t.roomId);
      FindsTopExactlyWhen(db.stays, roomId);
      OpenIsTopped(db.stays, roomId);
      var r := FoundStay(db, t);
      if r.Some? {
        CheckOutStacks(db, t, after, r.value, roomId);
      }
    }
  }

  lemma CheckOutStacks(db: Tables, t: Txn, after: Tables, r: nat, roomId: string)
    requires DistinctIds(db.stays) && Body(db, t) == Ok(after) && !t.CheckIn? && FoundStay(db, t) == Some(r)
    requires FindActiveStay(db, t.roomId) == ActiveIndex(db.stays, t.roomId)
    ensures OpenStays(after.stays, roomId) == Stacked(OpenStays(db.stays, roomId), roomId, t) <==>
      (t.CheckOut? && t.roomId == roomId ==> ActiveIndex(db.stays, roomId) == Top(db.stays, roomId))
  {
    CommittedStays(db, t);
    CommitRewrites(db, t);
    OpenIsTopped(db.stays, roomId);
    if t.CheckOut? && t.roomId == roomId {
      if Top(db.stays, roomId) == Some(r) {
        ClosePops(db.stays, r, after.stays[r], roomId);
      } else {
        CloseBelowTop(db.stays, r, after.stays[r], roomId);
      }
    } else {
      ReplaceKeeps(db.stays, r, after.stays[r], roomId);
    }
  }

  /** A closed stay keeps its key, its times and its used minutes; a clean-up time, once set, too. */
  predicate Persists(before: Stay, after: Stay) {
    && after.stayId == before.stayId && after.roomId == before.roomId && after.guestIn == before.guestIn
    && (before.guestOut.Some? ==>
          after.guestOut == before.guestOut && after.usedMinutes == before.usedMinutes &&
          after.status == before.status &&
          after.paymentAmount == before.paymentAmount)
    && (before.cleanUp.Some? ==> after.cleanUp == before.cleanUp)
  }

  /** A stay in use has no end, and one with an end is not in use. */
  ghost predicate OpenMeansNoEnd(db: Tables) {
    forall i :: 0 <= i < |db.stays| ==> (db.stays[i].status == InUse <==> db.stays[i].guestOut.None?)
  }

  lemma CommitPersists(db: Tables, t: Txn, i: nat)
    requires OpenMeansNoEnd(db) && Body(db, t).Ok? && i < |db.stays|
    ensures i < |Body(db, t).value.stays| && Persists(db.stays[i], Body(db, t).value.stays[i])
  {
    StayChanges(db, t);
    if !(t.CheckOut? && Some(i) == FindActiveStay(db, t.roomId)) {
      UsedKept(db, t, i);
    }
    if Some(i) != FoundStay(db, t) {
      assert Body(db, t).value.stays[i] == db.stays[i];
    }
  }

  /** Only ending a stay sets its used minutes. */
  lemma UsedKept(db: Tables, t: Txn, i: nat)
    requires Body(db, t).Ok? && i < |db.stays| && (t.CheckOut? ==> Some(i) != FindActiveStay(db, t.roomId))
    ensures i < |Body(db, t).value.stays| && Body(db, t).value.stays[i].usedMinutes == db.stays[i].usedMinutes
  {
    CommittedStays(db, t);
  }

  lemma CommitOpenMeansNoEnd(db: Tables, t: Txn)
    requires OpenMeansNoEnd(db) && Body(db, t).Ok?
    ensures OpenMeansNoEnd(Body(db, t).value)
  {
    StayChanges(db, t);
  }

  lemma {:induction false} RunOpenMeansNoEnd(db: Tables, calls: seq<Call>)
    requires Seeded(db)
    ensures OpenMeansNoEnd(Run(db, calls))
  {
    if calls != [] {
      var before := Run(db, calls[..|calls| - 1]);
      RunOpenMeansNoEnd(db, calls[..|calls| - 1]);
      if Commits(before, calls[|calls| - 1]) {
        CommitOpenMeansNoEnd(before, calls[|calls| - 1].txn);
      }
    }
  }

  // ----- whole runs -----

  function LastTime(calls: seq<Call>): int
    requires calls != []
  {
    calls[|calls| - 1].txn.at
  }

  /** The stay was opened by a check-in call of its room, at that time and under that id. */
  ghost predicate OpenedBy(calls: seq<Call>, s: Stay) {
    exists i | 0 <= i < |calls| ::
      calls[i].txn.CheckIn? && calls[i].txn.roomId == s.roomId && calls[i].txn.at == s.guestIn &&
      calls[i].txn.requestId == s.stayId
  }

  ghost predicate Opened(db: Tables, calls: seq<Call>) {
    forall s :: s in db.stays ==> OpenedBy(calls, s)
  }

  lemma OpenedLonger(db: Tables, calls: seq<Call>, call: Call)
    requires Opened(db, calls)
    ensures Opened(db, calls + [call])
  {
    forall s | s in db.stays ensures OpenedBy(calls + [call], s) {
      OpenedByLonger(calls, call, s);
    }
  }

  lemma OpenedByLonger(calls: seq<Call>, call: Call, s: Stay)
    requires OpenedBy(calls, s)
    ensures OpenedBy(calls + [call], s)
  {
    var i :| 0 <= i < |calls| && calls[i].txn.CheckIn? && calls[i].txn.roomId == s.roomId &&
      calls[i].txn.at == s.guestIn &&
      calls[i].txn.requestId == s.stayId;
    assert (calls + [call])[i] == calls[i];
  }

  /** A commit adds at most one stay, and keeps the room, id and beginning of the others. */
  lemma CommitOrigins(db: Tables, t: Txn, s: Stay)
    requires Body(db, t).Ok? && s in Body(db, t).value.stays
    ensures (t.CheckIn? && s == NewStay(t)) ||
      exists b :: b in db.stays && b.roomId == s.roomId && b.guestIn == s.guestIn && b.stayId == s.stayId
  {
    CommittedStays(db, t);
    var k :| 0 <= k < |Body(db, t).value.stays| && Body(db, t).value.stays[k] == s;
    if k < |db.stays| {
      assert db.stays[k] in db.stays;
    }
  }

  lemma CommitOpened(db: Tables, calls: seq<Call>, call: Call)
    requires Opened(db, calls) && Body(db, call.txn).Ok?
    ensures Opened(Body(db, call.txn).value, calls + [call])
  {
    var t := call.txn;
    OpenedLonger(db, calls, call);
    assert (calls + [call])[|calls|] == call;
    forall s | s in Body(db, t).value.stays ensures OpenedBy(calls + [call], s) {
      CommitOrigins(db, t, s);
    }
  }

  lemma OrderGivesMayFollow(db: Tables, calls: seq<Call>, call: Call, now: int)
    requires InOrder(calls + [call]) && Opened(db, calls)
    requires calls == [] ==> now == call.txn.at
    requires calls != [] ==> now == LastTime(calls)
    ensures MayFollow(db, now, call.txn)
  {
    var all := calls + [call];
    forall s | s in db.stays && call.txn.CheckIn? && s.roomId == call.txn.roomId ensures LaterIn(NewStay(call.txn), s) {
      var i :| 0 <= i < |calls| && calls[i].txn.CheckIn? && calls[i].txn.roomId == s.roomId &&
        calls[i].txn.at == s.guestIn &&
        calls[i].txn.requestId == s.stayId;
      assert all[i] == calls[i] && all[|calls|] == call;
    }
    if calls != [] {
      assert all[|calls| - 1] == calls[|calls| - 1] && all[|calls|] == call;
    }
  }

  lemma {:induction false} RunTimely(db: Tables, calls: seq<Call>)
    requires Seeded(db) && InOrder(calls)
    ensures Opened(Run(db, calls), calls)
    ensures calls != [] ==> Timely(Run(db, calls), LastTime(calls))
  {
    if calls != [] {
      var n := |calls| - 1;
      var before := Run(db, calls[..n]);
      RunTimely(db, calls[..n]);
      assert calls == calls[..n] + [calls[n]];
      var now := if n == 0 then calls[n].txn.at else LastTime(calls[..n]);
      OrderGivesMayFollow(before, calls[..n], calls[n], now);
      if Commits(before, calls[n]) {
        CommitTimely(before, now, calls[n].txn);
        CommitOpened(before, calls[..n], calls[n]);
      } else {
        TimelyLater(before, now, calls[n].txn.at);
        OpenedLonger(before, calls[..n], calls[n]);
      }
    }
  }

  /** The stack of open visits the committed calls build. */
  function Stack(db: Tables, calls: seq<Call>, roomId: string): seq<string> {
    if calls == [] then []
    else
      var before, last := calls[..|calls| - 1], calls[|calls| - 1];
      if Commits(Run(db, before), last) then Stacked(Stack(db, before, roomId), roomId, last.txn)
      else Stack(db, before, roomId)
  }

  lemma PrefixInOrder(calls: seq<Call>, n: nat)
    requires InOrder(calls) && Named(calls) && n <= |calls|
    ensures InOrder(calls[..n]) && Named(calls[..n])
  {
  }

  /** Whenever a check-out of the room commits, the room's most recent open check-in is its latest open stay. */
  ghost predicate ChecksOutLatest(db: Tables, calls: seq<Call>, roomId: string) {
    calls == [] ||
    var before, last := calls[..|calls| - 1], calls[|calls| - 1];
    && ChecksOutLatest(db, before, roomId)
    && (last.txn.CheckOut? && last.txn.roomId == roomId && Commits(Run(db, before), last) ==>
       TopIsLatest(Run(db, before).stays, roomId))
  }

  /** The open stays have been the stack after every call. */
  ghost predicate AlwaysStack(db: Tables, calls: seq<Call>, roomId: string) {
    OpenStays(Run(db, calls).stays, roomId) == Stack(db, calls, roomId) &&
    (calls == [] || AlwaysStack(db, calls[..|calls| - 1], roomId))
  }

  /** After every call the open stays of a room are exactly the stack its committed check-ins and check-outs build -
      each check-out has closed the most recent open check-in - if and only if each found that to be the latest open
      stay by guest-in and then by id. */
  lemma {:induction false} StackExactlyWhen(db: Tables, calls: seq<Call>, roomId: string)
    requires Seeded(db) && Named(calls)
    ensures AlwaysStack(db, calls, roomId) <==> ChecksOutLatest(db, calls, roomId)
  {
    if calls != [] {
      var n := |calls| - 1;
      var before := Run(db, calls[..n]);
      StackExactlyWhen(db, calls[..n], roomId);
      RunKeyed(db, calls[..n]);
      if Commits(before, calls[n]) {
        CommitStacks(before, calls[n].txn, roomId);
      }
    }
  }

  lemma OpenStaysAreStack(db: Tables, calls: seq<Call>, roomId: string)
    requires Seeded(db) && Named(calls) && ChecksOutLatest(db, calls, roomId)
    ensures OpenStays(Run(db, calls).stays, roomId) == Stack(db, calls, roomId)
  {
    StackExactlyWhen(db, calls, roomId);
  }

  /** Calls in order check out the latest. */
  lemma {:induction false} OrderChecksOutLatest(db: Tables, calls: seq<Call>, roomId: string)
    requires Seeded(db) && InOrder(calls) && Named(calls)
    ensures ChecksOutLatest(db, calls, roomId)
  {
    if calls != [] {
      var n := |calls| - 1;
      PrefixInOrder(calls, n);
      OrderChecksOutLatest(db, calls[..n], roomId);
      RunTimely(db, calls[..n]);
    }
  }

  lemma {:induction false} RunPast(db: Tables, calls: seq<Call>)
    requires Seeded(db) && InTime(calls)
    ensures calls == [] ==> Run(db, calls).stays == []
    ensures calls != [] ==> Past(Run(db, calls), LastTime(calls))
  {
    if calls != [] {
      var n := |calls| - 1;
      var before := Run(db, calls[..n]);
      RunPast(db, calls[..n]);
      var now := if n == 0 then calls[n].txn.at else LastTime(calls[..n]);
      if Commits(before, calls[n]) {
        CommitPast(before, now, calls[n].txn);
      } else {
        PastLater(before, now, calls[n].txn.at);
      }
    }
  }

  /** Every stay of every run whose clock does not go back is well formed. */
  lemma StaysAreOk(db: Tables, calls: seq<Call>, s: Stay)
    requires Seeded(db) && InTime(calls) && s in Run(db, calls).stays
    ensures StayOk(s)
  {
    RunPast(db, calls);
  }

  lemma PersistsOn(a: Stay, b: Stay, c: Stay)
    requires Persists(a, b) && Persists(b, c)
    ensures Persists(a, c)
  {
  }

  lemma LastCallPersists(db: Tables, calls: seq<Call>, i: nat)
    requires Seeded(db) && calls != [] && i < |Run(db, calls[..|calls| - 1]).stays|
    ensures i < |Run(db, calls).stays| && Persists(Run(db, calls[..|calls| - 1]).stays[i], Run(db, calls).stays[i])
  {
    var m := |calls| - 1;
    RunOpenMeansNoEnd(db, calls[..m]);
    if Commits(Run(db, calls[..m]), calls[m]) {
      CommitPersists(Run(db, calls[..m]), calls[m].txn, i);
    }
  }

  /** What a stay has recorded at some point of a run it still has at the end, whatever the calls and their times. */
  lemma {:induction false} ClosedForEver(db: Tables, calls: seq<Call>, n: nat, i: nat)
    requires Seeded(db) && n <= |calls| && i < |Run(db, calls[..n]).stays|
    ensures i < |Run(db, calls).stays| && Persists(Run(db, calls[..n]).stays[i], Run(db, calls).stays[i])
    decreases |calls|
  {
    if n == |calls| {
      assert calls[..n] == calls;
    } else {
      var m := |calls| - 1;
      assert calls[..m][..n] == calls[..n];
      ClosedForEver(db, calls[..m], n, i);
      LastCallPersists(db, calls, i);
      PersistsOn(Run(db, calls[..n]).stays[i], Run(db, calls[..m]).stays[i], Run(db, calls).stays[i]);
    }
  }

  lemma LaterOutOrders(a: Stay, b: Stay, c: Stay)
    requires a.guestOut.Some? && b.guestOut.Some? && c.guestOut.Some?
    ensures LaterOut(a, b) && !LaterOut(c, b) ==> !LaterOut(c, a)
    ensures !LaterOut(a, a)
  {
    StringOrder.Trichotomy(a.stayId, a.stayId);
    StringOrder.Trichotomy(a.stayId, b.stayId);
    StringOrder.Trichotomy(b.stayId, c.stayId);
    StringOrder.Trichotomy(c.stayId, a.stayId);
    if LaterOut(a, b) && LaterOut(c, a) && c.guestOut == a.guestOut == b.guestOut {
      StringOrder.Transitive(b.stayId, a.stayId, c.stayId);
    }
  }

  /** finish_cleaning marks the stay of the room that ended last, and of those that ended in one second the one with
      the greatest id. */
  lemma {:induction false} CleaningMarksLatest(stays: seq<Stay>, roomId: string, j: nat)
    requires j < |stays| && IsClosed(stays[j], roomId)
    ensures var r := ClosedIndex(stays, roomId);
      && r.Some? && IsClosed(stays[r.value], roomId)
      && var out, best := stays[j].guestOut.value, stays[r.value].guestOut.value;
         out < best || (out == best && !StringOrder.Less(stays[r.value].stayId, stays[j].stayId))
  {
    var n := |stays| - 1;
    var best := ClosedIndex(stays[..n], roomId);
    if j < n {
      CleaningMarksLatest(stays[..n], roomId, j);
      if IsClosed(stays[n], roomId) {
        LaterOutOrders(stays[n], stays[best.value], stays[j]);
      }
    } else {
      StringOrder.Trichotomy(stays[n].stayId, stays[n].stayId);
      if best.Some? {
        assert IsClosed(stays[best.value], roomId);
        StringOrder.Trichotomy(stays[n].stayId, stays[best.value].stayId);
      }
    }
  }

  // ----- a run whose check-ins share a second -----

  function ArriveAt(id: string, roomId: string, at: int): Call {
    Call(CheckIn(id, roomId, at, "cashier", "overnight", "overnight", 720, 0.0, ""), true)
  }

  function LeaveAt(id: string, roomId: string, at: int): Call {
    Call(CheckOut(id, roomId, at, "cashier"), true)
  }

  /** Two open stays of one second: the query takes the one with the greater id, whichever came last. */
  lemma SameSecondGoesById(a: Stay, b: Stay, roomId: string)
    requires IsActive(a, roomId) && IsActive(b, roomId) && a.guestIn == b.guestIn &&
      StringOrder.Less(a.stayId, b.stayId)
    ensures ActiveIndex([b, a], roomId) == Some(0) && OpenStays([b, a], roomId) == [b.stayId, a.stayId]
    ensures ActiveIndex([a, b], roomId) == Some(1) && OpenStays([a, b], roomId) == [a.stayId, b.stayId]
  {
    StringOrder.Trichotomy(a.stayId, b.stayId);
    assert [a, b][..1] == [a] && [b, a][..1] == [b] && [a][..0] == [] && [b][..0] == [];
    assert ActiveIndex([a], roomId) == Some(0) && ActiveIndex([b], roomId) == Some(0);
    assert OpenStays([a], roomId) == [a.stayId] && OpenStays([b], roomId) == [b.stayId];
  }

  lemma Arrives(db: Tables, id: string, roomId: string, at: int)
    requires Keyed(db) && db.payments == [] && roomId in db.rooms && id != "" && id !in AuditIds(db)
    ensures var call := ArriveAt(id, roomId, at); var after := WithTx(db, call);
      && Commits(db, call) && Keyed(after) && after.payments == [] && after.rooms.Keys == db.rooms.Keys
      && AuditIds(after) == AuditIds(db) + {id} && after.stays == db.stays + [NewStay(call.txn)]
  {
    var call := ArriveAt(id, roomId, at);
    CommitsExactlyWhen(db, call.txn);
    CommittedRooms(db, call.txn);
    CommittedStays(db, call.txn);
    CommittedPayments(db, call.txn);
    CommitAudits(db, call.txn);
    CommitStays(db, call.txn);
    CommitPayments(db, call.txn);
  }

  lemma OneMore(db: Tables, calls: seq<Call>, call: Call, roomId: string)
    ensures Run(db, calls + [call]) == WithTx(Run(db, calls), call)
    ensures Stack(db, calls + [call], roomId) ==
      if Commits(Run(db, calls), call) then Stacked(Stack(db, calls, roomId), roomId, call.txn)
      else Stack(db, calls, roomId)
  {
    assert (calls + [call])[..|calls|] == calls;
  }

  /** Only these guests have arrived, in this order. */
  ghost predicate Guests(db: Tables, calls: seq<Call>, stays: seq<Stay>, ids: seq<string>, roomId: string) {
    var after := Run(db, calls);
    && Keyed(after) && after.payments == [] && roomId in after.rooms && after.stays == stays
    && (forall id :: id in AuditIds(after) <==> id in ids) && Stack(db, calls, roomId) == ids
  }

  lemma OneMoreGuest(db: Tables, calls: seq<Call>, stays: seq<Stay>, ids: seq<string>, id: string, roomId: string,
                     at: int)
    requires Guests(db, calls, stays, ids, roomId) && id != "" && id !in ids
    ensures var call := ArriveAt(id, roomId, at);
      Guests(db, calls + [call], stays + [NewStay(call.txn)], ids + [id], roomId)
  {
    Arrives(Run(db, calls), id, roomId, at);
    OneMore(db, calls, ArriveAt(id, roomId, at), roomId);
  }

  lemma NoGuests(db: Tables, roomId: string)
    requires Seeded(db) && roomId in db.rooms
    ensures Guests(db, [], [], [], roomId)
  {
  }

  lemma TwoMoreGuests(db: Tables, calls: seq<Call>, stays: seq<Stay>, ids: seq<string>, b: string, a: string,
                      roomId: string, at: int)
    requires Guests(db, calls, stays, ids, roomId) && b != "" && b !in ids && a != "" && a !in ids + [b]
    ensures var cb, ca := ArriveAt(b, roomId, at), ArriveAt(a, roomId, at);
      Guests(db, calls + [cb] + [ca], stays + [NewStay(cb.txn)] + [NewStay(ca.txn)], ids + [b] + [a], roomId)
  {
    var cb := ArriveAt(b, roomId, at);
    OneMoreGuest(db, calls, stays, ids, b, roomId, at);
    OneMoreGuest(db, calls + [cb], stays + [NewStay(cb.txn)], ids + [b], a, roomId, at);
  }

  /** Request "b" checks in and "a" after it in the same second: the check-out closes "b". */
  lemma SameSecondRun(db: Tables, roomId: string, at: int)
    requires Seeded(db) && roomId in db.rooms
    ensures var calls := [] + [ArriveAt("b", roomId, at)] + [ArriveAt("a", roomId, at)] + [LeaveAt("c", roomId, at)];
      OpenStays(Run(db, calls).stays, roomId) == ["a"] && Stack(db, calls, roomId) == ["b"]
  {
    var b, a := ArriveAt("b", roomId, at), ArriveAt("a", roomId, at);
    NoGuests(db, roomId);
    TwoMoreGuests(db, [], [], [], "b", "a", roomId, at);
    GuestLeaves(db, [] + [b] + [a], roomId, at, NewStay(b.txn), NewStay(a.txn));
  }

  lemma GuestLeaves(db: Tables, calls: seq<Call>, roomId: string, at: int, b: Stay, a: Stay)
    requires Guests(db, calls, [] + [b] + [a], [] + ["b"] + ["a"], roomId)
    requires b.stayId == "b" && a.stayId == "a" && b.guestIn == a.guestIn && IsActive(a, roomId) && IsActive(b, roomId)
    ensures var all := calls + [LeaveAt("c", roomId, at)];
      OpenStays(Run(db, all).stays, roomId) == ["a"] && Stack(db, all, roomId) == ["b"]
  {
    var c := LeaveAt("c", roomId, at);
    SameSecondCloses(Run(db, calls), roomId, at, b, a, c);
    OneMore(db, calls, c, roomId);
    assert ([] + ["b"] + ["a"])[..1] == ["b"];
  }

  lemma SameSecondCloses(db: Tables, roomId: string, at: int, b: Stay, a: Stay, c: Call)
    requires Keyed(db) && db.payments == [] && roomId in db.rooms && db.stays == [b, a] && c == LeaveAt("c", roomId, at)
    requires "c" !in AuditIds(db) && b.stayId == "b" && a.stayId == "a" && b.guestIn == a.guestIn
    requires IsActive(a, roomId) && IsActive(b, roomId)
    ensures Commits(db, c) && OpenStays(WithTx(db, c).stays, roomId) == ["a"]
  {
    CommitsExactlyWhen(db, c.txn);
    CommittedStays(db, c.txn);
    FindsActive(db, roomId);
    assert StringOrder.Less("a", "b");
    SameSecondGoesById(a, b, roomId);
    var after := WithTx(db, c).stays;
    assert after == [after[0], a] && !IsActive(after[0], roomId);
    assert after[..1] == [after[0]] && [after[0]][..0] == [];
    assert OpenStays([after[0]], roomId) == [];
  }
}
