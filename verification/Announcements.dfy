/** What the server tells its listeners about a request it has accepted (`publishAuditEvent`, `publishFraudAlert`,
    `publishRoomUpdate` at the end of the handlers in `httpapi/server.go`), and what a client makes of it. */
module Announcements {
  import opened Core
  import opened Database
  import opened Server
  import opened Payloads
  import opened Client
  import opened Replication
  import Mirror
  import Relay
  import Transport

  /** What an accepted request publishes, from the rooms it leaves behind. */
  function Announcement(rooms: map<string, RoomState>, entry: Audit): seq<Payloads.Event> {
    [AuditEvent(entry)] + AlertFor(rooms, entry) + [RoomUpdate(UpdatePayload(rooms, entry.roomId))]
  }

  /** Only an accepted request announces anything, and it announces the state it has left. */
  function Announced(before: ServerState, after: ServerState, req: Request, env: Env,
                     outcome: Outcome): seq<Payloads.Event> {
    if outcome == Accepted then Announcement(after.rooms, AuditOf(before.rooms, req, env)) else []
  }

  /** Every room is filed under its own id. */
  predicate Identified(rooms: map<string, RoomState>) {
    forall id :: id in rooms ==> rooms[id].roomId == id
  }

  /** The list shows the room with its status, stay mode, case and controller state, and with its minutes while it has
      any left. */
  predicate ShowsRoom(client: seq<Room>, room: RoomState) {
    var shown := Lookup(client, room.roomId);
    && shown.Some?
    && shown.value.status == room.status && shown.value.stayMode == room.stayMode
    && shown.value.caseCode == room.caseCode && shown.value.controllerOnline == room.controllerOnline
    && (room.remainingMinutes > 0 ==> shown.value.remainingMinutes == Some(room.remainingMinutes))
  }

  /** The door of a vacant room was opened. */
  predicate DoorAlert(rooms: map<string, RoomState>, req: Request) {
    req.CommandRequest? && req.action == "open_room" && req.roomId in rooms && rooms[req.roomId].status == Vacant
  }

  /** What listeners are told: first the newest audit entry, which is the request's own; an alert exactly when the door
      of a vacant room was opened; last the room, so that whatever list a client has, it then shows the room as the
      server has it, and no other room has changed. */
  ghost predicate Tells(events: seq<Payloads.Event>, after: ServerState, req: Request, env: Env) {
    && after.audit != [] && after.audit[0].id == RequestIdOrNow(req, env) && after.audit[0].roomId == req.roomId
    && after.audit[0].timestamp == env.now
    && |events| == (if DoorAlert(after.rooms, req) then 3 else 2)
    && events[0] == AuditEvent(after.audit[0])
    && (DoorAlert(after.rooms, req) ==> events[1] == FraudAlert(RequestIdOrNow(req, env), req.roomId))
    && events[|events| - 1].RoomUpdate? && events[|events| - 1].room.roomId == req.roomId
    && forall client: seq<Room> :: Ordered(client) ==> Updates(client, Fold(client, events), after.rooms, req.roomId)
  }

  /** What an update of the room makes of a list: a room listed before stays on its floor, a new one is on the server's,
      and a room the server does not know shows nothing known. */
  ghost predicate Updates(before: seq<Room>, after: seq<Room>, rooms: map<string, RoomState>, roomId: string) {
    && Ordered(after) && Lookup(after, roomId).Some?
    && (Lookup(before, roomId).Some? ==> Lookup(after, roomId).value.floor == Lookup(before, roomId).value.floor)
    && (roomId in rooms ==>
          ShowsRoom(after, rooms[roomId]) &&
          (Lookup(before, roomId).None? ==> Lookup(after, roomId).value.floor == rooms[roomId].floor))
    && (roomId !in rooms ==>
          Lookup(after, roomId).value.status == Unknown && Lookup(after, roomId).value.stayMode == "" &&
          Lookup(after, roomId).value.caseCode == "" && Lookup(after, roomId).value.controllerOnline &&
          (Lookup(before, roomId).None? ==>
             Lookup(after, roomId).value.floor == 0 && Lookup(after, roomId).value.remainingMinutes == None))
    && forall other :: other != roomId ==> Lookup(after, other) == Lookup(before, other)
  }

  lemma UpdateShowsRoom(client: seq<Room>, rooms: map<string, RoomState>, roomId: string)
    requires Ordered(client) && Identified(rooms)
    ensures Updates(client, Client.HandleEvent(client, RoomUpdate(UpdatePayload(rooms, roomId))), rooms, roomId)
  {
    var j := UpdatePayload(rooms, roomId);
    UpdateHandled(client, j, roomId);
    forall other | other != roomId
      ensures Lookup(Client.HandleEvent(client, RoomUpdate(j)), other) == Lookup(client, other) {
      UpdateHandled(client, j, other);
    }
  }

  /** Audit entries and alerts pass the list by. */
  lemma FoldAnnouncement(client: seq<Room>, rooms: map<string, RoomState>, entry: Audit)
    ensures Fold(client, Announcement(rooms, entry)) ==
      Client.HandleEvent(client, RoomUpdate(UpdatePayload(rooms, entry.roomId)))
  {
    var first := [AuditEvent(entry)];
    FoldAppend(client, [], first[0]);
    assert [] + first == first;
    if AlertDue(rooms, entry) {
      FoldAppend(client, first, AlertFor(rooms, entry)[0]);
      assert first + AlertFor(rooms, entry) == first + [AlertFor(rooms, entry)[0]];
    } else {
      assert first + AlertFor(rooms, entry) == first;
    }
    FoldAppend(client, first + AlertFor(rooms, entry), RoomUpdate(UpdatePayload(rooms, entry.roomId)));
  }

  lemma EntryIsOwn(rooms: map<string, RoomState>, req: Request, env: Env)
    ensures var entry := AuditOf(rooms, req, env);
      && entry.id == RequestIdOrNow(req, env) && entry.roomId == req.roomId && entry.timestamp == env.now
      && (entry.action == "open_room" <==> req.CommandRequest? && req.action == "open_room")
  {
    assert |"check_in"| == 8 && |"check_out"| == 9 && |"extend_stay"| == 11 && |"receive_payment"| == 15;
    assert |"open_room"| == 9 && "open_room"[0] == 'o' && "check_out"[0] == 'c';
  }

  /** An accepted request tells its listeners what they need. */
  lemma AcceptedTells(repo: Transport.Repository, s: ServerState, req: Request, env: Env)
    requires Identified(s.rooms) && Serve(repo, s, req, env).1 == Accepted
    ensures var after := Serve(repo, s, req, env).0;
      && Identified(after.rooms) && Tells(Announced(s, after, req, env, Accepted), after, req, env)
  {
    var after, entry := Serve(repo, s, req, env).0, AuditOf(s.rooms, req, env);
    ServeIsAtomic(repo, s, req, env);
    EntryIsOwn(s.rooms, req, env);
    AppliedIdentified(s.rooms, req, env);
    forall client: seq<Room> | Ordered(client)
      ensures Updates(client, Fold(client, Announcement(after.rooms, entry)), after.rooms, entry.roomId) {
      AnnouncementUpdates(client, after.rooms, entry);
    }
  }

  lemma AnnouncementUpdates(client: seq<Room>, rooms: map<string, RoomState>, entry: Audit)
    requires Ordered(client) && Identified(rooms)
    ensures Updates(client, Fold(client, Announcement(rooms, entry)), rooms, entry.roomId)
  {
    FoldAnnouncement(client, rooms, entry);
    UpdateShowsRoom(client, rooms, entry.roomId);
  }

  /** The same as a case: `sent` is what an accepted request publishes. */
  lemma SentTells(repo: Transport.Repository, s: ServerState, after: ServerState, req: Request, env: Env,
                  sent: seq<Payloads.Event>)
    requires Serve(repo, s, req, env) == (after, Accepted) && sent == Announced(s, after, req, env, Accepted)
    ensures Identified(s.rooms) ==> Identified(after.rooms) && Tells(sent, after, req, env)
  {
    if Identified(s.rooms) {
      AcceptedTells(repo, s, req, env);
    }
  }

  lemma AppliedIdentified(rooms: map<string, RoomState>, req: Request, env: Env)
    requires Identified(rooms)
    ensures Identified(ApplyRooms(rooms, req, env))
  {
    if req.roomId in rooms {
      Mirror.ApplyKeepsIdentity(rooms[req.roomId], req, env);
    }
  }

  // ----- the same as the steps of a handler with nothing in between -----

  /** The queue after a publication of each of these events. */
  function EnqueueAll(s: System, events: seq<Payloads.Event>): seq<Payloads.Event> {
    if events == [] then s.queue
    else Enqueue(s.(queue := EnqueueAll(s, events[..|events| - 1])), events[|events| - 1])
  }

  function HandlerSteps(h: nat, req: Request, env: Env, raised: bool): seq<Replication.Step> {
    [Apply(h, req, env), PublishAudit(h), PublishAlert(h, raised), Read(h), PublishUpdate(h)]
  }

  lemma RunNext(s: System, steps: seq<Replication.Step>, step: Replication.Step)
    ensures Replication.Run(s, steps + [step]) == Replication.Next(Replication.Run(s, steps), step)
  {
    assert (steps + [step])[..|steps|] == steps;
  }

  lemma RunFive(s: System, a: Replication.Step, b: Replication.Step, c: Replication.Step, d: Replication.Step,
                e: Replication.Step)
    ensures Replication.Run(s, [a, b, c, d, e]) ==
      Replication.Next(Replication.Next(Replication.Next(Replication.Next(Replication.Next(s, a), b), c), d), e)
  {
    assert [] + [a] == [a] && [a] + [b] == [a, b] && [a, b] + [c] == [a, b, c];
    assert [a, b, c] + [d] == [a, b, c, d] && [a, b, c, d] + [e] == [a, b, c, d, e];
    RunNext(s, [], a);
    RunNext(s, [a], b);
    RunNext(s, [a, b], c);
    RunNext(s, [a, b, c], d);
    RunNext(s, [a, b, c, d], e);
  }

  /** Handler `h` is at this stage and the queue is this one. */
  function With(s: System, rooms: map<string, RoomState>, h: nat, entry: Audit, stage: Stage,
                queue: seq<Payloads.Event>): System
  {
    s.(rooms := rooms, handlers := s.handlers[h := Handler(entry, stage)], queue := queue)
  }

  lemma EnqueueMore(s: System, events: seq<Payloads.Event>, e: Payloads.Event)
    ensures EnqueueAll(s, events + [e]) == Enqueue(s.(queue := EnqueueAll(s, events)), e)
  {
    assert (events + [e])[..|events|] == events;
  }

  /** The steps of one handler with nothing in between put on the queue what the request announces, in order, each event
      if there is space for it. */
  lemma HandlerEnqueues(s: System, h: nat, req: Request, env: Env)
    requires h !in s.handlers
    ensures var after, entry := ApplyRooms(s.rooms, req, env), AuditOf(s.rooms, req, env);
      Replication.Run(s, HandlerSteps(h, req, env, AlertDue(after, entry))) ==
        s.(rooms := after, queue := EnqueueAll(s, Announcement(after, entry)))
  {
    var after, entry := ApplyRooms(s.rooms, req, env), AuditOf(s.rooms, req, env);
    var raised, payload := AlertDue(after, entry), UpdatePayload(after, entry.roomId);
    RunFive(s, Apply(h, req, env), PublishAudit(h), PublishAlert(h, raised), Read(h), PublishUpdate(h));
    var first := [AuditEvent(entry)];
    var told := first + AlertFor(after, entry);
    EnqueueMore(s, [], first[0]);
    assert [] + first == first;
    if raised {
      EnqueueMore(s, first, AlertFor(after, entry)[0]);
      assert told == first + [AlertFor(after, entry)[0]];
    } else {
      assert told == first;
    }
    EnqueueMore(s, told, RoomUpdate(payload));
    EarlierSteps(s, h, req, env, raised);
    LastStep(s, after, h, entry, payload, EnqueueAll(s, told));
  }

  lemma EarlierSteps(s: System, h: nat, req: Request, env: Env, raised: bool)
    requires h !in s.handlers
    ensures var after, entry := ApplyRooms(s.rooms, req, env), AuditOf(s.rooms, req, env);
      var s2 := Replication.Next(Replication.Next(s, Apply(h, req, env)), PublishAudit(h));
      var audited := Enqueue(s, AuditEvent(entry));
      var told := if raised then Enqueue(s.(queue := audited), FraudAlert(entry.id, entry.roomId)) else audited;
      Replication.Next(Replication.Next(s2, PublishAlert(h, raised)), Read(h)) ==
        With(s, after, h, entry, ReadBack(UpdatePayload(after, entry.roomId)), told)
  {
    var after, entry := ApplyRooms(s.rooms, req, env), AuditOf(s.rooms, req, env);
    var s1 := Replication.Next(s, Apply(h, req, env));
    assert s1 == With(s, after, h, entry, Applied, s.queue);
    var s2 := Replication.Next(s1, PublishAudit(h));
    assert s2 == With(s, after, h, entry, Audited, Enqueue(s, AuditEvent(entry)));
  }

  lemma LastStep(s: System, after: map<string, RoomState>, h: nat, entry: Audit, payload: RoomJson,
                 queue: seq<Payloads.Event>)
    requires h !in s.handlers
    ensures Replication.Next(With(s, after, h, entry, ReadBack(payload), queue), PublishUpdate(h)) ==
      s.(rooms := after, queue := Enqueue(s.(queue := queue), RoomUpdate(payload)))
  {
    assert s.handlers[h := Handler(entry, ReadBack(payload))] - {h} == s.handlers;
  }

  // ----- whole runs -----

  /** Everything a server publishes over a run of requests, in order. */
  function PublishedBy(repo: Transport.Repository, s: ServerState, requests: seq<Relay.Exchange>): seq<Payloads.Event> {
    if requests == [] then []
    else
      var before, x := Served(repo, s, requests[..|requests| - 1]), requests[|requests| - 1];
      var (after, outcome) := Serve(repo, before, x.req, x.env);
      PublishedBy(repo, s, requests[..|requests| - 1]) + Announced(before, after, x.req, x.env, outcome)
  }

  function Served(repo: Transport.Repository, s: ServerState, requests: seq<Relay.Exchange>): ServerState {
    if requests == [] then s
    else
      var x := requests[|requests| - 1];
      Serve(repo, Served(repo, s, requests[..|requests| - 1]), x.req, x.env).0
  }

  ghost predicate ShowsAll(client: seq<Room>, rooms: map<string, RoomState>) {
    Ordered(client) && Identified(rooms) && forall id :: id in rooms ==> ShowsRoom(client, rooms[id])
  }

  lemma UpdatesShowAll(client: seq<Room>, told: seq<Room>, before: map<string, RoomState>,
                       after: map<string, RoomState>, roomId: string)
    requires ShowsAll(client, before) && Updates(client, told, after, roomId) && Identified(after)
    requires after.Keys == before.Keys && forall id :: id in before && id != roomId ==> after[id] == before[id]
    ensures ShowsAll(told, after)
  {
    forall id | id in after ensures ShowsRoom(told, after[id]) {
      if id != roomId {
        assert Lookup(told, id) == Lookup(client, id) && ShowsRoom(client, before[id]);
      }
    }
  }

  lemma ToldShows(before: map<string, RoomState>, after: ServerState, req: Request, env: Env,
                  sent: seq<Payloads.Event>, client: seq<Room>)
    requires ShowsAll(client, before) && Tells(sent, after, req, env) && Identified(after.rooms)
    requires after.rooms == ApplyRooms(before, req, env)
    ensures ShowsAll(Fold(client, sent), after.rooms)
  {
    UpdatesShowAll(client, Fold(client, sent), before, after.rooms, req.roomId);
  }

  lemma NothingTold(client: seq<Room>, before: ServerState, after: ServerState, req: Request, env: Env,
                    outcome: Outcome)
    requires outcome != Accepted
    ensures Fold(client, Announced(before, after, req, env, outcome)) == client
  {
  }

  lemma ServedShows(repo: Transport.Repository, s: ServerState, req: Request, env: Env, client: seq<Room>)
    requires ShowsAll(client, s.rooms)
    ensures var (after, outcome) := Serve(repo, s, req, env);
      ShowsAll(Fold(client, Announced(s, after, req, env, outcome)), after.rooms)
  {
    ServeIsAtomic(repo, s, req, env);
    var (after, outcome) := Serve(repo, s, req, env);
    if outcome == Accepted {
      AcceptedTells(repo, s, req, env);
      ToldShows(s.rooms, after, req, env, Announced(s, after, req, env, outcome), client);
    } else {
      NothingTold(client, s, after, req, env, outcome);
    }
  }

  /** A client that showed every room as it was, and handles everything the server publishes over a run of requests with
      any failures, shows every room as it is. */
  lemma {:induction false} ClientFollowsServer(repo: Transport.Repository, s: ServerState,
                                               requests: seq<Relay.Exchange>, client: seq<Room>)
    requires ShowsAll(client, s.rooms)
    ensures ShowsAll(Fold(client, PublishedBy(repo, s, requests)), Served(repo, s, requests).rooms)
  {
    if requests != [] {
      var n := |requests| - 1;
      ClientFollowsServer(repo, s, requests[..n], client);
      var before, x := Served(repo, s, requests[..n]), requests[n];
      var (after, outcome) := Serve(repo, before, x.req, x.env);
      var sofar, events := PublishedBy(repo, s, requests[..n]), Announced(before, after, x.req, x.env, outcome);
      ServedShows(repo, before, x.req, x.env, Fold(client, sofar));
      FoldConcat(client, sofar, events);
    }
  }

  /** The full state shows every room. */
  lemma FullStateShowsAll(rooms: map<string, RoomState>, before: seq<Room>)
    requires Identified(rooms)
    ensures var after := Client.HandleEvent(before, FullStatePayload(rooms));
      && ShowsAll(after, rooms)
      && forall id :: id in rooms ==>
         Lookup(after, id).value.floor == rooms[id].floor &&
         (rooms[id].remainingMinutes <= 0 ==> Lookup(after, id).value.remainingMinutes == None)
  {
    FullStateOrdered(rooms);
    FromJsonsOrdered(FullStatePayload(rooms).rooms);
    var js := FullStatePayload(rooms).rooms;
    forall id | id in rooms ensures Lookup(FromJsons(js), id) == Some(FromJson(Snapshot(rooms[id]))) {
      var ids := SortedIds(rooms.Keys);
      var i :| 0 <= i < |ids| && ids[i] == id;
      FullStateHandled(js, i);
    }
  }
}
