/** The path of a room's state from the server to one client: handlers that change a room, publish their audit entry,
    read the room back and publish what they read; the subscriber's bounded queue; the connection that writes a full
    state first and then drains the queue; the client that folds what arrives into its list. Every step may come at
    any time. */
module Replication {
  import opened Core

  import Database
  import Server
  import Mirror
  import opened Payloads
  import opened Client
  import opened StringOrder

  /** How far a handler has come since it changed its room. */
  datatype Stage = Applied | Audited | Alerted | ReadBack(payload: RoomJson)
  datatype Handler = Handler(entry: Database.Audit, stage: Stage)

  datatype Connection = Away | Subscribed | Streaming

  /** `queue` is the subscriber's channel, `wire` what has been written to the response, `delivered` what the
      client has handled since it connected with the list `start`. */
  datatype System = System(
    rooms: map<string, Server.RoomState>, handlers: map<nat, Handler>, connection: Connection,
    queue: seq<Event>, wire: seq<Event>, start: seq<Room>, delivered: seq<Event>, client: seq<Room>)

  /** Which alerts are raised is part of the schedule; the code raises one when `AlertDue` holds. */
  datatype Step =
    | Apply(h: nat, req: Server.Request, env: Server.Env)   // applyX of handler h, for an accepted request
    | PublishAudit(h: nat)
    | PublishAlert(h: nat, raised: bool)
    | Read(h: nat)                     // roomUpdatePayload
    | PublishUpdate(h: nat)            // Publish, and the handler is done
    | Subscribe
    | WriteFullState
    | Dequeue
    | Deliver

  /** The queue takes the next event; a full one drops it. */
  predicate Takes(s: System) {
    s.connection != Away && |s.queue| < QUEUE_CAPACITY
  }

  function Enqueue(s: System, e: Event): seq<Event> {
    if Takes(s) then s.queue + [e] else s.queue
  }

  predicate At(s: System, h: nat, stage: Stage) {
    h in s.handlers && s.handlers[h].stage == stage
  }

  /** Handler `h` has read its room back and not published yet. */
  predicate Holds(s: System, h: nat) {
    h in s.handlers && s.handlers[h].stage.ReadBack?
  }

  function RoomOf(s: System, h: nat): string
    requires h in s.handlers
  {
    s.handlers[h].entry.roomId
  }

  function Advance(s: System, h: nat, stage: Stage): map<nat, Handler>
    requires h in s.handlers
  {
    s.handlers[h := s.handlers[h].(stage := stage)]
  }

  /** A step that cannot be taken leaves the system as it is. */
  ghost function Next(s: System, step: Step): System {
    match step
    case Apply(h, req, env) =>
      if h in s.handlers then s
      else s.(handlers := s.handlers[h := Handler(Server.AuditOf(s.rooms, req, env), Applied)],
              rooms := Server.ApplyRooms(s.rooms, req, env))
    case PublishAudit(h) =>
      if At(s, h, Applied)
      then s.(handlers := Advance(s, h, Audited), queue := Enqueue(s, AuditEvent(s.handlers[h].entry)))
      else s
    case PublishAlert(h, raised) =>
      if At(s, h, Audited)
      then s.(handlers := Advance(s, h, Alerted),
              queue := if raised then Enqueue(s, FraudAlert(s.handlers[h].entry.id, RoomOf(s, h))) else s.queue)
      else s
    case Read(h) =>
      if At(s, h, Alerted) then s.(handlers := Advance(s, h, ReadBack(UpdatePayload(s.rooms, RoomOf(s, h))))) else s
    case PublishUpdate(h) =>
      if Holds(s, h)
      then s.(handlers := s.handlers - {h}, queue := Enqueue(s, RoomUpdate(s.handlers[h].stage.payload)))
      else s
    case Subscribe =>
      if s.connection == Away then s.(connection := Subscribed, queue := []) else s
    case WriteFullState =>
      if s.connection == Subscribed then s.(connection := Streaming, wire := s.wire + [FullStatePayload(s.rooms)])
      else s
    case Dequeue =>
      if s.connection == Streaming && s.queue != [] then s.(wire := s.wire + [s.queue[0]], queue := s.queue[1..]) else s
    case Deliver =>
      if s.wire != []
      then s.(client := HandleEvent(s.client, s.wire[0]), delivered := s.delivered + [s.wire[0]], wire := s.wire[1..])
      else s
  }

  ghost predicate Initial(s: System) {
    && (forall id :: id in s.rooms ==> s.rooms[id].roomId == id)
    && s.handlers == map[] && s.connection == Away && s.queue == [] && s.wire == [] && s.delivered == []
    && s.client == s.start && Ordered(s.start)
  }

  ghost function Run(s: System, steps: seq<Step>): System {
    if steps == [] then s else Next(Run(s, steps[..|steps| - 1]), steps[|steps| - 1])
  }

  // ----- the moments that matter, counted in steps -----

  /** The server's rooms after the first `k` steps. */
  ghost function RoomsAt(s0: System, steps: seq<Step>, k: int): map<string, Server.RoomState> {
    if |steps| <= k || steps == [] then Run(s0, steps).rooms else RoomsAt(s0, steps[..|steps| - 1], k)
  }

  predicate Changes(s: System, step: Step, id: string) {
    step.Apply? && step.h !in s.handlers && step.req.roomId == id
  }

  /** The step that changed the room last; -1 if none has. */
  ghost function LastApply(s0: System, steps: seq<Step>, id: string): (k: int)
    ensures -1 <= k < |steps|
  {
    if steps == [] then -1
    else
      var n := |steps| - 1;
      if Changes(Run(s0, steps[..n]), steps[n], id) then n else LastApply(s0, steps[..n], id)
  }

  /** The step at which handler `h` read its room back last. */
  ghost function ReadAt(s0: System, steps: seq<Step>, h: nat): (k: int)
    ensures -1 <= k < |steps|
  {
    if steps == [] then -1
    else
      var n := |steps| - 1;
      if steps[n] == Read(h) && At(Run(s0, steps[..n]), h, Alerted) then n else ReadAt(s0, steps[..n], h)
  }

  /** The step publishes an update of the room, and the queue takes it. */
  predicate Sends(s: System, step: Step, id: string) {
    step.PublishUpdate? && Holds(s, step.h) && RoomOf(s, step.h) == id && Takes(s)
  }

  predicate Snapshots(s: System, step: Step) {
    step.WriteFullState? && s.connection == Subscribed
  }

  /** The step at which the last word on the room that the client gets was taken from the server: the read of the
      last update the queue took, or, without one, the full state; -1 before there is any. */
  ghost function WordAt(s0: System, steps: seq<Step>, id: string): (k: int)
    ensures -1 <= k < |steps|
  {
    if steps == [] then -1
    else
      var n := |steps| - 1;
      var s, step := Run(s0, steps[..n]), steps[n];
      if Sends(s, step, id) then ReadAt(s0, steps[..n], step.h)
      else if Snapshots(s, step) && WordAt(s0, steps[..n], id) < 0 then n
      else WordAt(s0, steps[..n], id)
  }

  /** The room has not changed since the last word on it was taken. */
  ghost predicate Fresh(s0: System, steps: seq<Step>, id: string) {
    LastApply(s0, steps, id) < WordAt(s0, steps, id)
  }

  // ----- what is on its way -----

  /** A listed room shows what the payload says; minutes only when the payload has them. */
  predicate Shows(r: Option<Room>, j: RoomJson) {
    && r.Some?
    && r.value.status == FromJson(j).status && r.value.stayMode == FromJson(j).stayMode
    && r.value.caseCode == FromJson(j).caseCode && r.value.controllerOnline == FromJson(j).controllerOnline
    && (j.remainingMinutes.Some? ==> r.value.remainingMinutes == j.remainingMinutes)
  }

  /** The latest update of the room in the queue. */
  function LatestUpdate(queue: seq<Event>, roomId: string): Option<RoomJson> {
    if queue == [] then None
    else
      var last := queue[|queue| - 1];
      if last.RoomUpdate? && last.room.roomId == roomId then Some(last.room)
      else LatestUpdate(queue[..|queue| - 1], roomId)
  }

  /** The list the client will have once everything already on its way has arrived. */
  function Eventual(s: System): seq<Room> {
    Fold(s.client, s.wire + s.queue)
  }

  predicate NoFullState(queue: seq<Event>) {
    forall e :: e in queue ==> !e.FullState?
  }

  ghost predicate Plumbing(s: System) {
    && (forall id :: id in s.rooms ==> s.rooms[id].roomId == id)
    && (forall h :: h in s.handlers && s.handlers[h].stage.ReadBack? ==>
       s.handlers[h].stage.payload.roomId == RoomOf(s, h))
    && |s.queue| <= QUEUE_CAPACITY && NoFullState(s.queue)
    && (forall e :: e in s.wire ==> WellFormed(e))
    && (forall e :: e in s.delivered ==> WellFormed(e))
    && Ordered(s.start) && s.client == Fold(s.start, s.delivered)
    && (s.connection != Streaming ==> s.wire == [])
    && (s.connection == Away ==> s.queue == [])
  }

  /** `j` is the last word on the room on its way to the client, or there already. */
  ghost predicate Word(s: System, id: string, j: Option<RoomJson>) {
    match s.connection
    case Away => j == None
    case Subscribed => LatestUpdate(s.queue, id) == j
    case Streaming => j.Some? && Shows(Lookup(Eventual(s), id), j.value)
  }

  ghost function NextWord(s: System, step: Step, id: string, j: Option<RoomJson>): Option<RoomJson> {
    if Sends(s, step, id) then Some(s.handlers[step.h].stage.payload)
    else if Snapshots(s, step) && j == None then Some(UpdatePayload(s.rooms, id))
    else j
  }

  // ----- folding updates -----

  lemma EventualOrdered(s: System)
    requires Plumbing(s)
    ensures Ordered(s.client) && Ordered(Fold(s.client, s.wire)) && Ordered(Eventual(s))
  {
    FoldOrdered(s.start, s.delivered);
    FoldOrdered(s.client, s.wire);
    FoldOrdered(s.client, s.wire + s.queue);
  }

  lemma UpdateShows(rooms: seq<Room>, j: RoomJson)
    requires Ordered(rooms)
    ensures Shows(Lookup(HandleEvent(rooms, RoomUpdate(j)), j.roomId), j)
  {
    UpdateHandled(rooms, j, j.roomId);
  }

  lemma OtherEventKeeps(rooms: seq<Room>, e: Event, roomId: string)
    requires Ordered(rooms) && !e.FullState? && !(e.RoomUpdate? && e.room.roomId == roomId)
    ensures Lookup(HandleEvent(rooms, e), roomId) == Lookup(rooms, roomId)
  {
    if e.RoomUpdate? {
      UpdateHandled(rooms, e.room, roomId);
    }
  }

  /** Draining a queue leaves a room showing the latest update in it, or what it showed before. */
  lemma {:induction false} FoldShowsLatest(rooms: seq<Room>, queue: seq<Event>, roomId: string, j: RoomJson)
    requires Ordered(rooms) && NoFullState(queue)
    requires match LatestUpdate(queue, roomId) case None => Shows(Lookup(rooms, roomId), j) case Some(last) => last == j
    ensures Shows(Lookup(Fold(rooms, queue), roomId), j)
  {
    if queue != [] {
      var n := |queue| - 1;
      var last := queue[n];
      FoldOrdered(rooms, queue[..n]);
      if last.RoomUpdate? && last.room.roomId == roomId {
        UpdateShows(Fold(rooms, queue[..n]), last.room);
      } else {
        FoldShowsLatest(rooms, queue[..n], roomId, j);
        OtherEventKeeps(Fold(rooms, queue[..n]), last, roomId);
      }
    }
  }

  lemma LatestAppend(queue: seq<Event>, e: Event, roomId: string)
    ensures LatestUpdate(queue + [e], roomId) ==
      if e.RoomUpdate? && e.room.roomId == roomId then Some(e.room) else LatestUpdate(queue, roomId)
  {
    assert (queue + [e])[..|queue|] == queue;
  }

  lemma FullStateShows(rooms: map<string, Server.RoomState>, before: seq<Room>, roomId: string)
    requires roomId in rooms && forall id :: id in rooms ==> rooms[id].roomId == id
    ensures WellFormed(FullStatePayload(rooms))
    ensures Shows(Lookup(HandleEvent(before, FullStatePayload(rooms)), roomId), UpdatePayload(rooms, roomId))
  {
    FullStateOrdered(rooms);
    var ids := SortedIds(rooms.Keys);
    var js := SnapshotsOf(rooms, ids);
    var i :| 0 <= i < |ids| && ids[i] == roomId;
    FullStateHandled(js, i);
  }

  lemma FullStateOrdered(rooms: map<string, Server.RoomState>)
    requires forall id :: id in rooms ==> rooms[id].roomId == id
    ensures WellFormed(FullStatePayload(rooms))
  {
    var ids := SortedIds(rooms.Keys);
    var js := SnapshotsOf(rooms, ids);
    forall i, j | 0 <= i < j < |js| ensures Less(js[i].roomId, js[j].roomId) {
      assert js[i].roomId == ids[i] && js[j].roomId == ids[j];
    }
  }

  lemma AppliedRooms(s: System, req: Server.Request, env: Server.Env)
    requires forall id :: id in s.rooms ==> s.rooms[id].roomId == id
    ensures var after := Server.ApplyRooms(s.rooms, req, env);
      && after.Keys == s.rooms.Keys
      && (forall id :: id in after ==> after[id].roomId == id)
      && (forall id :: id in after && id != req.roomId ==> after[id] == s.rooms[id])
    ensures Server.AuditOf(s.rooms, req, env).roomId == req.roomId
  {
    if req.roomId in s.rooms {
      Mirror.ApplyKeepsIdentity(s.rooms[req.roomId], req, env);
    }
  }

  // ----- each step keeps what is on its way -----

  lemma EnqueueEventual(s: System, e: Event)
    requires Plumbing(s) && s.connection == Streaming && Takes(s)
    ensures Fold(s.client, s.wire + Enqueue(s, e)) == HandleEvent(Eventual(s), e)
  {
    assert s.wire + (s.queue + [e]) == (s.wire + s.queue) + [e];
    FoldAppend(s.client, s.wire + s.queue, e);
  }

  /** An event of another kind, or of another room, changes nothing for this one. */
  lemma OtherEnqueued(s: System, t: System, e: Event, id: string, j: Option<RoomJson>)
    requires Plumbing(s) && Word(s, id, j) && !e.FullState? && !(e.RoomUpdate? && e.room.roomId == id)
    requires t.connection == s.connection && t.client == s.client && t.wire == s.wire && t.queue == Enqueue(s, e)
    ensures Word(t, id, j)
  {
    EventualOrdered(s);
    LatestAppend(s.queue, e, id);
    if s.connection == Streaming && Takes(s) {
      EnqueueEventual(s, e);
      OtherEventKeeps(Eventual(s), e, id);
    }
  }

  lemma UpdateFolded(client: seq<Room>, wire: seq<Event>, queue: seq<Event>, j: RoomJson)
    requires Ordered(Fold(client, wire + queue))
    ensures Shows(Lookup(Fold(client, wire + (queue + [RoomUpdate(j)])), j.roomId), j)
  {
    assert wire + (queue + [RoomUpdate(j)]) == (wire + queue) + [RoomUpdate(j)];
    FoldAppend(client, wire + queue, RoomUpdate(j));
    UpdateShows(Fold(client, wire + queue), j);
  }

  lemma UpdateEnqueued(s: System, h: nat, id: string)
    requires Plumbing(s) && Sends(s, PublishUpdate(h), id)
    ensures Word(Next(s, PublishUpdate(h)), id, Some(s.handlers[h].stage.payload))
  {
    var j := s.handlers[h].stage.payload;
    EventualOrdered(s);
    LatestAppend(s.queue, RoomUpdate(j), id);
    UpdateFolded(s.client, s.wire, s.queue, j);
  }

  lemma PublishedWord(s: System, h: nat, id: string, j: Option<RoomJson>)
    requires Plumbing(s) && Word(s, id, j)
    ensures Word(Next(s, PublishUpdate(h)), id, NextWord(s, PublishUpdate(h), id, j))
  {
    if Sends(s, PublishUpdate(h), id) {
      UpdateEnqueued(s, h, id);
    } else if Holds(s, h) && RoomOf(s, h) != id {
      OtherEnqueued(s, Next(s, PublishUpdate(h)), RoomUpdate(s.handlers[h].stage.payload), id, j);
    }
  }

  lemma SnapshotFolded(rooms: map<string, Server.RoomState>, client: seq<Room>, queue: seq<Event>, id: string)
    requires id in rooms && (forall x :: x in rooms ==> rooms[x].roomId == x) && Ordered(client) && NoFullState(queue)
    ensures Shows(Lookup(Fold(client, [FullStatePayload(rooms)] + queue), id),
      LatestUpdate(queue, id).GetOr(UpdatePayload(rooms, id)))
  {
    var first := FullStatePayload(rooms);
    FullStateOrdered(rooms);
    FoldAppend(client, [], first);
    FoldConcat(client, [first], queue);
    HandleKeepsOrder(client, first);
    FullStateShows(rooms, client, id);
    FoldShowsLatest(HandleEvent(client, first), queue, id, LatestUpdate(queue, id).GetOr(UpdatePayload(rooms, id)));
  }

  lemma SnapshotWord(s: System, id: string, j: Option<RoomJson>)
    requires Plumbing(s) && Word(s, id, j) && id in s.rooms
    ensures Word(Next(s, WriteFullState), id, NextWord(s, WriteFullState, id, j))
  {
    if s.connection == Subscribed {
      EventualOrdered(s);
      assert Next(s, WriteFullState).wire == [FullStatePayload(s.rooms)];
      SnapshotFolded(s.rooms, s.client, s.queue, id);
    }
  }

  lemma EventualMoves(s: System)
    ensures Eventual(Next(s, Dequeue)) == Eventual(s) && Eventual(Next(s, Deliver)) == Eventual(s)
  {
    if s.connection == Streaming && s.queue != [] {
      var t := Next(s, Dequeue);
      assert t.wire + t.queue == s.wire + s.queue;
    }
    if s.wire != [] {
      var e, rest := s.wire[0], s.wire[1..] + s.queue;
      assert s.wire + s.queue == [e] + rest;
      FoldConcat(s.client, [e], rest);
      FoldAppend(s.client, [], e);
    }
  }

  /** Every step makes of the last word what `NextWord` says. */
  lemma WordNext(s: System, step: Step, id: string, j: Option<RoomJson>)
    requires Plumbing(s) && Word(s, id, j) && id in s.rooms
    ensures Word(Next(s, step), id, NextWord(s, step, id, j))
  {
    match step
    case Apply(h, req, env) =>
    case PublishAudit(h) =>
      if At(s, h, Applied) {
        OtherEnqueued(s, Next(s, step), AuditEvent(s.handlers[h].entry), id, j);
      }
    case PublishAlert(h, raised) =>
      if At(s, h, Audited) && raised {
        OtherEnqueued(s, Next(s, step), FraudAlert(s.handlers[h].entry.id, RoomOf(s, h)), id, j);
      }
    case Read(h) =>
    case PublishUpdate(h) => PublishedWord(s, h, id, j);
    case Subscribe =>
    case WriteFullState => SnapshotWord(s, id, j);
    case Dequeue => EventualMoves(s);
    case Deliver => EventualMoves(s);
  }

  lemma HandlerPlumbing(s: System, step: Step)
    requires Plumbing(s) && (step.Apply? || step.Read?)
    ensures Plumbing(Next(s, step)) && Next(s, step).rooms.Keys == s.rooms.Keys
  {
    if step.Apply? {
      AppliedRooms(s, step.req, step.env);
    }
  }

  lemma PublishPlumbing(s: System, step: Step)
    requires Plumbing(s) && (step.PublishAudit? || step.PublishAlert? || step.PublishUpdate?)
    ensures Plumbing(Next(s, step)) && Next(s, step).rooms.Keys == s.rooms.Keys
  {
  }

  lemma ConnectionPlumbing(s: System, step: Step)
    requires Plumbing(s) && (step.Subscribe? || step.WriteFullState? || step.Dequeue?)
    ensures Plumbing(Next(s, step)) && Next(s, step).rooms == s.rooms
  {
    FullStateOrdered(s.rooms);
  }

  lemma DeliveryPlumbing(s: System)
    requires Plumbing(s)
    ensures Plumbing(Next(s, Deliver)) && Next(s, Deliver).rooms == s.rooms
  {
    if s.wire != [] {
      FoldAppend(s.start, s.delivered, s.wire[0]);
    }
  }

  lemma PlumbingNext(s: System, step: Step)
    requires Plumbing(s)
    ensures Plumbing(Next(s, step)) && Next(s, step).rooms.Keys == s.rooms.Keys
  {
    if step.Apply? || step.Read? {
      HandlerPlumbing(s, step);
    } else if step.PublishAudit? || step.PublishAlert? || step.PublishUpdate? {
      PublishPlumbing(s, step);
    } else if step.Deliver? {
      DeliveryPlumbing(s);
    } else {
      ConnectionPlumbing(s, step);
    }
  }

  lemma {:induction false} RunPlumbing(s0: System, steps: seq<Step>)
    requires Initial(s0)
    ensures Plumbing(Run(s0, steps)) && Run(s0, steps).rooms.Keys == s0.rooms.Keys
  {
    if steps != [] {
      RunPlumbing(s0, steps[..|steps| - 1]);
      PlumbingNext(Run(s0, steps[..|steps| - 1]), steps[|steps| - 1]);
    }
  }

  // ----- words and moments -----

  /** What a handler holds is its room at the moment it read it. */
  ghost predicate HoldsRead(s0: System, steps: seq<Step>, h: nat) {
    Holds(Run(s0, steps), h) ==>
      ReadAt(s0, steps, h) >= 0 &&
      Run(s0, steps).handlers[h].stage.payload ==
        UpdatePayload(RoomsAt(s0, steps, ReadAt(s0, steps, h)), RoomOf(Run(s0, steps), h))
  }

  lemma RoomsAtEarlier(s0: System, steps: seq<Step>, k: int)
    requires steps != [] && k < |steps|
    ensures RoomsAt(s0, steps, k) == RoomsAt(s0, steps[..|steps| - 1], k)
    ensures k == |steps| - 1 ==> RoomsAt(s0, steps, k) == Run(s0, steps[..|steps| - 1]).rooms
  {
  }

  lemma {:induction false} HandlersRead(s0: System, steps: seq<Step>, h: nat)
    requires s0.handlers == map[]
    ensures HoldsRead(s0, steps, h)
  {
    if steps != [] {
      var n := |steps| - 1;
      HandlersRead(s0, steps[..n], h);
      RoomsAtEarlier(s0, steps, ReadAt(s0, steps, h));
    }
  }

  ghost function WordOf(s0: System, steps: seq<Step>, id: string): Option<RoomJson> {
    if WordAt(s0, steps, id) < 0 then None else Some(UpdatePayload(RoomsAt(s0, steps, WordAt(s0, steps, id)), id))
  }

  lemma WordOfNext(s0: System, steps: seq<Step>, id: string)
    requires Initial(s0) && steps != []
    ensures var before := steps[..|steps| - 1];
      WordOf(s0, steps, id) == NextWord(Run(s0, before), steps[|steps| - 1], id, WordOf(s0, before, id))
  {
    var n := |steps| - 1;
    RoomsAtEarlier(s0, steps, WordAt(s0, steps, id));
    if steps[n].PublishUpdate? {
      HandlersRead(s0, steps[..n], steps[n].h);
    }
  }

  /** At every moment the last word on its way is the room as the server had it at step `WordAt`. */
  lemma {:induction false} RunWord(s0: System, steps: seq<Step>, id: string)
    requires Initial(s0) && id in s0.rooms
    ensures Word(Run(s0, steps), id, WordOf(s0, steps, id))
  {
    if steps != [] {
      var n := |steps| - 1;
      RunWord(s0, steps[..n], id);
      RunPlumbing(s0, steps[..n]);
      WordOfNext(s0, steps, id);
      WordNext(Run(s0, steps[..n]), steps[n], id, WordOf(s0, steps[..n], id));
    }
  }

  lemma {:induction false} RoomsAtKeys(s0: System, steps: seq<Step>, k: int)
    requires Initial(s0)
    ensures RoomsAt(s0, steps, k).Keys == s0.rooms.Keys
    ensures forall id :: id in s0.rooms ==> RoomsAt(s0, steps, k)[id].roomId == id
  {
    if |steps| <= k || steps == [] {
      RunPlumbing(s0, steps);
    } else {
      RoomsAtKeys(s0, steps[..|steps| - 1], k);
    }
  }

  lemma OthersKeepRoom(s: System, step: Step, id: string)
    requires Plumbing(s) && id in s.rooms && !Changes(s, step, id)
    ensures id in Next(s, step).rooms && Next(s, step).rooms[id] == s.rooms[id]
  {
    if step.Apply? {
      AppliedRooms(s, step.req, step.env);
    }
  }

  /** A room that has not changed since step `k` is as it was then. */
  lemma {:induction false} UnchangedSince(s0: System, steps: seq<Step>, k: int, id: string)
    requires Initial(s0) && id in s0.rooms && LastApply(s0, steps, id) < k <= |steps|
    ensures id in RoomsAt(s0, steps, k) && id in Run(s0, steps).rooms &&
      RoomsAt(s0, steps, k)[id] == Run(s0, steps).rooms[id]
  {
    if k == |steps| {
      RunPlumbing(s0, steps);
    } else {
      var n := |steps| - 1;
      UnchangedSince(s0, steps[..n], k, id);
      RoomsAtEarlier(s0, steps, k);
      RunPlumbing(s0, steps[..n]);
      OthersKeepRoom(Run(s0, steps[..n]), steps[n], id);
    }
  }

  // ----- main results -----

  /** Everything published has arrived. */
  predicate Drained(s: System) {
    s.connection == Streaming && s.queue == [] && s.wire == []
  }

  /** Once everything has arrived, the client shows every server room as the server had it when the last word on it was
      taken. Handlers may overlap, updates may be dropped, and the client may subscribe at any moment. */
  lemma ClientShowsLastWord(s0: System, steps: seq<Step>, id: string)
    requires Initial(s0) && Drained(Run(s0, steps)) && id in s0.rooms
    ensures 0 <= WordAt(s0, steps, id) < |steps|
    ensures var was := RoomsAt(s0, steps, WordAt(s0, steps, id));
      id in was && Shows(Lookup(Run(s0, steps).client, id), Snapshot(was[id]))
  {
    RunWord(s0, steps, id);
    RoomsAtKeys(s0, steps, WordAt(s0, steps, id));
    var s := Run(s0, steps);
    assert s.wire + s.queue == [];
  }

  predicate SameFace(a: Server.RoomState, b: Server.RoomState) {
    a.status == b.status && a.stayMode == b.stayMode && a.caseCode == b.caseCode &&
    a.controllerOnline == b.controllerOnline
  }

  predicate ShownAsIs(rooms: seq<Room>, room: Server.RoomState) {
    var shown := Lookup(rooms, room.roomId);
    && shown.Some?
    && shown.value.status == room.status && shown.value.stayMode == room.stayMode
    && shown.value.caseCode == room.caseCode && shown.value.controllerOnline == room.controllerOnline
  }

  /** Once everything has arrived, the client agrees with the server on a room if and only if the room looks as it did
      when the last word on it was taken; a room that has not changed since agrees, with its positive minutes. */
  lemma ClientConverges(s0: System, steps: seq<Step>, id: string)
    requires Initial(s0) && Drained(Run(s0, steps)) && id in s0.rooms
    ensures var s := Run(s0, steps); var was := RoomsAt(s0, steps, WordAt(s0, steps, id));
      && id in s.rooms && s.rooms[id].roomId == id && id in was
      && (ShownAsIs(s.client, s.rooms[id]) <==> SameFace(was[id], s.rooms[id]))
      && (Fresh(s0, steps, id) ==>
            ShownAsIs(s.client, s.rooms[id]) &&
            (s.rooms[id].remainingMinutes > 0 ==> MinutesShown(s.client, id) == Some(s.rooms[id].remainingMinutes)))
  {
    RunPlumbing(s0, steps);
    ClientShowsLastWord(s0, steps, id);
    if Fresh(s0, steps, id) {
      UnchangedSince(s0, steps, WordAt(s0, steps, id), id);
    }
  }

  predicate InFlight(s: System, id: string) {
    exists h :: h in s.handlers && RoomOf(s, h) == id
  }

  /** Handlers of one room never overlap, and no update meets a full queue. */
  ghost predicate Quiet(s0: System, steps: seq<Step>) {
    steps == [] ||
    var before, last := Run(s0, steps[..|steps| - 1]), steps[|steps| - 1];
    && Quiet(s0, steps[..|steps| - 1])
    && (last.Apply? ==> !InFlight(before, last.req.roomId))
    && (last.PublishUpdate? ==> before.connection == Away || Takes(before))
  }

  /** At most one handler of the room is in flight, and what it has read, or else the last word, is current. `last` is
      the step that changed the room last, `word` that of the last word, `readAt` those of the handlers' reads. */
  ghost predicate QuietState(s: System, id: string, last: int, word: int, readAt: nat -> int) {
    && (forall h :: Holds(s, h) && RoomOf(s, h) == id ==> last < readAt(h))
    && (forall h, g :: h in s.handlers && g in s.handlers && RoomOf(s, h) == id && RoomOf(s, g) == id ==> h == g)
    && (!InFlight(s, id) && s.connection != Away && (s.connection == Streaming || word >= 0) ==> last < word)
    && (s.connection == Away ==> word < 0)
  }

  ghost function ReadsOf(s0: System, steps: seq<Step>): nat -> int {
    (h: nat) => ReadAt(s0, steps, h)
  }

  ghost predicate QuietRoom(s0: System, steps: seq<Step>, id: string) {
    QuietState(Run(s0, steps), id, LastApply(s0, steps, id), WordAt(s0, steps, id), ReadsOf(s0, steps))
  }

  lemma {:induction false} QuietRooms(s0: System, steps: seq<Step>, id: string)
    requires Initial(s0) && Quiet(s0, steps)
    ensures QuietRoom(s0, steps, id)
  {
    if steps != [] {
      var n := |steps| - 1;
      var before := steps[..n];
      QuietRooms(s0, before, id);
      RunPlumbing(s0, before);
      QuietNext(Run(s0, before), steps[n], id, n, LastApply(s0, before, id), WordAt(s0, before, id),
        ReadsOf(s0, before), ReadsOf(s0, steps));
    }
  }

  /** `after` are the reads once step number `n` has been taken. */
  ghost predicate ReadsNext(s: System, step: Step, n: int, readAt: nat -> int, after: nat -> int) {
    forall h :: readAt(h) < n && after(h) == if step == Read(h) && At(s, h, Alerted) then n else readAt(h)
  }

  lemma QuietNext(s: System, step: Step, id: string, n: nat, last: int, word: int, readAt: nat -> int,
                  after: nat -> int)
    requires Plumbing(s) && QuietState(s, id, last, word, readAt) && last < n && word < n &&
      ReadsNext(s, step, n, readAt, after)
    requires step.Apply? ==> !InFlight(s, step.req.roomId)
    requires step.PublishUpdate? ==> s.connection == Away || Takes(s)
    ensures QuietState(Next(s, step), id, if Changes(s, step, id) then n else last,
      if Sends(s, step, id) then readAt(step.h) else if Snapshots(s, step) && word < 0 then n else word, after)
  {
    match step
    case Apply(h, req, env) => QuietApply(s, h, req, env, id, n, last, word, readAt, after);
    case PublishUpdate(h) =>
      if Holds(s, h) && RoomOf(s, h) == id {
        QuietDone(s, h, id, n, last, word, readAt, after);
      } else {
        QuietElsewhere(s, h, id, n, last, word, readAt, after);
      }
    case _ =>
      SameFlights(s, step, id);
      SameHandlers(s, step, id);
  }

  lemma QuietApply(s: System, h: nat, req: Server.Request, env: Server.Env, id: string, n: nat, last: int, word: int,
                   readAt: nat -> int, after: nat -> int)
    requires Plumbing(s) && QuietState(s, id, last, word, readAt) && ReadsNext(s, Apply(h, req, env), n, readAt, after)
    requires !InFlight(s, req.roomId)
    ensures QuietState(Next(s, Apply(h, req, env)), id,
      if Changes(s, Apply(h, req, env), id) then n else last, word, after)
  {
    SameFlights(s, Apply(h, req, env), id);
    AppliedRooms(s, req, env);
    var t := Next(s, Apply(h, req, env));
    assert forall g :: g in t.handlers && g != h ==> g in s.handlers && t.handlers[g] == s.handlers[g];
  }

  lemma FewerHandlers(s: System, h: nat)
    ensures var t := Next(s, PublishUpdate(h));
      && t.connection == s.connection &&
         (forall g :: g in t.handlers ==> g in s.handlers && t.handlers[g] == s.handlers[g])
      && (forall g :: g in s.handlers && g != h ==> g in t.handlers) && (Holds(s, h) ==> h !in t.handlers)
  {
  }

  lemma QuietDone(s: System, h: nat, id: string, n: nat, last: int, word: int, readAt: nat -> int, after: nat -> int)
    requires QuietState(s, id, last, word, readAt) && ReadsNext(s, PublishUpdate(h), n, readAt, after)
    requires s.connection == Away || Takes(s)
    requires Holds(s, h) && RoomOf(s, h) == id
    ensures QuietState(Next(s, PublishUpdate(h)), id, last,
      if Sends(s, PublishUpdate(h), id) then readAt(h) else word, after)
  {
    FewerHandlers(s, h);
  }

  lemma QuietElsewhere(s: System, h: nat, id: string, n: nat, last: int, word: int, readAt: nat -> int,
                       after: nat -> int)
    requires QuietState(s, id, last, word, readAt) && ReadsNext(s, PublishUpdate(h), n, readAt, after)
    requires !(Holds(s, h) && RoomOf(s, h) == id)
    ensures QuietState(Next(s, PublishUpdate(h)), id, last, word, after)
  {
    FewerHandlers(s, h);
    if InFlight(s, id) {
      var g :| g in s.handlers && RoomOf(s, g) == id;
      assert g in Next(s, PublishUpdate(h)).handlers;
    }
  }

  /** The other steps leave every handler's room as it is and only a read makes one hold anything. */
  lemma SameHandlers(s: System, step: Step, id: string)
    requires !step.Apply? && !step.PublishUpdate?
    ensures var t := Next(s, step);
      && t.handlers.Keys == s.handlers.Keys && (forall h :: h in s.handlers ==> RoomOf(t, h) == RoomOf(s, h))
      && (forall h :: Holds(t, h) ==> Holds(s, h) || (step == Read(h) && At(s, h, Alerted)))
  {
  }

  /** Only the start and the end of a handler of the room change whether it is in flight. */
  lemma SameFlights(s: System, step: Step, id: string)
    requires Plumbing(s)
    ensures Changes(s, step, id) ==> InFlight(Next(s, step), id)
    ensures !Changes(s, step, id) && !(step.PublishUpdate? && Holds(s, step.h) && RoomOf(s, step.h) == id) ==>
      (InFlight(Next(s, step), id) <==> InFlight(s, id))
  {
    var t := Next(s, step);
    if step.Apply? && step.h !in s.handlers {
      AppliedRooms(s, step.req, step.env);
      assert t.handlers[step.h].entry.roomId == step.req.roomId;
    }
    if InFlight(s, id) {
      var g :| g in s.handlers && RoomOf(s, g) == id;
      if g in t.handlers {
        assert RoomOf(t, g) == id;
      }
    }
  }

  /** After a quiet run, once all handlers are done and everything has arrived, the client shows every room the
      server has. */
  lemma QuietRunConverges(s0: System, steps: seq<Step>)
    requires Initial(s0) && Quiet(s0, steps)
    requires var s := Run(s0, steps); Drained(s) && s.handlers == map[]
    ensures var s := Run(s0, steps);
      forall id :: id in s.rooms ==> s.rooms[id].roomId == id && ShownAsIs(s.client, s.rooms[id])
  {
    RunPlumbing(s0, steps);
    var s := Run(s0, steps);
    forall id | id in s.rooms ensures s.rooms[id].roomId == id && ShownAsIs(s.client, s.rooms[id]) {
      QuietRooms(s0, steps, id);
      ClientConverges(s0, steps, id);
    }
  }

  /** At every moment the client's list is sorted, with unique ids. */
  lemma ClientStaysSorted(s0: System, steps: seq<Step>)
    requires Initial(s0)
    ensures Ordered(Run(s0, steps).client)
  {
    RunPlumbing(s0, steps);
    EventualOrdered(Run(s0, steps));
  }

  // ----- remaining minutes, on the client's side -----

  function JsonMinutes(js: seq<RoomJson>, roomId: string): Option<int> {
    if js == [] then None
    else if js[|js| - 1].roomId == roomId then js[|js| - 1].remainingMinutes
    else JsonMinutes(js[..|js| - 1], roomId)
  }

  /** The minutes of the last full state, overwritten only by later updates that carry minutes. */
  function MinutesSent(start: seq<Room>, events: seq<Event>, roomId: string): Option<int> {
    if events == [] then (match Lookup(start, roomId) case None => None case Some(r) => r.remainingMinutes)
    else
      var earlier := MinutesSent(start, events[..|events| - 1], roomId);
      match events[|events| - 1]
      case FullState(js) => JsonMinutes(js, roomId)
      case RoomUpdate(j) => if j.roomId == roomId && j.remainingMinutes.Some? then j.remainingMinutes else earlier
      case AuditEvent(_) => earlier
      case FraudAlert(_, _) => earlier
  }

  function MinutesShown(rooms: seq<Room>, roomId: string): Option<int> {
    match Lookup(rooms, roomId)
    case None => None
    case Some(r) => r.remainingMinutes
  }

  lemma {:induction false} JsonMinutesAre(js: seq<RoomJson>, roomId: string)
    requires OrderedJsons(js)
    ensures (forall i :: 0 <= i < |js| ==> js[i].roomId != roomId) ==> JsonMinutes(js, roomId) == None
    ensures forall i :: 0 <= i < |js| && js[i].roomId == roomId ==> JsonMinutes(js, roomId) == js[i].remainingMinutes
  {
    if js != [] {
      var n := |js| - 1;
      JsonMinutesAre(js[..n], roomId);
      forall i | 0 <= i < n ensures js[i].roomId != js[n].roomId {
        Trichotomy(js[i].roomId, js[n].roomId);
      }
    }
  }

  lemma FullStateMinutes(js: seq<RoomJson>, roomId: string)
    requires OrderedJsons(js)
    ensures MinutesShown(FromJsons(js), roomId) == JsonMinutes(js, roomId)
  {
    JsonMinutesAre(js, roomId);
    var rooms := FromJsons(js);
    var i := Index(rooms, roomId);
    if i.Some? {
      assert rooms[i.value] == FromJson(js[i.value]);
    } else {
      assert forall k :: 0 <= k < |js| ==> rooms[k] == FromJson(js[k]);
    }
  }

  lemma {:induction false} FoldMinutes(start: seq<Room>, events: seq<Event>, roomId: string)
    requires Ordered(start) && forall e :: e in events ==> WellFormed(e)
    ensures MinutesShown(Fold(start, events), roomId) == MinutesSent(start, events, roomId)
  {
    if events != [] {
      var n := |events| - 1;
      var before := Fold(start, events[..n]);
      FoldMinutes(start, events[..n], roomId);
      FoldOrdered(start, events[..n]);
      assert events[n] in events;
      match events[n]
      case FullState(js) => FullStateMinutes(js, roomId);
      case RoomUpdate(j) => UpdateHandled(before, j, roomId);
      case AuditEvent(_) =>
      case FraudAlert(_, _) =>
    }
  }

  /** What the client shows as minutes is, at every moment, the full state's value overwritten by later positive
      ones. */
  lemma ClientMinutes(s0: System, steps: seq<Step>, roomId: string)
    requires Initial(s0)
    ensures var s := Run(s0, steps); MinutesShown(s.client, roomId) == MinutesSent(s.start, s.delivered, roomId)
  {
    RunPlumbing(s0, steps);
    var s := Run(s0, steps);
    FoldMinutes(s.start, s.delivered, roomId);
  }

  // ----- remaining minutes, on the server's side -----

  /** The positive minutes of a room. */
  function MinutesOf(rooms: map<string, Server.RoomState>, id: string): Option<int> {
    if id in rooms && rooms[id].remainingMinutes > 0 then Some(rooms[id].remainingMinutes) else None
  }

  /** The latest positive minutes the server had when it read an update the queue took; without any, those it had
      when it wrote the full state. */
  ghost function MinutesTaken(s0: System, steps: seq<Step>, id: string): Option<int> {
    if steps == [] then None
    else
      var n := |steps| - 1;
      var s, step, earlier := Run(s0, steps[..n]), steps[n], MinutesTaken(s0, steps[..n], id);
      var now :=
        if Sends(s, step, id) then MinutesOf(RoomsAt(s0, steps[..n], ReadAt(s0, steps[..n], step.h)), id)
        else if Snapshots(s, step) && earlier == None then MinutesOf(s.rooms, id)
        else None;
      if now.Some? then now else earlier
  }

  function LatestMinutes(queue: seq<Event>, id: string): Option<int> {
    if queue == [] then None
    else
      var last := queue[|queue| - 1];
      if last.RoomUpdate? && last.room.roomId == id && last.room.remainingMinutes.Some? then last.room.remainingMinutes
      else LatestMinutes(queue[..|queue| - 1], id)
  }

  /** `m` are the minutes of the room the client will show once everything has arrived. */
  ghost predicate MinutesWord(s: System, id: string, m: Option<int>) {
    if s.connection == Streaming then MinutesShown(Eventual(s), id) == m else LatestMinutes(s.queue, id) == m
  }

  lemma LatestMinutesAppend(queue: seq<Event>, e: Event, id: string)
    ensures LatestMinutes(queue + [e], id) ==
      if e.RoomUpdate? && e.room.roomId == id && e.room.remainingMinutes.Some? then e.room.remainingMinutes
      else LatestMinutes(queue, id)
  {
    assert (queue + [e])[..|queue|] == queue;
  }

  lemma EventMinutes(rooms: seq<Room>, e: Event, id: string)
    requires Ordered(rooms) && !e.FullState?
    ensures MinutesShown(HandleEvent(rooms, e), id) ==
      if e.RoomUpdate? && e.room.roomId == id && e.room.remainingMinutes.Some? then e.room.remainingMinutes
      else MinutesShown(rooms, id)
  {
    if e.RoomUpdate? {
      UpdateHandled(rooms, e.room, id);
    }
  }

  lemma {:induction false} FoldLatestMinutes(rooms: seq<Room>, queue: seq<Event>, id: string)
    requires Ordered(rooms) && NoFullState(queue)
    ensures MinutesShown(Fold(rooms, queue), id) ==
      if LatestMinutes(queue, id).Some? then LatestMinutes(queue, id) else MinutesShown(rooms, id)
  {
    if queue != [] {
      var n := |queue| - 1;
      FoldOrdered(rooms, queue[..n]);
      FoldLatestMinutes(rooms, queue[..n], id);
      EventMinutes(Fold(rooms, queue[..n]), queue[n], id);
    }
  }

  lemma MinutesEnqueued(s: System, t: System, e: Event, id: string, m: Option<int>)
    requires Plumbing(s) && MinutesWord(s, id, m) && !e.FullState?
    requires t.connection == s.connection && t.client == s.client && t.wire == s.wire && t.queue == Enqueue(s, e)
    ensures MinutesWord(t, id,
      if Takes(s) && e.RoomUpdate? && e.room.roomId == id && e.room.remainingMinutes.Some? then e.room.remainingMinutes
      else m)
  {
    EventualOrdered(s);
    LatestMinutesAppend(s.queue, e, id);
    if s.connection == Streaming && Takes(s) {
      EnqueueEventual(s, e);
      EventMinutes(Eventual(s), e, id);
    }
  }

  /** The list after a full state, with `queue` behind it. */
  lemma FullThenQueue(client: seq<Room>, first: Event, queue: seq<Event>, id: string)
    requires Ordered(client) && first.FullState? && WellFormed(first) && NoFullState(queue)
    ensures MinutesShown(Fold(client, [first] + queue), id) ==
      if LatestMinutes(queue, id).Some? then LatestMinutes(queue, id)
      else MinutesShown(HandleEvent(client, first), id)
  {
    FoldAppend(client, [], first);
    FoldConcat(client, [first], queue);
    HandleKeepsOrder(client, first);
    FoldLatestMinutes(HandleEvent(client, first), queue, id);
  }

  lemma SnapshotMinutes(s: System, id: string, m: Option<int>)
    requires Plumbing(s) && MinutesWord(s, id, m) && id in s.rooms && s.connection == Subscribed
    ensures MinutesWord(Next(s, WriteFullState), id, if m.Some? then m else MinutesOf(s.rooms, id))
  {
    var first := FullStatePayload(s.rooms);
    FullStateOrdered(s.rooms);
    EventualOrdered(s);
    assert Next(s, WriteFullState).wire == [first];
    FullStateRoom(s.rooms, s.client, id);
    FullThenQueue(s.client, first, s.queue, id);
  }

  lemma FullStateRoom(rooms: map<string, Server.RoomState>, before: seq<Room>, id: string)
    requires id in rooms && forall x :: x in rooms ==> rooms[x].roomId == x
    ensures MinutesShown(HandleEvent(before, FullStatePayload(rooms)), id) == MinutesOf(rooms, id)
  {
    FullStateOrdered(rooms);
    var ids := SortedIds(rooms.Keys);
    var i :| 0 <= i < |ids| && ids[i] == id;
    FullStateHandled(SnapshotsOf(rooms, ids), i);
  }

  lemma MinutesNext(s: System, step: Step, id: string, m: Option<int>)
    requires Plumbing(s) && MinutesWord(s, id, m) && id in s.rooms
    ensures var now :=
        if Sends(s, step, id) then s.handlers[step.h].stage.payload.remainingMinutes
        else if Snapshots(s, step) && m == None then MinutesOf(s.rooms, id)
        else None;
      MinutesWord(Next(s, step), id, if now.Some? then now else m)
  {
    match step
    case Apply(h, req, env) =>
    case PublishAudit(h) =>
      if At(s, h, Applied) {
        MinutesEnqueued(s, Next(s, step), AuditEvent(s.handlers[h].entry), id, m);
      }
    case PublishAlert(h, raised) =>
      if At(s, h, Audited) && raised {
        MinutesEnqueued(s, Next(s, step), FraudAlert(s.handlers[h].entry.id, RoomOf(s, h)), id, m);
      }
    case Read(h) =>
    case PublishUpdate(h) =>
      if Holds(s, h) {
        MinutesEnqueued(s, Next(s, step), RoomUpdate(s.handlers[h].stage.payload), id, m);
      }
    case Subscribe =>
    case WriteFullState =>
      if s.connection == Subscribed {
        SnapshotMinutes(s, id, m);
      }
    case Dequeue => EventualMoves(s);
    case Deliver => EventualMoves(s);
  }

  lemma {:induction false} RunMinutes(s0: System, steps: seq<Step>, id: string)
    requires Initial(s0) && id in s0.rooms
    ensures MinutesWord(Run(s0, steps), id, MinutesTaken(s0, steps, id))
  {
    if steps != [] {
      var n := |steps| - 1;
      RunMinutes(s0, steps[..n], id);
      RunPlumbing(s0, steps[..n]);
      MinutesNext(Run(s0, steps[..n]), steps[n], id, MinutesTaken(s0, steps[..n], id));
      if steps[n].PublishUpdate? {
        HandlersRead(s0, steps[..n], steps[n].h);
        RoomsAtKeys(s0, steps[..n], ReadAt(s0, steps[..n], steps[n].h));
      }
    }
  }

  /** Positive minutes were in the full state, or in an update the queue took, when the server took them. */
  ghost predicate PositiveTaken(s0: System, steps: seq<Step>, id: string) {
    steps != [] &&
    var n := |steps| - 1;
    var s, step := Run(s0, steps[..n]), steps[n];
    || PositiveTaken(s0, steps[..n], id)
    || (Sends(s, step, id) && MinutesOf(RoomsAt(s0, steps[..n], ReadAt(s0, steps[..n], step.h)), id).Some?)
    || (Snapshots(s, step) && MinutesOf(s.rooms, id).Some?)
  }

  lemma {:induction false} TakenIsPositive(s0: System, steps: seq<Step>, id: string)
    ensures MinutesTaken(s0, steps, id).Some? <==> PositiveTaken(s0, steps, id)
  {
    if steps != [] {
      TakenIsPositive(s0, steps[..|steps| - 1], id);
    }
  }

  /** Once everything has arrived, the client shows the minutes last taken from the server. So it agrees with the
      server if and only if those are the server's own; and a room without minutes goes on showing some if and only if
      the server ever took positive ones for this client. */
  lemma MinutesConvergeExactlyWhen(s0: System, steps: seq<Step>, id: string)
    requires Initial(s0) && Drained(Run(s0, steps)) && id in s0.rooms
    ensures var s := Run(s0, steps);
      && MinutesShown(s.client, id) == MinutesTaken(s0, steps, id)
      && (MinutesShown(s.client, id) == MinutesOf(s.rooms, id) <==>
            if MinutesOf(s.rooms, id) == None then !PositiveTaken(s0, steps, id)
            else MinutesTaken(s0, steps, id) == MinutesOf(s.rooms, id))
  {
    RunMinutes(s0, steps, id);
    TakenIsPositive(s0, steps, id);
    var s := Run(s0, steps);
    assert s.wire + s.queue == [];
  }
}
