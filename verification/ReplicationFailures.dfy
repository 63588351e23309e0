/** Runs the code can take, step by step, after which the client is wrong: each breaks one condition of convergence. */
module ReplicationFailures {
  import opened Core
  import Database
  import Server
  import opened Payloads
  import opened Client
  import opened Replication
  import opened ReplicationRuns

  // ----- runs the code can take -----

  /** The handler is one of the server's requests under a new id, and raises the alert the code raises. */
  predicate Coded(s: System, earlier: seq<Step>, step: Step) {
    && (step.Apply? ==>
       Server.Known(step.req) && step.req.requestId != "" && step.req.requestId !in Ids(earlier) &&
       step.req.roomId in s.rooms)
    && (step.PublishAlert? && At(s, step.h, Audited) ==> (step.raised <==> AlertDue(s.rooms, s.handlers[step.h].entry)))
  }

  ghost predicate CodeTakes(s0: System, steps: seq<Step>) {
    steps == [] ||
    (CodeTakes(s0, steps[..|steps| - 1]) &&
    Coded(Run(s0, steps[..|steps| - 1]), steps[..|steps| - 1], steps[|steps| - 1]))
  }

  /** A handler only starts when no other is in flight. */
  ghost predicate OneByOne(s0: System, steps: seq<Step>) {
    steps == [] ||
    (OneByOne(s0, steps[..|steps| - 1]) &&
    (steps[|steps| - 1].Apply? ==> Run(s0, steps[..|steps| - 1]).handlers == map[]))
  }

  /** The queue takes every update. */
  ghost predicate NothingDropped(s0: System, steps: seq<Step>) {
    steps == [] ||
    (NothingDropped(s0, steps[..|steps| - 1]) &&
    (steps[|steps| - 1].PublishUpdate? ==> Takes(Run(s0, steps[..|steps| - 1]))))
  }

  // ----- one more step -----

  lemma OneMore(s0: System, q: seq<Step>, step: Step, id: string)
    ensures var s := Run(s0, q);
      && Run(s0, q + [step]) == Next(s, step)
      && LastApply(s0, q + [step], id) == (if Changes(s, step, id) then |q| else LastApply(s0, q, id))
      && WordAt(s0, q + [step], id) ==
           (if Sends(s, step, id) then ReadAt(s0, q, step.h)
            else if Snapshots(s, step) && WordAt(s0, q, id) < 0 then |q| else WordAt(s0, q, id))
      && (CodeTakes(s0, q + [step]) <==> CodeTakes(s0, q) && Coded(s, q, step))
    ensures Ids(q + [step]) == Ids(q) + if step.Apply? then {step.req.requestId} else {}
  {
    assert (q + [step])[..|q|] == q;
  }

  lemma OneMoreRead(s0: System, q: seq<Step>, step: Step, h: nat)
    ensures ReadAt(s0, q + [step], h) == if step == Read(h) && At(Run(s0, q), h, Alerted) then |q| else ReadAt(s0, q, h)
  {
    assert (q + [step])[..|q|] == q;
  }

  lemma OneMoreKept(s0: System, q: seq<Step>, step: Step)
    ensures OneByOne(s0, q + [step]) <==> OneByOne(s0, q) && (step.Apply? ==> Run(s0, q).handlers == map[])
    ensures NothingDropped(s0, q + [step]) <==> NothingDropped(s0, q) && (step.PublishUpdate? ==> Takes(Run(s0, q)))
  {
    assert (q + [step])[..|q|] == q;
  }

  lemma OneMoreMinutes(s0: System, q: seq<Step>, step: Step, id: string)
    ensures var s, earlier := Run(s0, q), MinutesTaken(s0, q, id);
      MinutesTaken(s0, q + [step], id) ==
        var now :=
          if Sends(s, step, id) then MinutesOf(RoomsAt(s0, q, ReadAt(s0, q, step.h)), id)
          else if Snapshots(s, step) && earlier == None then MinutesOf(s.rooms, id)
          else None;
        if now.Some? then now else earlier
  {
    assert (q + [step])[..|q|] == q;
  }

  lemma OneMoreRooms(s0: System, q: seq<Step>, step: Step, k: int)
    requires k <= |q|
    ensures RoomsAt(s0, q + [step], k) == RoomsAt(s0, q, k)
  {
    assert (q + [step])[..|q|] == q;
    RoomsAtEarlier(s0, q + [step], k);
  }

  // ----- one handler, state by state -----

  /** The requests of these runs raise no alert. */
  predicate Plain(req: Server.Request) {
    req.CheckInRequest? || req.CheckOutRequest? || req.PaymentRequest?
  }

  /** `t` is `s` after handler `h` has changed its room and come to `stage`, with `n` events queued. */
  ghost predicate Underway(s: System, t: System, h: nat, req: Server.Request, stage: Stage, n: nat) {
    && t == s.(rooms := Server.ApplyRooms(s.rooms, req, Server.Good(true)),
               handlers := s.handlers[h := Handler(Server.AuditOf(s.rooms, req, Server.Good(true)), stage)],
               queue := t.queue)
    && |t.queue| == n
  }

  function Filled(n: nat): nat {
    if n < QUEUE_CAPACITY then n + 1 else n
  }

  lemma Starts(s: System, h: nat, req: Server.Request)
    requires h !in s.handlers
    ensures Underway(s, Next(s, Apply(h, req, Server.Good(true))), h, req, Applied, |s.queue|)
  {
  }

  lemma Audits(s: System, t: System, h: nat, req: Server.Request, n: nat)
    requires Underway(s, t, h, req, Applied, n) && s.connection == Streaming && n <= QUEUE_CAPACITY
    ensures Underway(s, Next(t, PublishAudit(h)), h, req, Audited, Filled(n))
  {
  }

  lemma Alerts(s: System, t: System, h: nat, req: Server.Request, n: nat)
    requires Underway(s, t, h, req, Audited, n)
    ensures Underway(s, Next(t, PublishAlert(h, false)), h, req, Alerted, n)
  {
  }

  lemma Reads(s: System, t: System, h: nat, req: Server.Request, n: nat)
    requires Underway(s, t, h, req, Alerted, n)
    ensures Underway(s, Next(t, Read(h)), h, req, ReadBack(UpdatePayload(t.rooms, req.roomId)), n)
  {
    AuditRoom(s.rooms, req, Server.Good(true));
  }

  lemma NoAlert(s: System, t: System, h: nat, req: Server.Request, n: nat)
    requires Underway(s, t, h, req, Audited, n) && Plain(req)
    ensures !AlertDue(t.rooms, t.handlers[h].entry)
  {
    assert "check_in"[0] == 'c' && "check_out"[0] == 'c' && "receive_payment"[0] == 'r' && "open_room"[0] == 'o';
  }

  // ----- one handler, as part of a run -----

  function Begun(p: seq<Step>, h: nat, req: Server.Request): seq<Step> {
    p + [Apply(h, req, Server.Good(true))] + [PublishAudit(h)] + [PublishAlert(h, false)] + [Read(h)]
  }

  /** A run that goes on: streaming, nothing on the wire, every step one of the code's. */
  ghost predicate Going(s0: System, p: seq<Step>, n: nat) {
    var s := Run(s0, p);
    s.connection == Streaming && s.wire == [] && |s.queue| == n <= QUEUE_CAPACITY && CodeTakes(s0, p)
  }

  /** The request may start as handler `h` after `p`. */
  ghost predicate MayStart(s0: System, p: seq<Step>, h: nat, req: Server.Request) {
    Plain(req) && h !in Run(s0, p).handlers && req.roomId in Run(s0, p).rooms && req.requestId != "" &&
    req.requestId !in Ids(p)
  }

  /** From `p` to `q` handler `h` has come to `stage`; nothing else has moved. */
  ghost predicate CameTo(s0: System, p: seq<Step>, q: seq<Step>, h: nat, req: Server.Request, stage: Stage, n: nat) {
    && Underway(Run(s0, p), Run(s0, q), h, req, stage, n) && CodeTakes(s0, q)
    && LastApply(s0, q, req.roomId) == |p| && WordAt(s0, q, req.roomId) == WordAt(s0, p, req.roomId)
    && (forall g :: g != h ==> ReadAt(s0, q, g) == ReadAt(s0, p, g))
    && Ids(q) == Ids(p) + {req.requestId} && |p| < |q| && q[|p|] == Apply(h, req, Server.Good(true))
    && MinutesTaken(s0, q, req.roomId) == MinutesTaken(s0, p, req.roomId)
    && (OneByOne(s0, q) <==> OneByOne(s0, p) && Run(s0, p).handlers == map[])
    && (NothingDropped(s0, q) <==> NothingDropped(s0, p))
  }

  lemma ToApplied(s0: System, p: seq<Step>, h: nat, req: Server.Request, n: nat)
    requires Going(s0, p, n) && MayStart(s0, p, h, req)
    ensures CameTo(s0, p, p + [Apply(h, req, Server.Good(true))], h, req, Applied, n)
  {
    var step := Apply(h, req, Server.Good(true));
    OneMore(s0, p, step, req.roomId);
    OneMoreKept(s0, p, step);
    OneMoreMinutes(s0, p, step, req.roomId);
    forall g | g != h ensures ReadAt(s0, p + [step], g) == ReadAt(s0, p, g) {
      OneMoreRead(s0, p, step, g);
    }
    Starts(Run(s0, p), h, req);
  }

  /** A step of the handler that neither changes a room nor sends an update. */
  lemma StepOn(s0: System, p: seq<Step>, q: seq<Step>, h: nat, req: Server.Request, stage: Stage, n: nat, step: Step,
               next: Stage, m: nat)
    requires CameTo(s0, p, q, h, req, stage, n) && Coded(Run(s0, q), q, step)
    requires step == PublishAudit(h) || step == PublishAlert(h, false) || step == Read(h)
    requires Underway(Run(s0, p), Next(Run(s0, q), step), h, req, next, m)
    ensures CameTo(s0, p, q + [step], h, req, next, m)
  {
    OneMore(s0, q, step, req.roomId);
    OneMoreKept(s0, q, step);
    OneMoreMinutes(s0, q, step, req.roomId);
    forall g | g != h ensures ReadAt(s0, q + [step], g) == ReadAt(s0, p, g) {
      OneMoreRead(s0, q, step, g);
    }
  }

  lemma Begins(s0: System, p: seq<Step>, h: nat, req: Server.Request, n: nat)
    requires Going(s0, p, n) && MayStart(s0, p, h, req)
    ensures var q := Begun(p, h, req);
      var payload := UpdatePayload(Server.ApplyRooms(Run(s0, p).rooms, req, Server.Good(true)), req.roomId);
      CameTo(s0, p, q, h, req, ReadBack(payload), Filled(n)) && ReadAt(s0, q, h) == |p| + 3 && |q| == |p| + 4
  {
    var s := Run(s0, p);
    var q1 := p + [Apply(h, req, Server.Good(true))];
    var q2 := q1 + [PublishAudit(h)];
    var q3 := q2 + [PublishAlert(h, false)];
    ToApplied(s0, p, h, req, n);
    Audits(s, Run(s0, q1), h, req, n);
    StepOn(s0, p, q1, h, req, Applied, n, PublishAudit(h), Audited, Filled(n));
    Alerts(s, Run(s0, q2), h, req, Filled(n));
    NoAlert(s, Run(s0, q2), h, req, Filled(n));
    StepOn(s0, p, q2, h, req, Audited, Filled(n), PublishAlert(h, false), Alerted, Filled(n));
    Reads(s, Run(s0, q3), h, req, Filled(n));
    StepOn(s0, p, q3, h, req, Alerted, Filled(n), Read(h), ReadBack(UpdatePayload(Run(s0, q3).rooms, req.roomId)),
      Filled(n));
    OneMoreRead(s0, q3, Read(h), h);
  }

  // ----- a handler publishes its update -----

  /** `t` is `s` without handler `h`, and with `n` events queued. */
  ghost predicate Done(s: System, t: System, h: nat, n: nat) {
    t == s.(handlers := s.handlers - {h}, queue := t.queue) && |t.queue| == n
  }

  lemma Updates(s: System, h: nat)
    requires Holds(s, h) && s.connection == Streaming && |s.queue| <= QUEUE_CAPACITY
    ensures Done(s, Next(s, PublishUpdate(h)), h, Filled(|s.queue|))
    ensures Sends(s, PublishUpdate(h), RoomOf(s, h)) <==> |s.queue| < QUEUE_CAPACITY
  {
  }

  /** A request served from start to end. */
  function Served(p: seq<Step>, h: nat, req: Server.Request): seq<Step> {
    Begun(p, h, req) + [PublishUpdate(h)]
  }

  ghost predicate WasServed(s0: System, p: seq<Step>, q: seq<Step>, h: nat, req: Server.Request, n: nat) {
    var s, t := Run(s0, p), Run(s0, q);
    && t == s.(rooms := Server.ApplyRooms(s.rooms, req, Server.Good(true)), queue := t.queue) &&
       Going(s0, q, Filled(Filled(n)))
    && LastApply(s0, q, req.roomId) == |p| && Ids(q) == Ids(p) + {req.requestId}
    && (forall g :: g != h ==> ReadAt(s0, q, g) == ReadAt(s0, p, g))
    && |q| == |p| + 5 && q[|p|] == Apply(h, req, Server.Good(true))
    && (OneByOne(s0, p) && s.handlers == map[] ==> OneByOne(s0, q))
  }

  lemma Serves(s0: System, p: seq<Step>, h: nat, req: Server.Request, n: nat)
    requires Going(s0, p, n) && MayStart(s0, p, h, req)
    ensures var q := Served(p, h, req);
      && WasServed(s0, p, q, h, req, n)
      && WordAt(s0, q, req.roomId) == (if n < QUEUE_CAPACITY - 1 then |p| + 3 else WordAt(s0, p, req.roomId))
      && (n < QUEUE_CAPACITY - 1 && NothingDropped(s0, p) ==> NothingDropped(s0, q))
  {
    var q := Begun(p, h, req);
    Begins(s0, p, h, req, n);
    AuditRoom(Run(s0, p).rooms, req, Server.Good(true));
    Updates(Run(s0, q), h);
    assert Run(s0, q).handlers - {h} == Run(s0, p).handlers;
    OneMore(s0, q, PublishUpdate(h), req.roomId);
    OneMoreKept(s0, q, PublishUpdate(h));
    forall g | g != h ensures ReadAt(s0, q + [PublishUpdate(h)], g) == ReadAt(s0, p, g) {
      OneMoreRead(s0, q, PublishUpdate(h), g);
    }
  }

  // ----- the client catches up -----

  /** `q` and then only deliveries. */
  ghost predicate OnlyDelivered(s0: System, q: seq<Step>, r: seq<Step>, id: string) {
    && Run(s0, r).rooms == Run(s0, q).rooms && Run(s0, r).handlers == Run(s0, q).handlers
    && LastApply(s0, r, id) == LastApply(s0, q, id) && WordAt(s0, r, id) == WordAt(s0, q, id)
    && MinutesTaken(s0, r, id) == MinutesTaken(s0, q, id)
    && CodeTakes(s0, r) == CodeTakes(s0, q) && OneByOne(s0, r) == OneByOne(s0, q) &&
       NothingDropped(s0, r) == NothingDropped(s0, q)
    && q <= r && forall k :: 0 <= k <= |q| ==> RoomsAt(s0, r, k) == RoomsAt(s0, q, k)
  }

  lemma DeliveryOnly(s0: System, q: seq<Step>, r: seq<Step>, step: Step, id: string)
    requires OnlyDelivered(s0, q, r, id) && (step == Dequeue || step == Deliver)
    ensures OnlyDelivered(s0, q, r + [step], id)
  {
    OneMore(s0, r, step, id);
    OneMoreKept(s0, r, step);
    OneMoreMinutes(s0, r, step, id);
    forall k | 0 <= k <= |q| ensures RoomsAt(s0, r + [step], k) == RoomsAt(s0, q, k) {
      OneMoreRooms(s0, r, step, k);
    }
  }

  lemma OneDelivered(s0: System, q: seq<Step>, r: seq<Step>, n: nat, id: string) returns (next: seq<Step>)
    requires Going(s0, r, n) && n > 0 && OnlyDelivered(s0, q, r, id)
    ensures Going(s0, next, n - 1) && OnlyDelivered(s0, q, next, id)
  {
    OneMore(s0, r, Dequeue, id);
    OneMore(s0, r + [Dequeue], Deliver, id);
    DeliveryOnly(s0, q, r, Dequeue, id);
    DeliveryOnly(s0, q, r + [Dequeue], Deliver, id);
    next := r + [Dequeue] + [Deliver];
  }

  /** Everything that is queued arrives, and nothing else happens. */
  lemma {:induction false} CatchUp(s0: System, q: seq<Step>, r: seq<Step>, n: nat, id: string)
    returns (steps: seq<Step>)
    requires Going(s0, r, n) && OnlyDelivered(s0, q, r, id)
    ensures OnlyDelivered(s0, q, steps, id) && Drained(Run(s0, steps))
    decreases n
  {
    if n == 0 {
      steps := r;
    } else {
      var next := OneDelivered(s0, q, r, n, id);
      steps := CatchUp(s0, q, next, n - 1, id);
    }
  }

  // ----- an idle server and a client that has just connected -----

  function Connected(): seq<Step> {
    [] + [Subscribe] + [WriteFullState] + [Deliver]
  }

  lemma Connects(s0: System, id: string)
    requires Initial(s0)
    ensures var s := Run(s0, Connected());
      && Going(s0, Connected(), 0) && s.rooms == s0.rooms && s.handlers == map[] && Ids(Connected()) == {}
      && OneByOne(s0, Connected()) && NothingDropped(s0, Connected())
      && MinutesTaken(s0, Connected(), id) == MinutesOf(s0.rooms, id)
  {
    ConnectsState(s0, id);
    OneMoreMinutes(s0, [], Subscribe, id);
    OneMoreMinutes(s0, [] + [Subscribe], WriteFullState, id);
    OneMoreMinutes(s0, [] + [Subscribe] + [WriteFullState], Deliver, id);
    OneMoreKept(s0, [], Subscribe);
    OneMoreKept(s0, [] + [Subscribe], WriteFullState);
    OneMoreKept(s0, [] + [Subscribe] + [WriteFullState], Deliver);
  }

  lemma ConnectsState(s0: System, id: string)
    requires Initial(s0)
    ensures Run(s0, [] + [Subscribe]) == s0.(connection := Subscribed)
    ensures Run(s0, [] + [Subscribe] + [WriteFullState]).rooms == s0.rooms
    ensures Run(s0, [] + [Subscribe] + [WriteFullState]).connection == Streaming
    ensures var s := Run(s0, Connected());
      s.connection == Streaming && s.wire == [] && s.queue == [] && s.rooms == s0.rooms && s.handlers == map[]
    ensures CodeTakes(s0, Connected()) && Ids(Connected()) == {}
  {
    OneMore(s0, [], Subscribe, id);
    OneMore(s0, [] + [Subscribe], WriteFullState, id);
    OneMore(s0, [] + [Subscribe] + [WriteFullState], Deliver, id);
  }

  // ----- stale minutes -----

  lemma CheckOutClears(rooms: map<string, Server.RoomState>, id: string)
    requires id in rooms
    ensures var after := Server.ApplyRooms(rooms, Server.CheckOutRequest("a", id), Server.Good(true));
      id in after && after[id] == Server.ApplyCheckOut(rooms[id], 0) && MinutesOf(after, id) == None
  {
  }

  /** A room with minutes left is checked out while the client watches: everything arrives, and the client still
      shows the minutes. */
  lemma MinutesGoStale(s0: System, id: string) returns (steps: seq<Step>)
    requires Initial(s0) && id in s0.rooms && s0.rooms[id].remainingMinutes > 0
    ensures var s := Run(s0, steps);
      && CodeTakes(s0, steps) && OneByOne(s0, steps) && NothingDropped(s0, steps)
      && Drained(s) && s.handlers == map[] && id in s.rooms
      && s.rooms[id] == Server.ApplyCheckOut(s0.rooms[id], 0)
      && MinutesShown(s.client, id) == Some(s0.rooms[id].remainingMinutes)
  {
    var p := Connected();
    var req := Server.CheckOutRequest("a", id);
    var q := Served(p, 0, req);
    Connects(s0, id);
    Serves(s0, p, 0, req, 0);
    CheckOutClears(s0.rooms, id);
    ServedMinutes(s0, p, 0, req, 0);
    steps := CatchUp(s0, q, q, 2, id);
    MinutesConvergeExactlyWhen(s0, steps, id);
  }

  /** A request that leaves its room without minutes adds none to what has been taken. */
  lemma ServedMinutes(s0: System, p: seq<Step>, h: nat, req: Server.Request, n: nat)
    requires Going(s0, p, n) && MayStart(s0, p, h, req)
    requires MinutesOf(Server.ApplyRooms(Run(s0, p).rooms, req, Server.Good(true)), req.roomId) == None
    ensures MinutesTaken(s0, Served(p, h, req), req.roomId) == MinutesTaken(s0, p, req.roomId)
  {
    var q3 := p + [Apply(h, req, Server.Good(true))] + [PublishAudit(h)] + [PublishAlert(h, false)];
    var q := Begun(p, h, req);
    Begins(s0, p, h, req, n);
    OneMoreMinutes(s0, q, PublishUpdate(h), req.roomId);
    OneMoreRooms(s0, q3, Read(h), |p| + 3);
    OneMore(s0, q3, Read(h), req.roomId);
    assert RoomsAt(s0, q3, |p| + 3) == Run(s0, q3).rooms;
  }

  // ----- overlapping handlers -----

  function Payment(k: nat, id: string): Server.Request {
    Server.PaymentRequest(Name(k), id, 1.0, "cash", "r")
  }

  function Name(k: nat): (s: string)
    ensures |s| == k + 2
  {
    if k == 0 then "pp" else Name(k - 1) + "p"
  }

  /** A payment is read back, then a check-in or check-out of the same room is served, and then the payment's update is
      published: nothing is dropped, and the client ends with the status before. */
  lemma OverlapDiverges(s0: System, id: string) returns (steps: seq<Step>)
    requires Initial(s0) && id in s0.rooms
    ensures CodeTakes(s0, steps) && NothingDropped(s0, steps)
    ensures Drained(Run(s0, steps)) && Run(s0, steps).handlers == map[] && !AgreesOn(s0, steps, id)
  {
    var p := Connected();
    Connects(s0, id);
    var q1 := Begun(p, 0, Payment(0, id));
    Begins(s0, p, 0, Payment(0, id), 0);
    RunPlumbing(s0, q1);
    AuditRoom(s0.rooms, Payment(0, id), Server.Good(true));
    RoomsAtKeys(s0, q1, |p| + 3);
    var status := RoomsAt(s0, q1, |p| + 3)[id].status;
    var q3 := Overtaken(s0, q1, id, status, |p| + 3);
    steps := CatchUp(s0, q3, q3, 4, id);
    TurnedDisagrees(s0, steps, "a", id, status);
  }

  /** Handler 0 of the room has read; handler 1 serves another request for it and then 0 publishes. */
  lemma Overtaken(s0: System, q1: seq<Step>, id: string, status: Database.RoomStatus, w: nat) returns (q3: seq<Step>)
    requires Going(s0, q1, 1) && id in Run(s0, q1).rooms && NothingDropped(s0, q1) && "a" !in Ids(q1)
    requires Holds(Run(s0, q1), 0) && RoomOf(Run(s0, q1), 0) == id && Run(s0, q1).handlers.Keys == {0}
    requires ReadAt(s0, q1, 0) == w < |q1|
    ensures Going(s0, q3, 4) && NothingDropped(s0, q3) && Run(s0, q3).handlers == map[]
    ensures WordAt(s0, q3, id) == w && LastApply(s0, q3, id) == |q1| < |q3|
    ensures q3[|q1|] == Apply(1, Turned("a", id, status), Server.Good(true)) && RoomsAt(s0, q3, w) == RoomsAt(s0, q1, w)
  {
    var req := Turned("a", id, status);
    var q2 := Served(q1, 1, req);
    q3 := q2 + [PublishUpdate(0)];
    Serves(s0, q1, 1, req, 1);
    Updates(Run(s0, q2), 0);
    OneMore(s0, q2, PublishUpdate(0), id);
    OneMoreKept(s0, q2, PublishUpdate(0));
    assert Run(s0, q2).handlers - {0} == map[];
    ServedRooms(s0, q1, 1, req, w);
    OneMoreRooms(s0, q2, PublishUpdate(0), w);
  }

  lemma ServedRooms(s0: System, p: seq<Step>, h: nat, req: Server.Request, k: int)
    requires k <= |p|
    ensures RoomsAt(s0, Served(p, h, req), k) == RoomsAt(s0, p, k)
  {
    var q1 := p + [Apply(h, req, Server.Good(true))];
    OneMoreRooms(s0, p, Apply(h, req, Server.Good(true)), k);
    OneMoreRooms(s0, q1, PublishAudit(h), k);
    OneMoreRooms(s0, q1 + [PublishAudit(h)], PublishAlert(h, false), k);
    OneMoreRooms(s0, q1 + [PublishAudit(h)] + [PublishAlert(h, false)], Read(h), k);
    OneMoreRooms(s0, Begun(p, h, req), PublishUpdate(h), k);
  }

  // ----- a full queue -----

  /** `k` payments have been served and not read. */
  ghost predicate Unread(s0: System, q: seq<Step>, id: string, k: nat) {
    && Going(s0, q, 2 * k) && Run(s0, q).handlers == map[] && id in Run(s0, q).rooms && OneByOne(s0, q)
    && forall x :: x in Ids(q) ==> 2 <= |x| < k + 2
  }

  lemma OnePayment(s0: System, p: seq<Step>, id: string, k: nat) returns (q: seq<Step>)
    requires Initial(s0) && id in s0.rooms && Unread(s0, p, id, k) && 2 * k + 2 <= QUEUE_CAPACITY
    ensures Unread(s0, q, id, k + 1)
  {
    q := Served(p, 0, Payment(k, id));
    Serves(s0, p, 0, Payment(k, id), 2 * k);
    RunPlumbing(s0, q);
  }

  /** Payments for the room, one after the other. */
  lemma {:induction false} PaymentsServed(s0: System, p: seq<Step>, id: string, k: nat) returns (q: seq<Step>)
    requires Initial(s0) && id in s0.rooms && 2 * k <= QUEUE_CAPACITY && Unread(s0, p, id, 0)
    ensures Unread(s0, q, id, k)
    decreases k
  {
    if k == 0 {
      q := p;
    } else {
      var before := PaymentsServed(s0, p, id, k - 1);
      q := OnePayment(s0, before, id, k - 1);
    }
  }

  /** Half the queue's capacity of unread payments fills it; the update of the next request, which turns the room's
      status, is dropped, and the client ends with the status before. */
  lemma FullQueueDiverges(s0: System, id: string) returns (steps: seq<Step>)
    requires Initial(s0) && id in s0.rooms
    ensures CodeTakes(s0, steps) && OneByOne(s0, steps)
    ensures Drained(Run(s0, steps)) && Run(s0, steps).handlers == map[] && !AgreesOn(s0, steps, id)
  {
    steps := DroppedUpdate(s0, id, QUEUE_CAPACITY / 2);
  }

  /** The queue is full: the update of one more request is dropped. */
  lemma UpdateDropped(s0: System, p: seq<Step>, id: string, k: nat, status: Database.RoomStatus, w: int)
    returns (q: seq<Step>)
    requires Unread(s0, p, id, k) && 2 * k == QUEUE_CAPACITY && w == WordAt(s0, p, id)
    ensures Going(s0, q, 2 * k) && OneByOne(s0, q) && Run(s0, q).handlers == map[]
    ensures WordAt(s0, q, id) == w && LastApply(s0, q, id) == |p| < |q|
    ensures q[|p|] == Apply(0, Turned("a", id, status), Server.Good(true)) && RoomsAt(s0, q, w) == RoomsAt(s0, p, w)
  {
    q := Served(p, 0, Turned("a", id, status));
    Serves(s0, p, 0, Turned("a", id, status), 2 * k);
    ServedRooms(s0, p, 0, Turned("a", id, status), w);
  }

  lemma DroppedUpdate(s0: System, id: string, k: nat) returns (steps: seq<Step>)
    requires Initial(s0) && id in s0.rooms && 2 * k == QUEUE_CAPACITY
    ensures CodeTakes(s0, steps) && OneByOne(s0, steps)
    ensures Drained(Run(s0, steps)) && Run(s0, steps).handlers == map[] && !AgreesOn(s0, steps, id)
  {
    Connects(s0, id);
    var p := PaymentsServed(s0, Connected(), id, k);
    var w := WordAt(s0, p, id);
    RunWord(s0, p, id);
    RoomsAtKeys(s0, p, w);
    var status := RoomsAt(s0, p, w)[id].status;
    var q := UpdateDropped(s0, p, id, k, status, w);
    steps := CatchUp(s0, q, q, 2 * k, id);
    TurnedDisagrees(s0, steps, "a", id, status);
  }
}
