/** What decides convergence is the schedule; and runs of the code, step by step, in which it fails. */
module ReplicationRuns {
  import opened Core
  import Database
  import Server
  import opened Payloads
  import opened Client
  import opened Replication

  // ----- runs of one schedule -----

  /** The same step, but a handler may serve another request for the same room. */
  predicate SameStep(a: Step, b: Step) {
    a == b || (a.Apply? && b.Apply? && a.h == b.h && a.req.roomId == b.req.roomId)
  }

  predicate SameSchedule(a: seq<Step>, b: seq<Step>) {
    |a| == |b| && (a == [] || (SameStep(a[|a| - 1], b[|b| - 1]) && SameSchedule(a[..|a| - 1], b[..|b| - 1])))
  }

  predicate SameStage(a: Stage, b: Stage) {
    a == b || (a.ReadBack? && b.ReadBack?)
  }

  predicate SameProgress(a: Handler, b: Handler) {
    a.entry.roomId == b.entry.roomId && SameStage(a.stage, b.stage)
  }

  /** Alike in everything a schedule decides. */
  predicate Similar(s: System, t: System) {
    && s.connection == t.connection && |s.queue| == |t.queue| && |s.wire| == |t.wire|
    && s.handlers.Keys == t.handlers.Keys
    && forall h :: h in s.handlers ==> SameProgress(s.handlers[h], t.handlers[h])
  }

  lemma SimilarNext(s: System, t: System, a: Step, b: Step)
    requires Similar(s, t) && SameStep(a, b)
    ensures Similar(Next(s, a), Next(t, b))
  {
    match a
    case Apply(h, req, env) => SimilarApply(s, t, h, req, env, b.req, b.env);
    case PublishAudit(h) => SimilarAudit(s, t, h);
    case PublishAlert(h, raised) => SimilarAlert(s, t, h, raised);
    case Read(h) => SimilarRead(s, t, h);
    case PublishUpdate(h) => SimilarUpdate(s, t, h);
    case Subscribe =>
    case WriteFullState =>
    case Dequeue =>
    case Deliver =>
  }

  lemma SimilarAudit(s: System, t: System, h: nat)
    requires Similar(s, t)
    ensures Similar(Next(s, PublishAudit(h)), Next(t, PublishAudit(h)))
  {
  }

  lemma SimilarAlert(s: System, t: System, h: nat, raised: bool)
    requires Similar(s, t)
    ensures Similar(Next(s, PublishAlert(h, raised)), Next(t, PublishAlert(h, raised)))
  {
  }

  lemma SimilarRead(s: System, t: System, h: nat)
    requires Similar(s, t)
    ensures Similar(Next(s, Read(h)), Next(t, Read(h)))
  {
  }

  lemma AuditRoom(rooms: map<string, Server.RoomState>, req: Server.Request, env: Server.Env)
    ensures Server.AuditOf(rooms, req, env).roomId == req.roomId
  {
  }

  lemma SimilarApply(s: System, t: System, h: nat, req: Server.Request, env: Server.Env, other: Server.Request,
                     otherEnv: Server.Env)
    requires Similar(s, t) && req.roomId == other.roomId
    ensures Similar(Next(s, Apply(h, req, env)), Next(t, Apply(h, other, otherEnv)))
  {
    AuditRoom(s.rooms, req, env);
    AuditRoom(t.rooms, other, otherEnv);
  }

  lemma SimilarUpdate(s: System, t: System, h: nat)
    requires Similar(s, t)
    ensures Similar(Next(s, PublishUpdate(h)), Next(t, PublishUpdate(h)))
  {
  }

  lemma {:induction false} SimilarRun(s0: System, a: seq<Step>, b: seq<Step>)
    requires SameSchedule(a, b)
    ensures Similar(Run(s0, a), Run(s0, b))
  {
    if a != [] {
      SimilarRun(s0, a[..|a| - 1], b[..|b| - 1]);
      SimilarNext(Run(s0, a[..|a| - 1]), Run(s0, b[..|b| - 1]), a[|a| - 1], b[|b| - 1]);
    }
  }

  lemma {:induction false} SameLastApply(s0: System, a: seq<Step>, b: seq<Step>, id: string)
    requires SameSchedule(a, b)
    ensures LastApply(s0, a, id) == LastApply(s0, b, id)
  {
    if a != [] {
      SimilarRun(s0, a[..|a| - 1], b[..|b| - 1]);
      SameLastApply(s0, a[..|a| - 1], b[..|b| - 1], id);
    }
  }

  lemma {:induction false} SameReadAt(s0: System, a: seq<Step>, b: seq<Step>, h: nat)
    requires SameSchedule(a, b)
    ensures ReadAt(s0, a, h) == ReadAt(s0, b, h)
  {
    if a != [] {
      SimilarRun(s0, a[..|a| - 1], b[..|b| - 1]);
      SameReadAt(s0, a[..|a| - 1], b[..|b| - 1], h);
    }
  }

  lemma {:induction false} SameWordAt(s0: System, a: seq<Step>, b: seq<Step>, id: string)
    requires SameSchedule(a, b)
    ensures WordAt(s0, a, id) == WordAt(s0, b, id)
  {
    if a != [] {
      var beforeA, beforeB := a[..|a| - 1], b[..|b| - 1];
      SimilarRun(s0, beforeA, beforeB);
      SameWordAt(s0, beforeA, beforeB, id);
      if a[|a| - 1].PublishUpdate? {
        SameReadAt(s0, beforeA, beforeB, a[|a| - 1].h);
      }
    }
  }

  // ----- one request replaced -----

  /** The request ids of the handlers that start. */
  function Ids(steps: seq<Step>): set<string> {
    if steps == [] then {}
    else
      var last := steps[|steps| - 1];
      Ids(steps[..|steps| - 1]) + if last.Apply? then {last.req.requestId} else {}
  }

  /** An id longer than all of these. */
  function NewId(steps: seq<Step>): (id: string)
    ensures id != ""
  {
    if steps == [] then "a"
    else
      var last, before := steps[|steps| - 1], NewId(steps[..|steps| - 1]);
      if last.Apply? then before + last.req.requestId else before
  }

  lemma {:induction false} IdsAreShorter(steps: seq<Step>, id: string)
    requires id in Ids(steps)
    ensures |id| < |NewId(steps)|
  {
    var n := |steps| - 1;
    if id in Ids(steps[..n]) {
      IdsAreShorter(steps[..n], id);
    }
  }

  lemma {:induction false} SameAsItself(a: seq<Step>)
    ensures SameSchedule(a, a)
  {
    if a != [] {
      SameAsItself(a[..|a| - 1]);
    }
  }

  lemma {:induction false} ReplacedSchedule(a: seq<Step>, i: nat, x: Step)
    requires i < |a| && SameStep(a[i], x)
    ensures SameSchedule(a, a[i := x])
  {
    var n := |a| - 1;
    if i == n {
      assert a[i := x][..n] == a[..n];
      SameAsItself(a[..n]);
    } else {
      ReplacedSchedule(a[..n], i, x);
      assert a[i := x][..n] == a[..n][i := x];
    }
  }

  /** What happened before the replaced step is as it was. */
  lemma {:induction false} ReplacedLater(s0: System, a: seq<Step>, i: nat, x: Step, k: int)
    requires i < |a| && 0 <= k <= i
    ensures RoomsAt(s0, a[i := x], k) == RoomsAt(s0, a, k)
  {
    var n := |a| - 1;
    RoomsAtEarlier(s0, a, k);
    RoomsAtEarlier(s0, a[i := x], k);
    if i == n {
      assert a[i := x][..n] == a[..n];
    } else {
      ReplacedLater(s0, a[..n], i, x, k);
      assert a[i := x][..n] == a[..n][i := x];
    }
  }

  lemma ChangedRoom(s: System, step: Step, id: string)
    requires Changes(s, step, id) && id in s.rooms
    ensures id in Next(s, step).rooms && Next(s, step).rooms[id] == Server.ApplyTo(s.rooms[id], step.req, step.env)
  {
  }

  /** Step `i` made of the room what its request says. */
  ghost predicate Applied(s0: System, steps: seq<Step>, i: nat, id: string) {
    && i < |steps| && steps[i].Apply? && steps[i].req.roomId == id && id in RoomsAt(s0, steps, i) &&
       id in RoomsAt(s0, steps, i + 1)
    && RoomsAt(s0, steps, i + 1)[id] == Server.ApplyTo(RoomsAt(s0, steps, i)[id], steps[i].req, steps[i].env)
  }

  lemma AppliedLater(s0: System, steps: seq<Step>, i: nat, id: string)
    requires i < |steps| - 1 && Applied(s0, steps[..|steps| - 1], i, id)
    ensures Applied(s0, steps, i, id)
  {
    RoomsAtEarlier(s0, steps, i);
    RoomsAtEarlier(s0, steps, i + 1);
  }

  lemma AppliedLast(s0: System, steps: seq<Step>, id: string)
    requires Initial(s0) && id in s0.rooms && steps != []
    requires Changes(Run(s0, steps[..|steps| - 1]), steps[|steps| - 1], id)
    ensures Applied(s0, steps, |steps| - 1, id)
  {
    var n := |steps| - 1;
    RunPlumbing(s0, steps[..n]);
    RoomsAtEarlier(s0, steps, n);
    ChangedRoom(Run(s0, steps[..n]), steps[n], id);
  }

  lemma {:induction false} AppliedAt(s0: System, steps: seq<Step>, id: string)
    requires Initial(s0) && id in s0.rooms && LastApply(s0, steps, id) >= 0
    ensures Applied(s0, steps, LastApply(s0, steps, id), id)
  {
    var n := |steps| - 1;
    if Changes(Run(s0, steps[..n]), steps[n], id) {
      AppliedLast(s0, steps, id);
    } else {
      AppliedAt(s0, steps[..n], id);
      AppliedLater(s0, steps, LastApply(s0, steps, id), id);
    }
  }

  /** A request that leaves the room in another status than this one. */
  function Turned(requestId: string, id: string, status: Database.RoomStatus): Server.Request {
    if status == Database.Occupied then Server.CheckOutRequest(requestId, id)
    else Server.CheckInRequest(requestId, id, "overnight", "", 0, 0.0, "")
  }

  lemma TurnedDiffers(room: Server.RoomState, requestId: string, id: string, status: Database.RoomStatus)
    ensures Turned(requestId, id, status).roomId == id
    ensures Server.ApplyTo(room, Turned(requestId, id, status), Server.Good(true)).status != status
  {
  }

  ghost predicate AgreesOn(s0: System, steps: seq<Step>, id: string) {
    var s := Run(s0, steps);
    id in s.rooms && s.rooms[id].roomId == id && ShownAsIs(s.client, s.rooms[id])
  }

  /** Same schedule, same moments. */
  lemma SameMoments(s0: System, a: seq<Step>, b: seq<Step>, id: string)
    requires SameSchedule(a, b)
    ensures Drained(Run(s0, a)) <==> Drained(Run(s0, b))
    ensures LastApply(s0, a, id) == LastApply(s0, b, id) && WordAt(s0, a, id) == WordAt(s0, b, id)
  {
    SimilarRun(s0, a, b);
    SameWordAt(s0, a, b, id);
    SameLastApply(s0, a, b, id);
  }

  /** A run in which the room's last request leaves it in another status than the client was told disagrees. */
  lemma TurnedDisagrees(s0: System, steps: seq<Step>, requestId: string, id: string, status: Database.RoomStatus)
    requires Initial(s0) && Drained(Run(s0, steps)) && id in s0.rooms && LastApply(s0, steps, id) >= 0
    requires var w := WordAt(s0, steps, id); id in RoomsAt(s0, steps, w) && RoomsAt(s0, steps, w)[id].status == status
    requires var last := steps[LastApply(s0, steps, id)];
      last.Apply? && last.req == Turned(requestId, id, status) && last.env == Server.Good(true)
    ensures !AgreesOn(s0, steps, id)
  {
    var i := LastApply(s0, steps, id);
    AppliedAt(s0, steps, id);
    TurnedDiffers(RoomsAt(s0, steps, i)[id], requestId, id, status);
    UnchangedSince(s0, steps, i + 1, id);
    ClientConverges(s0, steps, id);
  }

  /** A stale schedule with one request replaced, by one under an id no other handler has, so that the client
      disagrees. */
  lemma StaleDisagrees(s0: System, steps: seq<Step>, id: string) returns (other: seq<Step>)
    requires Initial(s0) && Drained(Run(s0, steps)) && id in s0.rooms && !Fresh(s0, steps, id)
    ensures SameSchedule(steps, other) && !AgreesOn(s0, other, id)
    ensures var i := LastApply(s0, steps, id);
      && 0 <= i && |other| == |steps| && other == steps[i := other[i]]
      && other[i].Apply? && other[i].req.requestId != "" && other[i].req.requestId !in Ids(steps)
  {
    var w, i := WordAt(s0, steps, id), LastApply(s0, steps, id);
    ClientShowsLastWord(s0, steps, id);
    AppliedAt(s0, steps, id);
    var status := RoomsAt(s0, steps, w)[id].status;
    var requestId := NewId(steps);
    if requestId in Ids(steps) {
      IdsAreShorter(steps, requestId);
    }
    var x := Apply(steps[i].h, Turned(requestId, id, status), Server.Good(true));
    other := steps[i := x];
    ReplacedSchedule(steps, i, x);
    SameMoments(s0, steps, other, id);
    ReplacedLater(s0, steps, i, x, w);
    TurnedDisagrees(s0, other, requestId, id, status);
  }

  /** For every schedule that ends with everything arrived: the client agrees with the server on a room whatever the
      requests were, if and only if the last word on the room was taken after the room's last change - a later update
      that the queue dropped, or one read before the change, is no such word. */
  lemma ConvergesExactlyWhen(s0: System, steps: seq<Step>, id: string)
    requires Initial(s0) && Drained(Run(s0, steps)) && id in s0.rooms
    ensures (forall other :: SameSchedule(steps, other) ==> AgreesOn(s0, other, id)) <==> Fresh(s0, steps, id)
  {
    if Fresh(s0, steps, id) {
      forall other | SameSchedule(steps, other) ensures AgreesOn(s0, other, id) {
        SameMoments(s0, steps, other, id);
        ClientConverges(s0, other, id);
      }
    } else {
      var other := StaleDisagrees(s0, steps, id);
    }
  }
}
