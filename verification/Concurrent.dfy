/** The five handlers as the server runs them, side by side: each drives the relay, reads the room, commits its
    transaction and applies its change to the room in memory, and other handlers may come in between
    (`httpapi/server.go`). */
module Concurrent {
  import opened Core
  import opened Bits
  import opened Database
  import opened Ledger
  import opened Server
  import opened Mirror
  import opened Relay
  import Frames
  import Transport

  /** What each handler serves, and what the world decides for it. A handler is numbered once. */
  type Plan = nat -> Exchange

  /** How far a handler has come; an extension remembers the minutes it read. */
  datatype Stage = Driven | HasRead(minutes: int) | Committed | Applied | Refused(outcome: Outcome)

  datatype State = State(rooms: map<string, RoomState>, db: Tables, link: Transport.Link, jobs: map<nat, Stage>)

  datatype Step = Drive(h: nat) | Read(h: nat) | Commit(h: nat) | Apply(h: nat)

  function Driving(repo: Transport.Repository, x: Exchange, s: State): (Transport.Link, Stage) {
    if !Known(x.req) then (s.link, Refused(InvalidAction))
    else if x.req.PaymentRequest? && x.req.roomId !in s.rooms then (s.link, Refused(RoomNotFound))
    else
      var (link, driven) := Server.Drive(repo, s.link, x.req, x.env);
      (link, if driven then Driven else Refused(TransportError))
  }

  function Reading(x: Exchange, s: State): Stage {
    if x.req.CheckInRequest? && x.req.roomId !in s.rooms then Refused(RoomNotFound)
    else HasRead(CurrentMinutes(s.rooms, x.req.roomId))
  }

  function CallOf(x: Exchange, minutes: int): Call {
    Call(TxnOf(minutes, x.req, x.env), x.env.healthy)
  }

  predicate At(s: State, h: nat, stage: Stage) {
    h in s.jobs && s.jobs[h] == stage
  }

  /** A step that is not the handler's next leaves everything as it is. */
  function Next(repo: Transport.Repository, plan: Plan, s: State, step: Step): State {
    match step
    case Drive(h) =>
      if h in s.jobs then s
      else
        var (link, stage) := Driving(repo, plan(h), s);
        s.(link := link, jobs := s.jobs[h := stage])
    case Read(h) =>
      if At(s, h, Driven) then s.(jobs := s.jobs[h := Reading(plan(h), s)]) else s
    case Commit(h) =>
      if h !in s.jobs || !s.jobs[h].HasRead? then s
      else
        var call := CallOf(plan(h), s.jobs[h].minutes);
        if Commits(s.db, call) then s.(db := WithTx(s.db, call), jobs := s.jobs[h := Committed])
        else s.(jobs := s.jobs[h := Refused(DbWriteFailed)])
    case Apply(h) =>
      if At(s, h, Committed)
      then s.(rooms := ApplyRooms(s.rooms, plan(h).req, plan(h).env), jobs := s.jobs[h := Applied])
      else s
  }

  /** A server on a new database. */
  function Start(repo: Transport.Repository): State {
    var s := Boot(repo, Tables(map[], [], [], []), 0);
    State(s.rooms, s.db, s.link, map[])
  }

  /** One way the handlers may run. */
  datatype Trace = Trace(repo: Transport.Repository, plan: Plan, steps: seq<Step>)

  /** The server after the first `n` steps. */
  function StateAt(tr: Trace, n: nat): State
    requires n <= |tr.steps|
  {
    if n == 0 then Start(tr.repo) else Next(tr.repo, tr.plan, StateAt(tr, n - 1), tr.steps[n - 1])
  }

  function End(tr: Trace): State {
    StateAt(tr, |tr.steps|)
  }

  // ----- one handler by itself is the request served at once -----

  function Alone(repo: Transport.Repository, plan: Plan, s: State, h: nat): State {
    Next(repo, plan, Next(repo, plan, Next(repo, plan, Next(repo, plan, s, Drive(h)), Read(h)), Commit(h)), Apply(h))
  }

  lemma AloneIsServe(repo: Transport.Repository, plan: Plan, s: State, h: nat, audit: seq<Audit>)
    requires h !in s.jobs
    ensures var t := Alone(repo, plan, s, h);
      var (after, outcome) := Serve(repo, ServerState(s.rooms, audit, s.db, s.link), plan(h).req, plan(h).env);
      && t.rooms == after.rooms && t.db == after.db && t.link == after.link
      && At(t, h, if outcome == Accepted then Applied else Refused(outcome))
  {
    var s1 := Next(repo, plan, s, Drive(h));
    var s2 := Next(repo, plan, s1, Read(h));
    if s1.jobs[h] != Driven {
      RefusedStays(repo, plan, s1, h);
    } else if !s2.jobs[h].HasRead? {
      RefusedStays(repo, plan, s2, h);
    } else {
      CommitsAlone(repo, plan, s2, h);
    }
  }

  lemma RefusedStays(repo: Transport.Repository, plan: Plan, s: State, h: nat)
    requires h in s.jobs && s.jobs[h].Refused?
    ensures forall step: Step :: step.h == h ==> Next(repo, plan, s, step) == s
  {
  }

  lemma CommitsAlone(repo: Transport.Repository, plan: Plan, s: State, h: nat)
    requires h in s.jobs && s.jobs[h].HasRead?
    ensures var t := Next(repo, plan, Next(repo, plan, s, Commit(h)), Apply(h));
      var call := CallOf(plan(h), s.jobs[h].minutes);
      && t.link == s.link && t.db == WithTx(s.db, call)
      && t.rooms == (if Commits(s.db, call) then ApplyRooms(s.rooms, plan(h).req, plan(h).env) else s.rooms)
      && At(t, h, if Commits(s.db, call) then Applied else Refused(DbWriteFailed))
  {
  }

  // ----- when a handler did what -----

  /** The handler has come past this step. */
  predicate Reached(s: State, x: Step) {
    x.h in s.jobs &&
    match x
    case Drive(_) => true
    case Read(h) => s.jobs[h] != Driven && (s.jobs[h].Refused? ==> s.jobs[h].outcome == DbWriteFailed)
    case Commit(h) => s.jobs[h] == Committed || s.jobs[h] == Applied
    case Apply(h) => s.jobs[h] == Applied
  }

  /** Whether the handler is past this step after `n` steps. */
  function Past(tr: Trace, x: Step): nat -> bool {
    (n: nat) => Reached(StateAt(tr, if n < |tr.steps| then n else |tr.steps|), x)
  }

  /** The number of the first of `n` steps that brings this about; -1 if none does. */
  function FirstTime(done: nat -> bool, n: nat): (k: int)
    ensures -1 <= k < n
  {
    if n == 0 then -1 else if done(n) && !done(n - 1) then n - 1 else FirstTime(done, n - 1)
  }

  /** The number of the step that did this; -1 if none has. */
  function DoneAt(tr: Trace, x: Step): (k: int)
    ensures -1 <= k < |tr.steps|
  {
    FirstTime(Past(tr, x), |tr.steps|)
  }

  ghost predicate Lasting(done: nat -> bool) {
    !done(0) && forall a: nat, b: nat :: a <= b && done(a) ==> done(b)
  }

  lemma {:induction false} FirstTimeWhen(done: nat -> bool, n: nat, m: nat)
    requires Lasting(done) && n <= m
    ensures done(n) <==> 0 <= FirstTime(done, m) < n
    decreases m
  {
    if m > 0 {
      if n < m {
        FirstTimeWhen(done, n, m - 1);
      }
      FirstTimeWhen(done, m - 1, m - 1);
    }
  }

  lemma ReachedStays(repo: Transport.Repository, plan: Plan, s: State, step: Step, x: Step)
    ensures Reached(s, x) ==> Reached(Next(repo, plan, s, step), x)
    ensures Reached(Next(repo, plan, s, step), x) ==> Reached(s, x) || step == x
  {
  }

  lemma {:induction false} ReachedLater(tr: Trace, x: Step, a: nat, b: nat)
    requires a <= b <= |tr.steps| && Reached(StateAt(tr, a), x)
    ensures Reached(StateAt(tr, b), x)
    decreases b
  {
    if a < b {
      ReachedLater(tr, x, a, b - 1);
      ReachedStays(tr.repo, tr.plan, StateAt(tr, b - 1), tr.steps[b - 1], x);
    }
  }

  lemma PastFrom(tr: Trace, x: Step, a: nat, b: nat)
    requires a <= b && Past(tr, x)(a)
    ensures Past(tr, x)(b)
  {
    ReachedLater(tr, x, if a < |tr.steps| then a else |tr.steps|, if b < |tr.steps| then b else |tr.steps|);
  }

  lemma NothingAtStart(tr: Trace, x: Step)
    ensures !Past(tr, x)(0)
  {
    assert !Reached(Start(tr.repo), x);
    assert StateAt(tr, 0) == Start(tr.repo);
  }

  lemma PastLasts(tr: Trace, x: Step)
    ensures Lasting(Past(tr, x))
  {
    NothingAtStart(tr, x);
    forall a: nat, b: nat | a <= b && Past(tr, x)(a) ensures Past(tr, x)(b) {
      PastFrom(tr, x, a, b);
    }
  }

  /** A handler is past a step exactly from the moment it did it. */
  lemma ReachedWhen(tr: Trace, x: Step, n: nat)
    requires n <= |tr.steps|
    ensures Reached(StateAt(tr, n), x) <==> 0 <= DoneAt(tr, x) < n
  {
    PastLasts(tr, x);
    FirstTimeWhen(Past(tr, x), n, |tr.steps|);
  }

  lemma DoneIsStep(tr: Trace, x: Step)
    ensures DoneAt(tr, x) >= 0 ==> tr.steps[DoneAt(tr, x)] == x
  {
    var k := DoneAt(tr, x);
    if k >= 0 {
      ReachedWhen(tr, x, k);
      ReachedWhen(tr, x, k + 1);
      ReachedStays(tr.repo, tr.plan, StateAt(tr, k), tr.steps[k], x);
    }
  }

  /** The moments of a trace, as a function of the step. */
  function Times(tr: Trace): Step -> int {
    (x: Step) => DoneAt(tr, x)
  }

  predicate Precedes(at: Step -> int, x: Step, y: Step) {
    0 <= at(x) < at(y)
  }

  /** Each handler reads, then commits, then applies, and one step does one thing. */
  ghost predicate Timed(at: Step -> int) {
    && (forall h: nat :: at(Commit(h)) >= 0 ==> Precedes(at, Read(h), Commit(h)))
    && (forall h: nat :: at(Apply(h)) >= 0 ==> Precedes(at, Commit(h), Apply(h)))
    && (forall x, y :: at(x) >= 0 && at(x) == at(y) ==> x == y)
  }

  lemma TimesAreTimed(tr: Trace)
    ensures Timed(Times(tr))
  {
    var at := Times(tr);
    forall h: nat | at(Commit(h)) >= 0 ensures Precedes(at, Read(h), Commit(h)) {
      OneAfterTheOther(tr, Read(h), Commit(h));
    }
    forall h: nat | at(Apply(h)) >= 0 ensures Precedes(at, Commit(h), Apply(h)) {
      OneAfterTheOther(tr, Commit(h), Apply(h));
    }
    forall x, y | at(x) >= 0 && at(x) == at(y) ensures x == y {
      DoneIsStep(tr, x);
      DoneIsStep(tr, y);
    }
  }

  lemma OneAfterTheOther(tr: Trace, x: Step, y: Step)
    requires x.h == y.h && ((x.Read? && y.Commit?) || (x.Commit? && y.Apply?)) && DoneAt(tr, y) >= 0
    ensures 0 <= DoneAt(tr, x) < DoneAt(tr, y)
  {
    var n := DoneAt(tr, y);
    DoneIsStep(tr, y);
    ReachedWhen(tr, y, n);
    ReachedWhen(tr, y, n + 1);
    ReachedWhen(tr, x, n);
    NeedsEarlier(tr.repo, tr.plan, StateAt(tr, n), x, y);
  }

  lemma NeedsEarlier(repo: Transport.Repository, plan: Plan, s: State, x: Step, y: Step)
    requires x.h == y.h && ((x.Read? && y.Commit?) || (x.Commit? && y.Apply?))
    requires Reached(Next(repo, plan, s, y), y) && !Reached(s, y)
    ensures Reached(s, x)
  {
  }

  // ----- the schedule under which a room keeps its row -----

  predicate OfRoom(plan: Plan, h: nat, id: string) {
    plan(h).req.roomId == id
  }

  predicate Extends(plan: Plan, h: nat) {
    plan(h).req.ExtendRequest?
  }

  /** The handlers of the room apply in the order they commit, and an extension reads the room after every handler
      that commits before it has applied. */
  ghost predicate OrderlyTimes(at: Step -> int, plan: Plan, id: string) {
    forall g: nat, h: nat :: OfRoom(plan, g, id) && OfRoom(plan, h, id) && Precedes(at, Commit(g), Commit(h)) ==>
      && (at(Apply(h)) >= 0 ==> Precedes(at, Apply(g), Apply(h)))
      && (Extends(plan, h) ==> Precedes(at, Apply(g), Read(h)))
  }

  ghost predicate Orderly(tr: Trace, id: string) {
    OrderlyTimes(Times(tr), tr.plan, id)
  }

  /** No handler of the room is between its commit and its apply. */
  ghost predicate Settled(plan: Plan, s: State, id: string) {
    forall h :: h in s.jobs && OfRoom(plan, h, id) ==> s.jobs[h] != Committed
  }

  ghost predicate ConsistentPlan(plan: Plan) {
    forall h: nat :: Consistent(plan(h).req)
  }

  /** Between commit and apply after `n` steps. */
  predicate Pending(at: Step -> int, h: nat, n: nat) {
    0 <= at(Commit(h)) < n && !(0 <= at(Apply(h)) < n)
  }

  function NextQueue(q: seq<nat>, step: Step): seq<nat> {
    if step.Commit? then q + [step.h] else if step.Apply? && q != [] then q[1..] else q
  }

  /** The handlers of the room between commit and apply, in the order of their commits - while applies come in it. */
  function Queue(at: Step -> int, plan: Plan, steps: seq<Step>, id: string, n: nat): seq<nat>
    requires n <= |steps|
  {
    if n == 0 then []
    else
      var step, before := steps[n - 1], Queue(at, plan, steps, id, n - 1);
      if OfRoom(plan, step.h, id) && at(step) == n - 1 then NextQueue(before, step) else before
  }

  /** The queue has exactly the handlers between commit and apply, in order. */
  ghost predicate Lined(at: Step -> int, plan: Plan, id: string, q: seq<nat>, n: nat) {
    && (forall h :: h in q <==> OfRoom(plan, h, id) && Pending(at, h, n))
    && (forall i, j :: 0 <= i < j < |q| ==> at(Commit(q[i])) < at(Commit(q[j])))
  }

  /** When a handler applies in an orderly run, none that committed before it is still to apply. */
  lemma NoneBefore(at: Step -> int, plan: Plan, id: string, n: nat, g: nat, h: nat)
    requires OrderlyTimes(at, plan, id) && OfRoom(plan, g, id) && OfRoom(plan, h, id) && Pending(at, g, n) &&
      at(Apply(h)) == n
    ensures !Precedes(at, Commit(g), Commit(h))
  {
  }

  lemma HeadCommitsFirst(at: Step -> int, plan: Plan, id: string, q: seq<nat>, n: nat, h: nat)
    requires Lined(at, plan, id, q, n) && h in q
    ensures q != [] && q[0] in q && (q[0] == h || Precedes(at, Commit(q[0]), Commit(h)))
  {
    var i :| 0 <= i < |q| && q[i] == h;
    assert q[0] in q;
    assert Pending(at, q[0], n);
  }

  /** In an orderly run the handler that applies is the first of the queue. */
  lemma HeadApplies(at: Step -> int, plan: Plan, id: string, q: seq<nat>, n: nat, h: nat)
    requires Timed(at) && OrderlyTimes(at, plan, id) && Lined(at, plan, id, q, n) && OfRoom(plan, h, id) &&
      at(Apply(h)) == n
    ensures q != [] && q[0] == h
  {
    assert Precedes(at, Commit(h), Apply(h));
    HeadCommitsFirst(at, plan, id, q, n, h);
    NoneBefore(at, plan, id, n, q[0], h);
  }

  lemma LinedCommit(at: Step -> int, plan: Plan, id: string, q: seq<nat>, n: nat, h: nat)
    requires Timed(at) && Lined(at, plan, id, q, n) && OfRoom(plan, h, id) && at(Commit(h)) == n
    ensures Lined(at, plan, id, q + [h], n + 1)
  {
    if at(Apply(h)) >= 0 {
      assert Precedes(at, Commit(h), Apply(h));
    }
    forall g | g != h && OfRoom(plan, g, id) ensures Pending(at, g, n + 1) <==> Pending(at, g, n) {
      assert at(Commit(g)) == at(Commit(h)) ==> Commit(g) == Commit(h);
      assert at(Apply(g)) == at(Commit(h)) ==> Apply(g) == Commit(h);
    }
    forall g | g in q ensures at(Commit(g)) < n {
      assert Pending(at, g, n);
    }
  }

  lemma WithoutHead(at: Step -> int, q: seq<nat>)
    requires q != [] && forall i, j :: 0 <= i < j < |q| ==> at(Commit(q[i])) < at(Commit(q[j]))
    ensures forall g :: g in q[1..] <==> g in q && g != q[0]
  {
    assert q == [q[0]] + q[1..];
  }

  lemma AppliedIsOver(at: Step -> int, n: nat, h: nat, g: nat)
    requires Timed(at) && at(Apply(h)) == n
    ensures Pending(at, g, n + 1) <==> Pending(at, g, n) && g != h
  {
    assert at(Commit(g)) == at(Apply(h)) ==> Commit(g) == Apply(h);
    assert at(Apply(g)) == at(Apply(h)) ==> Apply(g) == Apply(h);
  }

  lemma LinedApply(at: Step -> int, plan: Plan, id: string, q: seq<nat>, n: nat, h: nat)
    requires Timed(at) && OrderlyTimes(at, plan, id) && Lined(at, plan, id, q, n) && OfRoom(plan, h, id) &&
      at(Apply(h)) == n
    ensures q != [] && q[0] == h && Lined(at, plan, id, q[1..], n + 1)
  {
    HeadApplies(at, plan, id, q, n, h);
    WithoutHead(at, q);
    forall g: nat ensures Pending(at, g, n + 1) <==> Pending(at, g, n) && g != h {
      AppliedIsOver(at, n, h, g);
    }
  }

  lemma LinedOther(at: Step -> int, plan: Plan, id: string, q: seq<nat>, n: nat)
    requires Lined(at, plan, id, q, n)
    requires forall h: nat :: OfRoom(plan, h, id) ==> at(Commit(h)) != n && at(Apply(h)) != n
    ensures Lined(at, plan, id, q, n + 1)
  {
    forall h: nat | OfRoom(plan, h, id) ensures Pending(at, h, n + 1) <==> Pending(at, h, n) {
    }
  }

  lemma LinedNext(at: Step -> int, plan: Plan, id: string, q: seq<nat>, n: nat, step: Step)
    requires Timed(at) && OrderlyTimes(at, plan, id) && Lined(at, plan, id, q, n)
    requires forall x :: at(x) == n ==> x == step
    ensures Lined(at, plan, id, if OfRoom(plan, step.h, id) && at(step) == n then NextQueue(q, step) else q, n + 1)
  {
    if OfRoom(plan, step.h, id) && at(step) == n && step.Commit? {
      LinedCommit(at, plan, id, q, n, step.h);
    } else if OfRoom(plan, step.h, id) && at(step) == n && step.Apply? {
      LinedApply(at, plan, id, q, n, step.h);
    } else {
      LinedOther(at, plan, id, q, n);
    }
  }

  lemma {:induction false} AlwaysLined(at: Step -> int, plan: Plan, steps: seq<Step>, id: string, n: nat)
    requires Timed(at) && OrderlyTimes(at, plan, id) && n <= |steps|
    requires forall x :: at(x) >= 0 ==> at(x) < |steps| && steps[at(x)] == x
    ensures Lined(at, plan, id, Queue(at, plan, steps, id, n), n)
  {
    if n > 0 {
      AlwaysLined(at, plan, steps, id, n - 1);
      LinedNext(at, plan, id, Queue(at, plan, steps, id, n - 1), n - 1, steps[n - 1]);
    }
  }

  // ----- the room its row is ahead of -----

  /** The room once these handlers have applied. */
  function ApplyAll(plan: Plan, room: RoomState, q: seq<nat>): RoomState {
    if q == [] then room
    else
      var last := plan(q[|q| - 1]);
      ApplyTo(ApplyAll(plan, room, q[..|q| - 1]), last.req, last.env)
  }

  lemma {:induction false} ApplyFirst(plan: Plan, room: RoomState, q: seq<nat>)
    requires q != []
    ensures ApplyAll(plan, room, q) == ApplyAll(plan, ApplyTo(room, plan(q[0]).req, plan(q[0]).env), q[1..])
  {
    var n := |q| - 1;
    if n > 0 {
      ApplyFirst(plan, room, q[..n]);
      assert q[..n][1..] == q[1..][..n - 1];
    } else {
      assert q[..0] == [] && q[1..] == [];
    }
  }

  /** The handlers past their drive serve known requests; the rooms and rows are the mapped ones. */
  ghost predicate Sound(tr: Trace, s: State) {
    && s.rooms.Keys == s.db.rooms.Keys == tr.repo.Keys
    && (forall h :: h in s.jobs && !s.jobs[h].Refused? ==> Known(tr.plan(h).req))
  }

  lemma CommitKeepsRooms(db: Tables, call: Call)
    ensures WithTx(db, call).rooms.Keys == db.rooms.Keys
  {
    if Commits(db, call) {
      CommittedRooms(db, call.txn);
    }
  }

  lemma {:induction false} AlwaysSound(tr: Trace, n: nat)
    requires n <= |tr.steps|
    ensures Sound(tr, StateAt(tr, n))
  {
    if n > 0 {
      AlwaysSound(tr, n - 1);
      SoundNext(tr, StateAt(tr, n - 1), tr.steps[n - 1]);
    }
  }

  lemma SoundNext(tr: Trace, s: State, step: Step)
    requires Sound(tr, s)
    ensures Sound(tr, Next(tr.repo, tr.plan, s, step))
  {
    if step.Commit? && step.h in s.jobs && s.jobs[step.h].HasRead? {
      CommitKeepsRooms(s.db, CallOf(tr.plan(step.h), s.jobs[step.h].minutes));
    }
  }

  function QueueAt(tr: Trace, id: string, n: nat): seq<nat>
    requires n <= |tr.steps|
  {
    Queue(Times(tr), tr.plan, tr.steps, id, n)
  }

  /** The row is the room once the handlers of the queue have applied. */
  ghost predicate Ahead(plan: Plan, s: State, q: seq<nat>, id: string) {
    id in s.rooms && id in s.db.rooms && InStep(ApplyAll(plan, s.rooms[id], q), s.db.rooms[id])
  }

  /** The minutes a handler holds are the room's, unless a handler of the room has applied since it read. */
  ghost predicate HoldsMinutes(at: Step -> int, plan: Plan, s: State, id: string, n: nat, h: nat) {
    OfRoom(plan, h, id) && h in s.jobs && s.jobs[h].HasRead? ==>
      s.jobs[h].minutes == CurrentMinutes(s.rooms, id) || AppliedSince(at, plan, id, h, n)
  }

  ghost predicate AppliedSince(at: Step -> int, plan: Plan, id: string, h: nat, n: nat) {
    exists g: nat :: OfRoom(plan, g, id) && Precedes(at, Read(h), Apply(g)) && at(Apply(g)) < n
  }

  lemma AppliedSinceLater(at: Step -> int, plan: Plan, id: string, h: nat, n: nat)
    requires AppliedSince(at, plan, id, h, n)
    ensures AppliedSince(at, plan, id, h, n + 1)
  {
    var g: nat :| OfRoom(plan, g, id) && Precedes(at, Read(h), Apply(g)) && at(Apply(g)) < n;
    assert OfRoom(plan, g, id) && Precedes(at, Read(h), Apply(g)) && at(Apply(g)) < n + 1;
  }

  /** One step of the server, seen from one handler and the minutes of one room. */
  lemma MinutesNext(repo: Transport.Repository, plan: Plan, s: State, step: Step, id: string, h: nat)
    requires OfRoom(plan, h, id) && h in Next(repo, plan, s, step).jobs && Next(repo, plan, s, step).jobs[h].HasRead?
    ensures var t := Next(repo, plan, s, step);
      || t.jobs[h].minutes == CurrentMinutes(t.rooms, id)
      || (h in s.jobs && s.jobs[h] == t.jobs[h] &&
          (CurrentMinutes(t.rooms, id) == CurrentMinutes(s.rooms, id) ||
           (step.Apply? && At(s, step.h, Committed) && OfRoom(plan, step.h, id))))
  {
  }

  lemma {:induction false} AlwaysHolds(tr: Trace, id: string, n: nat, h: nat)
    requires n <= |tr.steps|
    ensures HoldsMinutes(Times(tr), tr.plan, StateAt(tr, n), id, n, h)
  {
    var t := StateAt(tr, n);
    if n > 0 && OfRoom(tr.plan, h, id) && h in t.jobs && t.jobs[h].HasRead? {
      var s, step := StateAt(tr, n - 1), tr.steps[n - 1];
      AlwaysHolds(tr, id, n - 1, h);
      MinutesNext(tr.repo, tr.plan, s, step, id, h);
      if AppliedSince(Times(tr), tr.plan, id, h, n - 1) {
        AppliedSinceLater(Times(tr), tr.plan, id, h, n - 1);
      }
      if h in s.jobs && s.jobs[h] == t.jobs[h] && step.Apply? && At(s, step.h, Committed) &&
        OfRoom(tr.plan, step.h, id) {
        JustApplied(tr, n, h);
        AppliedNow(Times(tr), tr.plan, id, h, step.h, n);
      }
    }
  }

  lemma AppliedNow(at: Step -> int, plan: Plan, id: string, h: nat, g: nat, n: nat)
    requires OfRoom(plan, g, id) && Precedes(at, Read(h), Apply(g)) && at(Apply(g)) < n
    ensures AppliedSince(at, plan, id, h, n)
  {
  }

  lemma JustApplied(tr: Trace, n: nat, h: nat)
    requires 0 < n <= |tr.steps| && tr.steps[n - 1].Apply? && At(StateAt(tr, n - 1), tr.steps[n - 1].h, Committed)
    requires Reached(StateAt(tr, n - 1), Read(h))
    ensures var x := tr.steps[n - 1]; Times(tr)(x) == n - 1 && Precedes(Times(tr), Read(h), x)
  {
    JustDone(tr, n);
    ReachedWhen(tr, Read(h), n - 1);
  }

  /** A step that brings a handler past it is done there. */
  lemma JustDone(tr: Trace, n: nat)
    requires 0 < n <= |tr.steps|
    ensures Reached(StateAt(tr, n), tr.steps[n - 1]) && !Reached(StateAt(tr, n - 1), tr.steps[n - 1]) <==>
      Times(tr)(tr.steps[n - 1]) == n - 1
  {
    ReachedWhen(tr, tr.steps[n - 1], n);
    ReachedWhen(tr, tr.steps[n - 1], n - 1);
  }

  /** When an extension commits in an orderly run, every handler that committed before it applied before it read. */
  lemma NoneUnread(at: Step -> int, plan: Plan, id: string, n: nat, g: nat, h: nat)
    requires OrderlyTimes(at, plan, id) && OfRoom(plan, g, id) && OfRoom(plan, h, id) && Extends(plan, h)
    requires at(Commit(h)) == n && Precedes(at, Read(h), Commit(h)) && 0 <= at(Commit(g)) < n
    ensures !Pending(at, g, n) && !Precedes(at, Read(h), Apply(g))
  {
    assert Precedes(at, Commit(g), Commit(h));
  }

  /** An extension that commits in an orderly run finds nobody between commit and apply, and nobody has applied since
      it read. */
  lemma ExtensionIsCurrent(at: Step -> int, plan: Plan, id: string, q: seq<nat>, n: nat, h: nat)
    requires Timed(at) && OrderlyTimes(at, plan, id) && Lined(at, plan, id, q, n)
    requires OfRoom(plan, h, id) && Extends(plan, h) && at(Commit(h)) == n
    ensures q == [] && !AppliedSince(at, plan, id, h, n)
  {
    assert Precedes(at, Read(h), Commit(h));
    forall g: nat | OfRoom(plan, g, id) && 0 <= at(Commit(g)) < n
      ensures !Pending(at, g, n) && !Precedes(at, Read(h), Apply(g)) {
      NoneUnread(at, plan, id, n, g, h);
    }
    forall g: nat | OfRoom(plan, g, id) && 0 <= at(Apply(g)) < n ensures 0 <= at(Commit(g)) < n {
      assert Precedes(at, Commit(g), Apply(g));
    }
    EmptyQueue(q);
  }

  lemma EmptyQueue(q: seq<nat>)
    ensures q == [] || exists h :: h in q
  {
    if q != [] {
      assert q[0] in q;
    }
  }

  /** Only an extension's transaction depends on the minutes read. */
  lemma MinutesMatterToExtensions(a: int, b: int, req: Request, env: Env)
    requires !req.ExtendRequest?
    ensures TxnOf(a, req, env) == TxnOf(b, req, env)
  {
  }

  lemma CommitsRow(repo: Transport.Repository, plan: Plan, s: State, id: string, h: nat)
    requires OfRoom(plan, h, id) && h in s.jobs && s.jobs[h].HasRead? && id in s.db.rooms
    requires Commits(s.db, CallOf(plan(h), s.jobs[h].minutes))
    ensures var t := Next(repo, plan, s, Commit(h));
      && t.rooms == s.rooms && id in t.db.rooms
      && t.db.rooms[id] == RowAfter(s.db.rooms[id], TxnOf(s.jobs[h].minutes, plan(h).req, plan(h).env))
  {
    TxnNames(s.jobs[h].minutes, plan(h).req, plan(h).env);
    CommittedRooms(s.db, TxnOf(s.jobs[h].minutes, plan(h).req, plan(h).env));
  }

  /** A commit takes the row of its room one handler further. */
  lemma AheadCommit(tr: Trace, s: State, q: seq<nat>, id: string, h: nat)
    requires Sound(tr, s) && Ahead(tr.plan, s, q, id) && Consistent(tr.plan(h).req) && OfRoom(tr.plan, h, id)
    requires h in s.jobs && s.jobs[h].HasRead? && Commits(s.db, CallOf(tr.plan(h), s.jobs[h].minutes))
    requires Extends(tr.plan, h) ==> q == [] && s.jobs[h].minutes == CurrentMinutes(s.rooms, id)
    ensures Ahead(tr.plan, Next(tr.repo, tr.plan, s, Commit(h)), q + [h], id)
  {
    var x, m := tr.plan(h), s.jobs[h].minutes;
    CommitsRow(tr.repo, tr.plan, s, id, h);
    OneFurther(tr.plan, s.rooms[id], s.db.rooms[id], q, h, m);
  }

  lemma OneFurther(plan: Plan, room: RoomState, row: RoomRecord, q: seq<nat>, h: nat, minutes: int)
    requires InStep(ApplyAll(plan, room, q), row) && Consistent(plan(h).req) && Known(plan(h).req)
    requires Extends(plan, h) ==> q == [] && minutes == room.remainingMinutes
    ensures InStep(ApplyAll(plan, room, q + [h]), RowAfter(row, TxnOf(minutes, plan(h).req, plan(h).env)))
  {
    var x, now := plan(h), ApplyAll(plan, room, q);
    if !Extends(plan, h) {
      MinutesMatterToExtensions(minutes, now.remainingMinutes, x.req, x.env);
    }
    ConsistentStaysInStep(now, row, x.req, x.env);
    assert (q + [h])[..|q|] == q;
  }

  lemma AheadApply(tr: Trace, s: State, q: seq<nat>, id: string, h: nat)
    requires Ahead(tr.plan, s, q, id) && OfRoom(tr.plan, h, id) && At(s, h, Committed) && q != [] && q[0] == h
    ensures Ahead(tr.plan, Next(tr.repo, tr.plan, s, Apply(h)), q[1..], id)
  {
    ApplyFirst(tr.plan, s.rooms[id], q);
  }

  /** Any other step leaves the room and its row. */
  lemma OtherStepKeeps(tr: Trace, s: State, step: Step, id: string)
    requires id in s.rooms && id in s.db.rooms
    requires OfRoom(tr.plan, step.h, id) && (step.Commit? || step.Apply?) ==>
      (Reached(s, step) || !Reached(Next(tr.repo, tr.plan, s, step), step))
    ensures var t := Next(tr.repo, tr.plan, s, step);
      id in t.rooms && id in t.db.rooms && t.rooms[id] == s.rooms[id] && t.db.rooms[id] == s.db.rooms[id]
  {
    if step.Commit? && step.h in s.jobs && s.jobs[step.h].HasRead? {
      var call := CallOf(tr.plan(step.h), s.jobs[step.h].minutes);
      TxnNames(s.jobs[step.h].minutes, tr.plan(step.h).req, tr.plan(step.h).env);
      if Commits(s.db, call) {
        CommittedRooms(s.db, call.txn);
      }
    }
  }

  lemma CommittedFrom(repo: Transport.Repository, plan: Plan, s: State, h: nat)
    requires !Reached(s, Commit(h)) && Reached(Next(repo, plan, s, Commit(h)), Commit(h))
    ensures h in s.jobs && s.jobs[h].HasRead? && Commits(s.db, CallOf(plan(h), s.jobs[h].minutes))
  {
  }

  lemma AppliedFrom(repo: Transport.Repository, plan: Plan, s: State, h: nat)
    requires !Reached(s, Apply(h)) && Reached(Next(repo, plan, s, Apply(h)), Apply(h))
    ensures At(s, h, Committed)
  {
  }

  /** One step keeps the row ahead by the queue; it is step number `n`, and `took` tells whether it did anything. */
  lemma AheadStep(tr: Trace, at: Step -> int, s: State, q: seq<nat>, id: string, n: nat, step: Step, took: bool)
    requires Timed(at) && OrderlyTimes(at, tr.plan, id) && Lined(at, tr.plan, id, q, n) &&
      Consistent(tr.plan(step.h).req)
    requires Sound(tr, s) && Ahead(tr.plan, s, q, id) && HoldsMinutes(at, tr.plan, s, id, n, step.h)
    requires took <==> !Reached(s, step) && Reached(Next(tr.repo, tr.plan, s, step), step)
    requires took <==> at(step) == n
    ensures Ahead(tr.plan, Next(tr.repo, tr.plan, s, step),
      if OfRoom(tr.plan, step.h, id) && took then NextQueue(q, step) else q, id)
  {
    if OfRoom(tr.plan, step.h, id) && took && step.Commit? {
      CommittedFrom(tr.repo, tr.plan, s, step.h);
      if Extends(tr.plan, step.h) {
        ExtensionIsCurrent(at, tr.plan, id, q, n, step.h);
      }
      AheadCommit(tr, s, q, id, step.h);
    } else if OfRoom(tr.plan, step.h, id) && took && step.Apply? {
      AppliedFrom(tr.repo, tr.plan, s, step.h);
      HeadApplies(at, tr.plan, id, q, n, step.h);
      AheadApply(tr, s, q, id, step.h);
    } else {
      OtherStepKeeps(tr, s, step, id);
    }
  }

  /** What step number `n` finds, `at` being the times of the trace. */
  lemma StepFinds(tr: Trace, at: Step -> int, id: string, n: nat)
    requires n < |tr.steps| && at == Times(tr)
    ensures var s, step := StateAt(tr, n), tr.steps[n];
      && Timed(at) && Sound(tr, s) && HoldsMinutes(at, tr.plan, s, id, n, step.h)
      && StateAt(tr, n + 1) == Next(tr.repo, tr.plan, s, step)
      && (at(step) == n <==> !Reached(s, step) && Reached(StateAt(tr, n + 1), step))
  {
    JustDone(tr, n + 1);
    TimesAreTimed(tr);
    AlwaysSound(tr, n);
    AlwaysHolds(tr, id, n, tr.steps[n].h);
  }

  lemma TimesAreSteps(tr: Trace)
    ensures var at := Times(tr); forall x :: at(x) >= 0 ==> at(x) < |tr.steps| && tr.steps[at(x)] == x
  {
    var at := Times(tr);
    forall x | at(x) >= 0 ensures at(x) < |tr.steps| && tr.steps[at(x)] == x {
      DoneIsStep(tr, x);
    }
  }

  lemma QueueIsLined(tr: Trace, id: string, n: nat)
    requires n <= |tr.steps| && Orderly(tr, id)
    ensures Lined(Times(tr), tr.plan, id, QueueAt(tr, id, n), n)
  {
    TimesAreTimed(tr);
    TimesAreSteps(tr);
    AlwaysLined(Times(tr), tr.plan, tr.steps, id, n);
  }

  lemma StartsInStep(repo: Transport.Repository, plan: Plan, id: string)
    requires id in repo
    ensures Ahead(plan, Start(repo), [], id)
  {
  }

  /** The room after `n` steps is behind its row by the queue. */
  ghost predicate AheadAt(tr: Trace, at: Step -> int, id: string, n: nat) {
    n <= |tr.steps| && Ahead(tr.plan, StateAt(tr, n), Queue(at, tr.plan, tr.steps, id, n), id)
  }

  lemma AheadAtStart(tr: Trace, at: Step -> int, id: string)
    requires id in tr.repo
    ensures AheadAt(tr, at, id, 0)
  {
    StartsInStep(tr.repo, tr.plan, id);
  }

  lemma AheadNext(tr: Trace, at: Step -> int, id: string, n: nat)
    requires n < |tr.steps| && Orderly(tr, id) && ConsistentPlan(tr.plan) && at == Times(tr) && AheadAt(tr, at, id, n)
    ensures AheadAt(tr, at, id, n + 1)
  {
    QueueIsLined(tr, id, n);
    StepFinds(tr, at, id, n);
    var q, step := Queue(at, tr.plan, tr.steps, id, n), tr.steps[n];
    AheadStep(tr, at, StateAt(tr, n), q, id, n, step, at(step) == n);
  }

  lemma {:induction false} AlwaysAhead(tr: Trace, at: Step -> int, id: string, n: nat)
    requires n <= |tr.steps| && Orderly(tr, id) && ConsistentPlan(tr.plan) && id in tr.repo && at == Times(tr)
    ensures AheadAt(tr, at, id, n)
  {
    if n == 0 {
      AheadAtStart(tr, at, id);
    } else {
      AlwaysAhead(tr, at, id, n - 1);
      AheadNext(tr, at, id, n - 1);
    }
  }

  lemma SettledMeansDone(tr: Trace, id: string, h: nat)
    requires Settled(tr.plan, End(tr), id) && OfRoom(tr.plan, h, id)
    ensures !Pending(Times(tr), h, |tr.steps|)
  {
    ReachedWhen(tr, Commit(h), |tr.steps|);
    ReachedWhen(tr, Apply(h), |tr.steps|);
  }

  /** For every schedule of consistent requests, with any failures, in which the handlers of a room apply in the order
      they commit and its extensions read the room after the previous apply: whenever no handler of the room is
      between commit and apply, the room in memory is its row. */
  lemma MirrorsWhenOrderly(tr: Trace, id: string)
    requires Orderly(tr, id) && ConsistentPlan(tr.plan) && id in tr.repo && Settled(tr.plan, End(tr), id)
    ensures var s := End(tr); id in s.rooms && id in s.db.rooms && InStep(s.rooms[id], s.db.rooms[id])
  {
    var n := |tr.steps|;
    AlwaysAhead(tr, Times(tr), id, n);
    QueueIsLined(tr, id, n);
    forall h: nat ensures h !in QueueAt(tr, id, n) {
      if OfRoom(tr.plan, h, id) {
        SettledMeansDone(tr, id, h);
      }
    }
    EmptyQueue(QueueAt(tr, id, n));
  }

  // ----- relay and status -----

  /** What a request asks of the relay of the room, if it asks anything. */
  function AskedHere(repo: Transport.Repository, req: Request, id: string): Option<bool> {
    if req.roomId != id then None
    else
      match Target(req)
      case None => None
      case Some(target) =>
        if Transport.Accept(repo, Transport.Intent(id, target)).None? then None else Some(target != Frames.Vacant)
  }

  /** The latest drive that asked something of the room's relay. */
  function LastAsk(tr: Trace, id: string, n: nat): Option<bool>
    requires n <= |tr.steps|
  {
    if n == 0 then None
    else
      var s, step := StateAt(tr, n - 1), tr.steps[n - 1];
      var asked := if step.Drive? && step.h !in s.jobs then AskedHere(tr.repo, tr.plan(step.h).req, id) else None;
      if asked.Some? then asked else LastAsk(tr, id, n - 1)
  }

  /** Whether the latest apply that set the room's status left it other than vacant. */
  function LastSet(tr: Trace, id: string, n: nat): Option<bool>
    requires n <= |tr.steps|
  {
    if n == 0 then None
    else
      var s, step := StateAt(tr, n - 1), tr.steps[n - 1];
      var req := tr.plan(step.h).req;
      if step.Apply? && At(s, step.h, Committed) && req.roomId == id && Target(req).Some?
      then Some(Target(req).value != Frames.Vacant)
      else LastSet(tr, id, n - 1)
  }

  predicate Lit(repo: Transport.Repository, link: Transport.Link, id: string)
    requires id in repo && 0 <= repo[id].port < 16
  {
    Bit(Transport.Word(link, repo[id].address), repo[id].port)
  }

  lemma DriveLights(repo: Transport.Repository, link: Transport.Link, req: Request, env: Env, id: string)
    requires OwnsPort(repo, id)
    ensures Lit(repo, Server.Drive(repo, link, req, env).0, id) == AskedHere(repo, req, id).GetOr(Lit(repo, link, id))
  {
    if Target(req).Some? {
      var m := repo[id];
      var intent := Transport.Intent(req.roomId, Target(req).value);
      Transport.ApplyBit(repo, link, Transport.Attempt(intent, env.slave, env.display), m.address, m.port);
      if req.roomId == id {
        OwnRoomAsksHere(repo, Target(req).value, id);
      } else {
        OtherRoomsAskElsewhere(repo, intent, id);
      }
    }
  }

  lemma UnknownAsksNothing(repo: Transport.Repository, req: Request, id: string)
    requires !Known(req) || req.PaymentRequest?
    ensures AskedHere(repo, req, id) == None
  {
  }

  lemma {:induction false} RelayIsLastAsk(tr: Trace, id: string, n: nat)
    requires n <= |tr.steps| && OwnsPort(tr.repo, id)
    ensures Lit(tr.repo, StateAt(tr, n).link, id) == LastAsk(tr, id, n).GetOr(false)
  {
    if n == 0 {
      Transport.EmptyWord(tr.repo[id].port);
    } else {
      var s, step := StateAt(tr, n - 1), tr.steps[n - 1];
      RelayIsLastAsk(tr, id, n - 1);
      if step.Drive? && step.h !in s.jobs {
        var x := tr.plan(step.h);
        DriveLights(tr.repo, s.link, x.req, x.env, id);
        if !Known(x.req) || x.req.PaymentRequest? {
          UnknownAsksNothing(tr.repo, x.req, id);
        }
      }
    }
  }

  lemma AppliedStatus(room: RoomState, req: Request, env: Env)
    requires Known(req)
    ensures ApplyTo(room, req, env).status ==
      match Target(req)
      case None => room.status
      case Some(target) =>
        if target == Frames.Vacant then Vacant else if target == Frames.Cleaning then Cleaning else Occupied
  {
    CommandNamesDiffer();
  }

  lemma TargetsAre(req: Request)
    ensures Target(req).Some? ==> Target(req).value in {Frames.Vacant, Frames.Occupied, Frames.Cleaning}
  {
  }

  lemma {:induction false} StatusIsLastSet(tr: Trace, id: string, n: nat)
    requires n <= |tr.steps| && id in tr.repo
    ensures var s := StateAt(tr, n); id in s.rooms && (s.rooms[id].status != Vacant) == LastSet(tr, id, n).GetOr(false)
  {
    AlwaysSound(tr, n);
    if n > 0 {
      var s, step := StateAt(tr, n - 1), tr.steps[n - 1];
      StatusIsLastSet(tr, id, n - 1);
      AlwaysSound(tr, n - 1);
      if step.Apply? && At(s, step.h, Committed) && OfRoom(tr.plan, step.h, id) {
        AppliedStatus(s.rooms[id], tr.plan(step.h).req, tr.plan(step.h).env);
        TargetsAre(tr.plan(step.h).req);
      }
    }
  }

  /** At every moment of every schedule, with any failures: the cached relay bit of a room agrees with its status if
      and only if the latest drive that asked something of the relay and the latest apply that set the status want the
      same. */
  lemma RelayAgreesExactlyWhen(tr: Trace, id: string, n: nat)
    requires n <= |tr.steps| && OwnsPort(tr.repo, id)
    ensures var s := StateAt(tr, n);
      && id in s.rooms
      && ((Lit(tr.repo, s.link, id) <==> s.rooms[id].status != Vacant) <==>
          LastAsk(tr, id, n).GetOr(false) == LastSet(tr, id, n).GetOr(false))
  {
    RelayIsLastAsk(tr, id, n);
    StatusIsLastSet(tr, id, n);
  }
}
