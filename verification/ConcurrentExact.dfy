/** The orderly schedules are the only ones under which consistent requests always leave a room equal to its row; two
    runs that part them. */
module ConcurrentExact {
  import opened Core
  import opened Database
  import opened Ledger
  import opened Server
  import opened Mirror
  import opened Relay
  import opened Concurrent
  import opened ConcurrentRuns
  import Frames
  import Transport

  /** The room in memory is its row, but for the update time. */
  predicate MirroredIn(s: State, id: string) {
    id in s.rooms && id in s.db.rooms && Mirrors(s.rooms[id], s.db.rooms[id])
  }

  ghost predicate OrderHolds(s: State, x: Step, y: Step) {
    Reached(s, y) ==> Reached(s, x)
  }

  lemma OrderIn(tr: Trace, other: Trace, x: Step, y: Step, n: nat)
    requires n <= |tr.steps| && n <= |other.steps| && Precedes(Times(tr), x, y)
    requires SameJobs(StateAt(tr, n).jobs, StateAt(other, n).jobs)
    ensures OrderHolds(StateAt(other, n), x, y)
  {
    ReachedWhen(tr, x, n);
    ReachedWhen(tr, y, n);
    SameReached(StateAt(tr, n), StateAt(other, n), x);
    SameReached(StateAt(tr, n), StateAt(other, n), y);
  }

  // ----- roles -----

  function Guest(h: nat, id: string, stayMode: string): Request {
    CheckInRequest(Name(h), id, stayMode, "", 0, 0.0, "")
  }

  function Longer(h: nat, id: string): Request {
    ExtendRequest(Name(h), id, "y", "", 60, 0.0, "")
  }

  lemma IdleKeeps(room: RoomState, row: RoomRecord, h: nat, id: string, minutes: int)
    ensures ApplyTo(room, Idle(h, id), Good(true)) == room.(updatedAt := 0)
    ensures RowAfter(row, TxnOf(minutes, Idle(h, id), Good(true))) == row
  {
    CommandsAre(h, id);
    CommandNamesDiffer();
  }

  lemma GuestGets(room: RoomState, row: RoomRecord, h: nat, id: string, stayMode: string, minutes: int)
    requires stayMode == "x" || stayMode == "y"
    ensures var after := ApplyTo(room, Guest(h, id, stayMode), Good(true));
      after.stayMode == stayMode && after.remainingMinutes == 720
    ensures var after := RowAfter(row, TxnOf(minutes, Guest(h, id, stayMode), Good(true)));
      after.stayMode == stayMode && after.remainingMinutes == 720
  {
    assert |"temporary"| == 9 && |"monthly"| == 7 && |"yearly"| == 6;
  }

  lemma LongerGets(room: RoomState, row: RoomRecord, h: nat, id: string)
    ensures ApplyTo(room, Longer(h, id), Good(true)).remainingMinutes == room.remainingMinutes + 60
    ensures RowAfter(row, TxnOf(0, Longer(h, id), Good(true))).remainingMinutes == 60
  {
  }

  // ----- what a step does to one room and its row -----

  predicate Applies(s: State, plan: Plan, step: Step, id: string) {
    step.Apply? && At(s, step.h, Committed) && OfRoom(plan, step.h, id)
  }

  predicate CommitsNow(s: State, plan: Plan, step: Step, id: string) {
    step.Commit? && step.h in s.jobs && s.jobs[step.h].HasRead? && OfRoom(plan, step.h, id) &&
    Commits(s.db, CallOf(plan(step.h), s.jobs[step.h].minutes))
  }

  lemma StepOnRoom(tr: Trace, s: State, step: Step, id: string)
    requires id in s.rooms && id in s.db.rooms
    ensures var t, x := Concurrent.Next(tr.repo, tr.plan, s, step), tr.plan(step.h);
      && id in t.rooms && id in t.db.rooms
      && t.rooms[id] == (if Applies(s, tr.plan, step, id) then ApplyTo(s.rooms[id], x.req, x.env) else s.rooms[id])
      && t.db.rooms[id] ==
           (if CommitsNow(s, tr.plan, step, id)
            then RowAfter(s.db.rooms[id], TxnOf(s.jobs[step.h].minutes, x.req, x.env))
            else s.db.rooms[id])
  {
    if CommitsNow(s, tr.plan, step, id) {
      CommitsRow(tr.repo, tr.plan, s, id, step.h);
    } else if !Applies(s, tr.plan, step, id) {
      OtherStepKeeps(tr, s, step, id);
    }
  }

  lemma StepReaches(repo: Transport.Repository, plan: Plan, s: State, step: Step, id: string, h: nat)
    requires OfRoom(plan, h, id)
    ensures var t := Concurrent.Next(repo, plan, s, step);
      && (Reached(t, Apply(h)) <==> Reached(s, Apply(h)) || (Applies(s, plan, step, id) && step.h == h))
      && (Reached(t, Commit(h)) <==> Reached(s, Commit(h)) || (CommitsNow(s, plan, step, id) && step.h == h))
      && (Applies(s, plan, step, id) && step.h == h ==> !Reached(s, Apply(h)))
      && (CommitsNow(s, plan, step, id) && step.h == h ==> !Reached(s, Commit(h)))
  {
  }

  // ----- applies that cross their commits -----

  function Crossing(plan: Plan, id: string, g: nat, h: nat): nat -> Request {
    (k: nat) => if k == g then Guest(k, id, "x") else if k == h then Guest(k, id, "y") else Idle(k, plan(k).req.roomId)
  }

  lemma CrossingRoles(tr: Trace, id: string, g: nat, h: nat)
    requires OfRoom(tr.plan, g, id) && OfRoom(tr.plan, h, id)
    ensures Roles(tr, id, Crossing(tr.plan, id, g, h))
  {
    forall k: nat ensures MayPlay(tr, id, k, Crossing(tr.plan, id, g, h)(k)) {
      CommandsAre(k, tr.plan(k).req.roomId);
    }
  }

  ghost predicate Crossed(s: State, id: string, g: nat, h: nat) {
    && id in s.rooms && id in s.db.rooms
    && s.rooms[id].stayMode == (if Reached(s, Apply(g)) then "x" else if Reached(s, Apply(h)) then "y" else "")
    && s.db.rooms[id].stayMode == (if Reached(s, Commit(h)) then "y" else if Reached(s, Commit(g)) then "x" else "")
  }

  /** The handler of the step, if it has got through, plays its role. */
  ghost predicate Plays(plan: Plan, role: nat -> Request, t: State, h: nat) {
    h in t.jobs && ConcurrentRuns.Done(t.jobs[h]) ==> plan(h) == Exchange(role(h), Good(true))
  }

  lemma CrossedNext(tr: Trace, plan: Plan, s: State, step: Step, id: string, g: nat, h: nat)
    requires OfRoom(tr.plan, g, id) && OfRoom(tr.plan, h, id) && g != h && Crossed(s, id, g, h)
    requires var t := Concurrent.Next(tr.repo, tr.plan, s, step); Plays(tr.plan, Crossing(plan, id, g, h), t, step.h)
    requires OrderHolds(s, Apply(h), Apply(g)) && OrderHolds(s, Commit(g), Commit(h))
    ensures Crossed(Concurrent.Next(tr.repo, tr.plan, s, step), id, g, h)
  {
    StepOnRoom(tr, s, step, id);
    StepReaches(tr.repo, tr.plan, s, step, id, g);
    StepReaches(tr.repo, tr.plan, s, step, id, h);
    if Applies(s, tr.plan, step, id) || CommitsNow(s, tr.plan, step, id) {
      var m := if s.jobs[step.h].HasRead? then s.jobs[step.h].minutes else 0;
      var row := s.db.rooms[id];
      GuestGets(s.rooms[id], row, step.h, id, if step.h == g then "x" else "y", m);
      IdleKeeps(s.rooms[id], row, step.h, plan(step.h).req.roomId, m);
    }
  }

  lemma StartsPlain(repo: Transport.Repository, id: string, g: nat, h: nat)
    requires id in repo
    ensures Crossed(Start(repo), id, g, h) && Behind(Start(repo), id, g, h)
  {
  }

  ghost predicate CrossedAfter(tr: Trace, id: string, g: nat, h: nat, n: nat) {
    n <= |tr.steps| && Crossed(StateAt(tr, n), id, g, h)
  }

  lemma CrossedStart(tr: Trace, id: string, g: nat, h: nat)
    requires id in tr.repo
    ensures CrossedAfter(tr, id, g, h, 0) && BehindAfter(tr, id, g, h, 0)
  {
    StartsPlain(tr.repo, id, g, h);
  }

  lemma CrossedStep(tr: Trace, other: Trace, id: string, g: nat, h: nat, n: nat)
    requires n < |tr.steps| && OfRoom(tr.plan, g, id) && OfRoom(tr.plan, h, id)
    requires other == With(tr, Replan(tr, Crossing(tr.plan, id, g, h))) && Alike(tr, other.plan)
    requires Precedes(Times(tr), Commit(g), Commit(h)) && Precedes(Times(tr), Apply(h), Apply(g))
    requires CrossedAfter(other, id, g, h, n)
    ensures CrossedAfter(other, id, g, h, n + 1)
  {
    var role := Crossing(tr.plan, id, g, h);
    PlaysIn(tr, other, role, n + 1);
    OrderIn(tr, other, Apply(h), Apply(g), n);
    OrderIn(tr, other, Commit(g), Commit(h), n);
    RoomsKept(tr, role, g);
    RoomsKept(tr, role, h);
    CrossedNext(other, tr.plan, StateAt(other, n), tr.steps[n], id, g, h);
  }

  lemma {:induction false} CrossedAt(tr: Trace, other: Trace, id: string, g: nat, h: nat, n: nat)
    requires n <= |tr.steps| && Usable(tr.repo, id) && OfRoom(tr.plan, g, id) && OfRoom(tr.plan, h, id)
    requires other == With(tr, Replan(tr, Crossing(tr.plan, id, g, h))) && Alike(tr, other.plan)
    requires Precedes(Times(tr), Commit(g), Commit(h)) && Precedes(Times(tr), Apply(h), Apply(g))
    ensures CrossedAfter(other, id, g, h, n)
  {
    if n == 0 {
      CrossedStart(other, id, g, h);
    } else {
      CrossedAt(tr, other, id, g, h, n - 1);
      CrossedStep(tr, other, id, g, h, n - 1);
    }
  }

  lemma RoomsKept(tr: Trace, role: nat -> Request, h: nat)
    requires Alike(tr, Replan(tr, role))
    ensures OfRoom(Replan(tr, role), h, tr.plan(h).req.roomId)
  {
  }

  lemma PlaysIn(tr: Trace, other: Trace, role: nat -> Request, n: nat)
    requires 0 < n <= |tr.steps| && other == With(tr, Replan(tr, role)) && Alike(tr, other.plan)
    ensures Plays(other.plan, role, StateAt(other, n), tr.steps[n - 1].h)
  {
    var h := tr.steps[n - 1].h;
    assert SameJobs(StateAt(tr, n).jobs, StateAt(other, n).jobs);
    if h in StateAt(other, n).jobs && ConcurrentRuns.Done(StateAt(other, n).jobs[h]) {
      PlaysRole(tr, role, h, n);
    }
  }

  /** A handler that has committed has applied, once its room is settled. */
  lemma SettledApplied(tr: Trace, id: string, h: nat)
    requires Settled(tr.plan, End(tr), id) && OfRoom(tr.plan, h, id) && Times(tr)(Commit(h)) >= 0
    ensures Reached(End(tr), Commit(h)) && Reached(End(tr), Apply(h)) && Times(tr)(Apply(h)) >= 0
  {
    ReachedWhen(tr, Commit(h), |tr.steps|);
    ReachedWhen(tr, Apply(h), |tr.steps|);
  }

  /** Two check-ins in place of handlers whose applies crossed their commits: the row keeps the one that committed last,
      memory the one that applied last. */
  lemma CrossingParts(tr: Trace, id: string, g: nat, h: nat)
    requires Usable(tr.repo, id) && ConsistentPlan(tr.plan) && Settled(tr.plan, End(tr), id)
    requires OfRoom(tr.plan, g, id) && OfRoom(tr.plan, h, id)
    requires Precedes(Times(tr), Commit(g), Commit(h)) && Precedes(Times(tr), Apply(h), Apply(g))
    ensures var plan := Replan(tr, Crossing(tr.plan, id, g, h));
      Alike(tr, plan) && ConsistentPlan(plan) && !MirroredIn(End(With(tr, plan)), id)
  {
    var plan := Replan(tr, Crossing(tr.plan, id, g, h));
    var other := With(tr, plan);
    CrossingRoles(tr, id, g, h);
    ReplanIsAlike(tr, id, Crossing(tr.plan, id, g, h));
    CrossedAt(tr, other, id, g, h, |tr.steps|);
    SettledApplied(tr, id, g);
    SettledApplied(tr, id, h);
    assert SameJobs(End(tr).jobs, End(other).jobs);
    SameReached(End(tr), End(other), Apply(g));
    SameReached(End(tr), End(other), Commit(h));
  }

  // ----- an extension that reads too early -----

  function Early(plan: Plan, id: string, g: nat, h: nat): nat -> Request {
    (k: nat) => if k == g then Guest(k, id, "x") else if k == h then Longer(k, id) else Idle(k, plan(k).req.roomId)
  }

  lemma EarlyRoles(tr: Trace, id: string, g: nat, h: nat)
    requires OfRoom(tr.plan, g, id) && OfRoom(tr.plan, h, id) && Extends(tr.plan, h)
    ensures Roles(tr, id, Early(tr.plan, id, g, h))
  {
    forall k: nat ensures MayPlay(tr, id, k, Early(tr.plan, id, g, h)(k)) {
      CommandsAre(k, tr.plan(k).req.roomId);
    }
  }

  ghost predicate Behind(s: State, id: string, g: nat, h: nat) {
    && id in s.rooms && id in s.db.rooms
    && (var m := s.rooms[id].remainingMinutes;
        if Reached(s, Apply(g)) then (m == 720 || (Reached(s, Apply(h)) && m == 780))
        else m == if Reached(s, Apply(h)) then 60 else 0)
    && (h in s.jobs && s.jobs[h].HasRead? ==> s.jobs[h].minutes == 0)
    && (Reached(s, Commit(h)) ==> s.db.rooms[id].remainingMinutes == 60)
  }

  lemma BehindNext(tr: Trace, plan: Plan, s: State, step: Step, id: string, g: nat, h: nat)
    requires OfRoom(tr.plan, g, id) && OfRoom(tr.plan, h, id) && g != h && Behind(s, id, g, h)
    requires var t := Concurrent.Next(tr.repo, tr.plan, s, step);
      Plays(tr.plan, Early(plan, id, g, h), t, step.h) && OrderHolds(t, Read(h), Apply(g))
    requires OrderHolds(s, Commit(g), Commit(h)) && OrderHolds(s, Read(h), Apply(g))
    ensures Behind(Concurrent.Next(tr.repo, tr.plan, s, step), id, g, h)
  {
    StepOnRoom(tr, s, step, id);
    StepReaches(tr.repo, tr.plan, s, step, id, g);
    StepReaches(tr.repo, tr.plan, s, step, id, h);
    EarlyRead(tr, s, step, id, g, h);
    if Applies(s, tr.plan, step, id) || CommitsNow(s, tr.plan, step, id) {
      var m := if s.jobs[step.h].HasRead? then s.jobs[step.h].minutes else 0;
      GuestGets(s.rooms[id], s.db.rooms[id], step.h, id, "x", m);
      LongerGets(s.rooms[id], s.db.rooms[id], step.h, id);
      IdleKeeps(s.rooms[id], s.db.rooms[id], step.h, plan(step.h).req.roomId, m);
    }
  }

  /** The extension reads no minutes: the check-in applies later. */
  lemma EarlyRead(tr: Trace, s: State, step: Step, id: string, g: nat, h: nat)
    requires OfRoom(tr.plan, h, id) && Behind(s, id, g, h)
    requires OrderHolds(s, Read(h), Apply(g))
    ensures var t := Concurrent.Next(tr.repo, tr.plan, s, step);
      h in t.jobs && t.jobs[h].HasRead? ==> t.jobs[h].minutes == 0
  {
  }

  ghost predicate BehindAfter(tr: Trace, id: string, g: nat, h: nat, n: nat) {
    n <= |tr.steps| && Behind(StateAt(tr, n), id, g, h)
  }

  lemma BehindStep(tr: Trace, other: Trace, id: string, g: nat, h: nat, n: nat)
    requires n < |tr.steps| && OfRoom(tr.plan, g, id) && OfRoom(tr.plan, h, id)
    requires other == With(tr, Replan(tr, Early(tr.plan, id, g, h))) && Alike(tr, other.plan)
    requires Precedes(Times(tr), Commit(g), Commit(h)) && Precedes(Times(tr), Read(h), Apply(g))
    requires BehindAfter(other, id, g, h, n)
    ensures BehindAfter(other, id, g, h, n + 1)
  {
    var role := Early(tr.plan, id, g, h);
    PlaysIn(tr, other, role, n + 1);
    OrderIn(tr, other, Commit(g), Commit(h), n);
    OrderIn(tr, other, Read(h), Apply(g), n);
    OrderIn(tr, other, Read(h), Apply(g), n + 1);
    RoomsKept(tr, role, g);
    RoomsKept(tr, role, h);
    BehindNext(other, tr.plan, StateAt(other, n), tr.steps[n], id, g, h);
  }

  lemma {:induction false} BehindAt(tr: Trace, other: Trace, id: string, g: nat, h: nat, n: nat)
    requires n <= |tr.steps| && Usable(tr.repo, id) && OfRoom(tr.plan, g, id) && OfRoom(tr.plan, h, id)
    requires other == With(tr, Replan(tr, Early(tr.plan, id, g, h))) && Alike(tr, other.plan)
    requires Precedes(Times(tr), Commit(g), Commit(h)) && Precedes(Times(tr), Read(h), Apply(g))
    ensures BehindAfter(other, id, g, h, n)
  {
    if n == 0 {
      CrossedStart(other, id, g, h);
    } else {
      BehindAt(tr, other, id, g, h, n - 1);
      BehindStep(tr, other, id, g, h, n - 1);
    }
  }

  /** A check-in and an extension that read before the check-in had applied: the row loses the check-in's minutes. */
  lemma EarlyParts(tr: Trace, id: string, g: nat, h: nat)
    requires Usable(tr.repo, id) && ConsistentPlan(tr.plan) && Settled(tr.plan, End(tr), id)
    requires OfRoom(tr.plan, g, id) && OfRoom(tr.plan, h, id) && Extends(tr.plan, h)
    requires Precedes(Times(tr), Commit(g), Commit(h)) && Precedes(Times(tr), Read(h), Apply(g))
    ensures var plan := Replan(tr, Early(tr.plan, id, g, h));
      Alike(tr, plan) && ConsistentPlan(plan) && !MirroredIn(End(With(tr, plan)), id)
  {
    var plan := Replan(tr, Early(tr.plan, id, g, h));
    var other := With(tr, plan);
    EarlyRoles(tr, id, g, h);
    ReplanIsAlike(tr, id, Early(tr.plan, id, g, h));
    BehindAt(tr, other, id, g, h, |tr.steps|);
    SettledApplied(tr, id, g);
    SettledApplied(tr, id, h);
    assert SameJobs(End(tr).jobs, End(other).jobs);
    SameReached(End(tr), End(other), Apply(g));
    SameReached(End(tr), End(other), Commit(h));
  }

  // ----- main result -----

  /** A schedule that is not orderly has a plan that parts the room and its row. */
  lemma DisorderParts(tr: Trace, id: string) returns (plan: Plan)
    requires Usable(tr.repo, id) && ConsistentPlan(tr.plan) && Settled(tr.plan, End(tr), id) && !Orderly(tr, id)
    ensures Alike(tr, plan) && ConsistentPlan(plan) && !MirroredIn(End(With(tr, plan)), id)
  {
    var at := Times(tr);
    var g: nat, h: nat :| OfRoom(tr.plan, g, id) && OfRoom(tr.plan, h, id) && Precedes(at, Commit(g), Commit(h)) &&
      !((at(Apply(h)) >= 0 ==> Precedes(at, Apply(g), Apply(h))) &&
      (Extends(tr.plan, h) ==> Precedes(at, Apply(g), Read(h))));
    SettledApplied(tr, id, g);
    SettledApplied(tr, id, h);
    TimesAreTimed(tr);
    assert at(Apply(g)) == at(Apply(h)) ==> Apply(g) == Apply(h);
    if !Precedes(at, Apply(g), Apply(h)) {
      CrossingParts(tr, id, g, h);
      plan := Replan(tr, Crossing(tr.plan, id, g, h));
    } else {
      assert Precedes(at, Read(h), Commit(h));
      assert at(Apply(g)) == at(Read(h)) ==> Apply(g) == Read(h);
      EarlyParts(tr, id, g, h);
      plan := Replan(tr, Early(tr.plan, id, g, h));
    }
  }

  /** For every schedule of the handlers, with any failures, at whose end no handler of a wired room is between commit
      and apply: whatever consistent requests it serves - extensions only where it has them - the room in memory is its
      row, if and only if the handlers of the room apply in the order they commit and each extension reads the room
      after every handler that commits before it has applied. */
  lemma MirrorsExactlyWhen(tr: Trace, id: string)
    requires Usable(tr.repo, id) && ConsistentPlan(tr.plan) && Settled(tr.plan, End(tr), id)
    ensures (forall plan: Plan :: Alike(tr, plan) && ConsistentPlan(plan) ==> MirroredIn(End(With(tr, plan)), id)) <==>
      Orderly(tr, id)
  {
    if Orderly(tr, id) {
      forall plan: Plan | Alike(tr, plan) && ConsistentPlan(plan) ensures MirroredIn(End(With(tr, plan)), id) {
        OrderlyAlike(tr, plan, id);
        SettledAlike(tr, plan, id);
        MirrorsWhenOrderly(With(tr, plan), id);
      }
    } else {
      var plan := DisorderParts(tr, id);
    }
  }

  // ----- two runs of consistent requests that part a room and its row -----

  function Two(x: Request, y: Request): Plan {
    (h: nat) => Exchange(if h == 0 then x else y, Good(true))
  }

  const BOTH_COMMIT := [Drive(0), Drive(1), Read(0), Read(1), Commit(0), Commit(1)]

  /** Requests for the room under two ids that pay nothing. */
  predicate Simple(x: Request, y: Request, id: string) {
    && x.roomId == id && y.roomId == id && Known(x) && Known(y) && PaysNothing(x) && PaysNothing(y)
    && x.requestId != "" && y.requestId != "" && x.requestId != y.requestId
  }

  predicate Plans(plan: Plan, x: Request, y: Request) {
    plan(0) == Exchange(x, Good(true)) && plan(1) == Exchange(y, Good(true))
  }

  /** A server's step, as a value: the proofs below unfold it only where `Concurrent.Next` is named. */
  type Mover = (State, Step) -> State

  ghost predicate Moves(next: Mover, repo: Transport.Repository, plan: Plan) {
    forall s, step {:trigger Concurrent.Next(repo, plan, s, step)} ::
      next(s, step) == Concurrent.Next(repo, plan, s, step)
  }

  /** The states of a trace, one after every step. */
  ghost predicate Visits(at: nat -> State, next: Mover, steps: seq<Step>) {
    forall n: nat :: n < |steps| ==> at(n + 1) == next(at(n), steps[n])
  }

  lemma TraceVisits(tr: Trace) returns (at: nat -> State, next: Mover)
    ensures Moves(next, tr.repo, tr.plan) && Visits(at, next, tr.steps)
    ensures at(0) == Start(tr.repo) && at(|tr.steps|) == End(tr)
  {
    at := (n: nat) => StateAt(tr, if n < |tr.steps| then n else |tr.steps|);
    next := (s, step) => Concurrent.Next(tr.repo, tr.plan, s, step);
    assert StateAt(tr, 0) == Start(tr.repo);
    forall n: nat | n < |tr.steps| ensures at(n + 1) == next(at(n), tr.steps[n]) {
      assert at(n + 1) == StateAt(tr, n + 1);
    }
  }

  lemma BothDrive(next: Mover, repo: Transport.Repository, plan: Plan, x: Request, y: Request, id: string, s: State)
    requires Moves(next, repo, plan) && Usable(repo, id) && Simple(x, y, id) && Plans(plan, x, y) && s.jobs == map[]
    ensures next(next(s, Drive(0)), Drive(1)) ==
      s.(link := Server.Drive(repo, Server.Drive(repo, s.link, x, Good(true)).0, y, Good(true)).0,
         jobs := map[0 := Driven, 1 := Driven])
  {
    var t := Concurrent.Next(repo, plan, s, Drive(0));
    SimpleDrives(repo, id, x, s);
    SimpleDrives(repo, id, y, t);
    assert next(t, Drive(1)) == Concurrent.Next(repo, plan, t, Drive(1));
  }

  lemma SimpleDrives(repo: Transport.Repository, id: string, x: Request, s: State)
    requires Usable(repo, id) && x.roomId == id && Known(x) && !x.PaymentRequest?
    ensures Driving(repo, Exchange(x, Good(true)), s) == (Server.Drive(repo, s.link, x, Good(true)).0, Driven)
  {
    TargetsAre(x);
    if Target(x).Some? {
      UsableAccepts(repo, id, Target(x).value);
    }
  }

  lemma BothRead(next: Mover, repo: Transport.Repository, plan: Plan, x: Request, y: Request, id: string, s: State)
    requires Moves(next, repo, plan) && Simple(x, y, id) && Plans(plan, x, y)
    requires s.jobs == map[0 := Driven, 1 := Driven] && id in s.rooms && s.rooms[id].remainingMinutes == 0
    ensures next(next(s, Read(0)), Read(1)) == s.(jobs := map[0 := HasRead(0), 1 := HasRead(0)])
  {
    var t := Concurrent.Next(repo, plan, s, Read(0));
    assert Reading(plan(0), s) == HasRead(0) && Reading(plan(1), t) == HasRead(0);
    assert next(t, Read(1)) == Concurrent.Next(repo, plan, t, Read(1));
  }

  lemma SimpleCommits(db: Tables, x: Request, id: string)
    requires Keyed(db) && db.payments == [] && id in db.rooms && x.roomId == id && PaysNothing(x)
    requires x.requestId != "" && x.requestId !in AuditIds(db)
    ensures var call := CallOf(Exchange(x, Good(true)), 0); var after := WithTx(db, call);
      && Commits(db, call) && Keyed(after) && after.payments == [] && AuditIds(after) == AuditIds(db) + {x.requestId}
      && after.rooms == db.rooms[id := RowAfter(db.rooms[id], call.txn)]
  {
    var t := TxnOf(0, x, Good(true));
    TxnNames(0, x, Good(true));
    RolePays(x, 0, Good(true));
    CommitsExactlyWhen(db, t);
    CommittedRooms(db, t);
    CommittedPayments(db, t);
    CommitAudits(db, t);
    CommitStays(db, t);
    CommitPayments(db, t);
  }

  /** The row once both have committed with the minutes both read. */
  function TwiceAfter(row: RoomRecord, x: Request, y: Request): RoomRecord {
    RowAfter(RowAfter(row, TxnOf(0, x, Good(true))), TxnOf(0, y, Good(true)))
  }

  lemma CommitStep(repo: Transport.Repository, plan: Plan, s: State, h: nat, x: Request)
    requires plan(h) == Exchange(x, Good(true)) && At(s, h, HasRead(0)) && Commits(s.db, CallOf(plan(h), 0))
    ensures Concurrent.Next(repo, plan, s, Commit(h)) ==
      s.(db := WithTx(s.db, CallOf(Exchange(x, Good(true)), 0)), jobs := s.jobs[h := Committed])
  {
  }

  /** The named handler commits with the minutes it read, none. */
  lemma OneCommits(next: Mover, repo: Transport.Repository, plan: Plan, s: State, h: nat, x: Request, id: string)
    requires Moves(next, repo, plan) && plan(h) == Exchange(x, Good(true)) && At(s, h, HasRead(0)) && x.roomId == id &&
      PaysNothing(x)
    requires Keyed(s.db) && s.db.payments == [] && id in s.db.rooms
    requires x.requestId != "" && x.requestId !in AuditIds(s.db)
    ensures var t := next(s, Commit(h));
      && t.rooms == s.rooms && t.link == s.link && t.jobs == s.jobs[h := Committed]
      && Keyed(t.db) && t.db.payments == [] && AuditIds(t.db) == AuditIds(s.db) + {x.requestId}
      && t.db.rooms == s.db.rooms[id := RowAfter(s.db.rooms[id], TxnOf(0, x, Good(true)))]
  {
    SimpleCommits(s.db, x, id);
    CommitStep(repo, plan, s, h, x);
  }

  lemma BothCommitted(next: Mover, repo: Transport.Repository, plan: Plan, x: Request, y: Request, id: string, s: State)
    requires Moves(next, repo, plan) && Simple(x, y, id) && Plans(plan, x, y)
    requires s.jobs == map[0 := HasRead(0), 1 := HasRead(0)]
    requires Keyed(s.db) && s.db.payments == [] && AuditIds(s.db) == {} && id in s.db.rooms
    ensures var t := next(next(s, Commit(0)), Commit(1));
      && t.rooms == s.rooms && t.link == s.link && t.jobs == map[0 := Committed, 1 := Committed]
      && id in t.db.rooms && t.db.rooms[id] == TwiceAfter(s.db.rooms[id], x, y)
  {
    OneCommits(next, repo, plan, s, 0, x, id);
    OneCommits(next, repo, plan, next(s, Commit(0)), 1, y, id);
  }

  lemma BothApplied(next: Mover, repo: Transport.Repository, plan: Plan, id: string, s: State, first: nat, second: nat)
    requires Moves(next, repo, plan) && s.jobs == map[0 := Committed, 1 := Committed] && {first, second} == {0, 1}
    requires id in s.rooms && OfRoom(plan, first, id) && OfRoom(plan, second, id)
    ensures var t := next(next(s, Apply(first)), Apply(second));
      && t.db == s.db && t.link == s.link && t.jobs == map[0 := Applied, 1 := Applied] && id in t.rooms
      && t.rooms[id] ==
         ApplyTo(ApplyTo(s.rooms[id], plan(first).req, plan(first).env), plan(second).req, plan(second).env)
  {
    var t := Concurrent.Next(repo, plan, s, Apply(first));
    assert next(t, Apply(second)) == Concurrent.Next(repo, plan, t, Apply(second));
  }

  /** A server where the room is as on a new database. */
  ghost predicate Fresh(s: State, id: string) {
    && id in s.rooms && s.rooms[id] == FromRow(id, VacantRow(id, 0))
    && id in s.db.rooms && s.db.rooms[id] == VacantRow(id, 0)
    && Keyed(s.db) && s.db.payments == [] && AuditIds(s.db) == {}
  }

  /** The room and its row once the two have committed and then applied in this order. */
  ghost predicate InOrderApplied(plan: Plan, x: Request, y: Request, id: string, first: nat, second: nat, s: State) {
    var a, b := plan(first).req, plan(second).req;
    && Settled(plan, s, id) && id in s.rooms && id in s.db.rooms
    && s.db.rooms[id] == TwiceAfter(VacantRow(id, 0), x, y)
    && s.rooms[id] == ApplyTo(ApplyTo(FromRow(id, VacantRow(id, 0)), a, Good(true)), b, Good(true))
  }

  /** What the eight steps come to, from any such state. */
  lemma BothDone(next: Mover, repo: Transport.Repository, plan: Plan, x: Request, y: Request, id: string,
                 first: nat, second: nat, s: State)
    requires Moves(next, repo, plan) && Usable(repo, id) && Simple(x, y, id) && Plans(plan, x, y)
    requires {first, second} == {0, 1} && Fresh(s, id) && s.jobs == map[]
    ensures var read := next(next(next(next(s, Drive(0)), Drive(1)), Read(0)), Read(1));
      var done := next(next(next(next(read, Commit(0)), Commit(1)), Apply(first)), Apply(second));
      && InOrderApplied(plan, x, y, id, first, second, done)
      && done.link == Server.Drive(repo, Server.Drive(repo, s.link, x, Good(true)).0, y, Good(true)).0
  {
    var driven := next(next(s, Drive(0)), Drive(1));
    var read := next(next(driven, Read(0)), Read(1));
    var committed := next(next(read, Commit(0)), Commit(1));
    BothDrive(next, repo, plan, x, y, id, s);
    BothRead(next, repo, plan, x, y, id, driven);
    BothCommitted(next, repo, plan, x, y, id, read);
    BothApplied(next, repo, plan, id, committed, first, second);
  }

  lemma EightSteps(at: nat -> State, next: Mover, steps: seq<Step>, first: nat, second: nat)
    requires Visits(at, next, steps) && steps == BOTH_COMMIT + [Apply(first), Apply(second)]
    ensures var read := next(next(next(next(at(0), Drive(0)), Drive(1)), Read(0)), Read(1));
      at(8) == next(next(next(next(read, Commit(0)), Commit(1)), Apply(first)), Apply(second))
  {
    assert at(0 + 1) == next(at(0), steps[0]) && at(1 + 1) == next(at(1), steps[1]);
    assert at(2 + 1) == next(at(2), steps[2]) && at(3 + 1) == next(at(3), steps[3]);
    assert at(4 + 1) == next(at(4), steps[4]) && at(5 + 1) == next(at(5), steps[5]);
    assert at(6 + 1) == next(at(6), steps[6]) && at(7 + 1) == next(at(7), steps[7]);
  }

  /** The state once the two have applied in this order. */
  lemma BothApply(tr: Trace, x: Request, y: Request, id: string, first: nat, second: nat)
    requires Usable(tr.repo, id) && Simple(x, y, id) && Plans(tr.plan, x, y)
    requires {first, second} == {0, 1} && tr.steps == BOTH_COMMIT + [Apply(first), Apply(second)]
    ensures InOrderApplied(tr.plan, x, y, id, first, second, End(tr))
    ensures End(tr).link ==
      Server.Drive(tr.repo, Server.Drive(tr.repo, Start(tr.repo).link, x, Good(true)).0, y, Good(true)).0
  {
    StartRoom(tr.repo, id);
    var at, next := TraceVisits(tr);
    EightSteps(at, next, tr.steps, first, second);
    BothDone(next, tr.repo, tr.plan, x, y, id, first, second, at(0));
  }

  lemma StartRoom(repo: Transport.Repository, id: string)
    requires id in repo
    ensures Fresh(Start(repo), id) && Start(repo).jobs == map[]
  {
  }

  function Extension(requestId: string, id: string): Request {
    ExtendRequest(requestId, id, "overnight", "", 60, 0.0, "")
  }

  /** Two extensions of an hour, both of which read the room before either applies: the row ends an hour short. */
  lemma LostExtension(repo: Transport.Repository, id: string) returns (tr: Trace)
    requires Usable(repo, id)
    ensures tr == Trace(repo, Two(Extension("a", id), Extension("b", id)), BOTH_COMMIT + [Apply(0), Apply(1)])
    ensures var s := End(tr);
      && Settled(tr.plan, s, id) && id in s.rooms && id in s.db.rooms
      && s.rooms[id].remainingMinutes == 120 && s.db.rooms[id].remainingMinutes == 60
    ensures Consistent(tr.plan(0).req) && Consistent(tr.plan(1).req)
  {
    tr := Trace(repo, Two(Extension("a", id), Extension("b", id)), BOTH_COMMIT + [Apply(0), Apply(1)]);
    BothApply(tr, Extension("a", id), Extension("b", id), id, 0, 1);
  }

  /** A check-in and a check-out that commit in this order and apply in the other: the row ends vacant, the room in
      memory occupied, and the relay - driven by the check-out last - off. */
  lemma CrossedApplies(repo: Transport.Repository, id: string) returns (tr: Trace)
    requires OwnsPort(repo, id)
    ensures tr == Trace(repo, Two(Arrival("a", id), CheckOutRequest("b", id)), BOTH_COMMIT + [Apply(1), Apply(0)])
    ensures var s := End(tr);
      && Settled(tr.plan, s, id) && id in s.rooms && id in s.db.rooms
      && s.rooms[id].status == Occupied && s.db.rooms[id].status == Vacant && !Lit(repo, s.link, id)
    ensures Consistent(tr.plan(0).req) && Consistent(tr.plan(1).req)
  {
    var x, y := Arrival("a", id), CheckOutRequest("b", id);
    tr := Trace(repo, Two(x, y), BOTH_COMMIT + [Apply(1), Apply(0)]);
    BothApply(tr, x, y, id, 1, 0);
    UsableAccepts(repo, id, Frames.Vacant);
    DriveLights(repo, Server.Drive(repo, Start(repo).link, x, Good(true)).0, y, Good(true), id);
  }
}
