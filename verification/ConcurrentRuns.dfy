/** The schedules under which memory and database stay together are exactly the orderly ones; and runs of consistent
    requests, without any failure, that part them. */
module ConcurrentRuns {
  import opened Core
  import opened Database
  import opened Ledger
  import opened Server
  import opened Mirror
  import opened Relay
  import opened Concurrent
  import Frames
  import Transport

  // ----- the same schedule with other requests -----

  function With(tr: Trace, plan: Plan): Trace {
    tr.(plan := plan)
  }

  /** Equal but for the minutes read and the reason of a refusal; a commit is refused in both or in neither. */
  predicate SameStage(a: Stage, b: Stage) {
    || a == b
    || (a.HasRead? && b.HasRead?)
    || (a.Refused? && b.Refused? && (a.outcome == DbWriteFailed <==> b.outcome == DbWriteFailed))
  }

  predicate SameJobs(a: map<nat, Stage>, b: map<nat, Stage>) {
    a.Keys == b.Keys && forall h :: h in a ==> SameStage(a[h], b[h])
  }

  /** The handlers serve other requests for the same rooms - extensions only where there was one - and come exactly as
      far, step by step. */
  ghost predicate Alike(tr: Trace, plan: Plan) {
    && (forall h: nat :: OfRoom(plan, h, tr.plan(h).req.roomId) && (Extends(plan, h) ==> Extends(tr.plan, h)))
    && forall n: nat :: n <= |tr.steps| ==> SameJobs(StateAt(tr, n).jobs, StateAt(With(tr, plan), n).jobs)
  }

  lemma SameReached(s: State, t: State, x: Step)
    requires SameJobs(s.jobs, t.jobs)
    ensures Reached(s, x) <==> Reached(t, x)
  {
  }

  lemma {:induction false} SameFirstTime(a: nat -> bool, b: nat -> bool, n: nat)
    requires forall k: nat :: a(k) == b(k)
    ensures FirstTime(a, n) == FirstTime(b, n)
  {
    if n > 0 {
      SameFirstTime(a, b, n - 1);
    }
  }

  lemma SamePast(tr: Trace, plan: Plan, x: Step, k: nat)
    requires Alike(tr, plan)
    ensures Past(tr, x)(k) == Past(With(tr, plan), x)(k)
  {
    var n := if k < |tr.steps| then k else |tr.steps|;
    SameReached(StateAt(tr, n), StateAt(With(tr, plan), n), x);
  }

  lemma SameTimes(tr: Trace, plan: Plan, x: Step)
    requires Alike(tr, plan)
    ensures Times(tr)(x) == Times(With(tr, plan))(x)
  {
    forall k: nat ensures Past(tr, x)(k) == Past(With(tr, plan), x)(k) {
      SamePast(tr, plan, x, k);
    }
    SameFirstTime(Past(tr, x), Past(With(tr, plan), x), |tr.steps|);
  }

  lemma OrderlyFor(a: Step -> int, b: Step -> int, plan: Plan, other: Plan, id: string)
    requires OrderlyTimes(a, plan, id) && forall x :: a(x) == b(x)
    requires forall h: nat :: OfRoom(other, h, plan(h).req.roomId) && (Extends(other, h) ==> Extends(plan, h))
    ensures OrderlyTimes(b, other, id)
  {
    forall g: nat, h: nat | OfRoom(other, g, id) && OfRoom(other, h, id) && Precedes(b, Commit(g), Commit(h))
      ensures (b(Apply(h)) >= 0 ==> Precedes(b, Apply(g), Apply(h))) &&
        (Extends(other, h) ==> Precedes(b, Apply(g), Read(h)))
    {
      assert OfRoom(other, g, plan(g).req.roomId) && OfRoom(other, h, plan(h).req.roomId);
      assert Precedes(a, Commit(g), Commit(h));
    }
  }

  /** An orderly schedule is orderly whatever it serves. */
  lemma OrderlyAlike(tr: Trace, plan: Plan, id: string)
    requires Orderly(tr, id) && Alike(tr, plan)
    ensures Orderly(With(tr, plan), id)
  {
    forall x ensures Times(tr)(x) == Times(With(tr, plan))(x) {
      SameTimes(tr, plan, x);
    }
    OrderlyFor(Times(tr), Times(With(tr, plan)), tr.plan, plan, id);
  }

  lemma SettledAlike(tr: Trace, plan: Plan, id: string)
    requires Settled(tr.plan, End(tr), id) && Alike(tr, plan)
    ensures Settled(plan, End(With(tr, plan)), id)
  {
    assert SameJobs(End(tr).jobs, End(With(tr, plan)).jobs);
    forall h | h in End(With(tr, plan)).jobs && OfRoom(plan, h, id) ensures End(With(tr, plan)).jobs[h] != Committed {
      assert OfRoom(plan, h, tr.plan(h).req.roomId);
    }
  }

  // ----- what becomes of a handler -----

  predicate Done(stage: Stage) {
    stage == Committed || stage == Applied
  }

  /** From this stage a handler may end at that one. */
  predicate MayEnd(stage: Stage, end: Stage) {
    match stage
    case Driven => end.Refused? ==> end.outcome != InvalidAction && end.outcome != TransportError
    case HasRead(_) => end.HasRead? || Done(end) || end == Refused(DbWriteFailed)
    case Committed => Done(end)
    case Applied => end == Applied
    case Refused(_) => end == stage
  }

  lemma MayEndNext(repo: Transport.Repository, plan: Plan, s: State, step: Step, h: nat, end: Stage)
    requires h in s.jobs && h in Concurrent.Next(repo, plan, s, step).jobs &&
      MayEnd(Concurrent.Next(repo, plan, s, step).jobs[h], end)
    ensures MayEnd(s.jobs[h], end)
  {
  }

  lemma JobsStay(repo: Transport.Repository, plan: Plan, s: State, step: Step, h: nat)
    requires h in s.jobs
    ensures h in Concurrent.Next(repo, plan, s, step).jobs
  {
  }

  lemma {:induction false} EndOf(tr: Trace, n: nat, h: nat)
    requires n <= |tr.steps| && h in StateAt(tr, n).jobs
    ensures h in End(tr).jobs && MayEnd(StateAt(tr, n).jobs[h], End(tr).jobs[h])
    decreases |tr.steps| - n
  {
    if n < |tr.steps| {
      JobsStay(tr.repo, tr.plan, StateAt(tr, n), tr.steps[n], h);
      EndOf(tr, n + 1, h);
      MayEndNext(tr.repo, tr.plan, StateAt(tr, n), tr.steps[n], h, End(tr).jobs[h]);
    }
  }

  // ----- serving other requests with the same outcomes -----

  function Name(h: nat): (s: string)
    ensures |s| == h + 1
  {
    if h == 0 then "n" else Name(h - 1) + "n"
  }

  /** A request that touches neither bus nor room, and one that is refused at once. */
  function Idle(h: nat, id: string): Request {
    CommandRequest(Name(h), id, "open_room", "", "", "", "")
  }

  function Unknown(h: nat, id: string): Request {
    CommandRequest(Name(h), id, "?", "", "", "", "")
  }

  /** What handler `h` serves instead of `x`, if it ended like this: its role, if it got through. */
  function Replaced(end: map<nat, Stage>, x: Exchange, h: nat, role: Request): Exchange {
    if h !in end then Exchange(Idle(h, x.req.roomId), Good(true))
    else
      match end[h]
      case Refused(outcome) =>
        if outcome == InvalidAction || outcome == TransportError then Exchange(Unknown(h, x.req.roomId), Good(true))
        else if outcome == DbWriteFailed then Exchange(Idle(h, x.req.roomId), Good(false))
        else x
      case _ => Exchange(role, Good(true))
  }

  ghost predicate Replans(plan: Plan, end: map<nat, Stage>, role: nat -> Request, other: Plan) {
    forall h: nat :: other(h) == Replaced(end, plan(h), h, role(h))
  }

  function Replan(tr: Trace, role: nat -> Request): Plan {
    (h: nat) => Replaced(End(tr).jobs, tr.plan(h), h, role(h))
  }

  predicate PaysNothing(req: Request) {
    match req
    case CheckInRequest(_, _, _, _, _, amount, _) => amount == 0.0
    case ExtendRequest(_, _, _, _, _, amount, _) => amount == 0.0
    case PaymentRequest(_, _, _, _, _) => false
    case _ => true
  }

  /** A role handler `h` of the trace may play: it serves the same room under its own id and pays nothing, extends only
      if the handler did, and asks something of a relay only in the room `id`. */
  predicate MayPlay(tr: Trace, id: string, h: nat, role: Request) {
    && role.roomId == tr.plan(h).req.roomId && role.requestId == Name(h)
    && Known(role) && Consistent(role) && PaysNothing(role)
    && (role.ExtendRequest? ==> Extends(tr.plan, h))
    && (Target(role).Some? || role.CheckInRequest? ==> role.roomId == id)
  }

  ghost predicate Roles(tr: Trace, id: string, role: nat -> Request) {
    forall h: nat :: MayPlay(tr, id, h, role(h))
  }

  predicate Usable(repo: Transport.Repository, id: string) {
    id in repo && 0 <= repo[id].port < 16
  }

  lemma CommandsAre(h: nat, id: string)
    ensures Known(Idle(h, id)) && Target(Idle(h, id)) == None && CommandOf("open_room") == Some(OpenRoom)
    ensures !Known(Unknown(h, id))
  {
    CommandNamesDiffer();
    assert "?"[0] == '?' && |"?"| == 1;
  }

  /** Whether a drive succeeds does not depend on what the relays are. */
  lemma DriveOutcome(repo: Transport.Repository, a: Transport.Link, b: Transport.Link, req: Request, env: Env)
    ensures Server.Drive(repo, a, req, env).1 == Server.Drive(repo, b, req, env).1
  {
  }

  lemma UsableAccepts(repo: Transport.Repository, id: string, target: Frames.SemanticState)
    requires Usable(repo, id) && target in {Frames.Vacant, Frames.Occupied, Frames.Cleaning}
    ensures Transport.Accept(repo, Transport.Intent(id, target)).Some?
  {
    Frames.PatchBits(0, repo[id].port, Frames.STATUS_VACANT, 0);
    Frames.PatchBits(0, repo[id].port, Frames.STATUS_OCCUPIED, 0);
    Frames.PatchBits(0, repo[id].port, Frames.STATUS_CLEANING, 0);
  }

  lemma RoleDrives(tr: Trace, id: string, h: nat, role: Request, s: State)
    requires Usable(tr.repo, id) && MayPlay(tr, id, h, role)
    ensures Driving(tr.repo, Exchange(role, Good(true)), s).1 == Driven
  {
    TargetsAre(role);
    if Target(role).Some? {
      UsableAccepts(tr.repo, id, Target(role).value);
    }
  }

  lemma IdleDrives(repo: Transport.Repository, h: nat, id: string, env: Env, s: State)
    ensures Driving(repo, Exchange(Idle(h, id), env), s).1 == Driven
    ensures Driving(repo, Exchange(Unknown(h, id), env), s).1 == Refused(InvalidAction)
    ensures Reading(Exchange(Idle(h, id), env), s).HasRead?
  {
    CommandsAre(h, id);
  }

  lemma DriveReplays(tr: Trace, end: map<nat, Stage>, id: string, h: nat, role: Request, s: State, t: State)
    requires Usable(tr.repo, id) && MayPlay(tr, id, h, role) && s.rooms.Keys == t.rooms.Keys
    requires h in end && MayEnd(Driving(tr.repo, tr.plan(h), s).1, end[h])
    ensures SameStage(Driving(tr.repo, tr.plan(h), s).1,
      Driving(tr.repo, Replaced(end, tr.plan(h), h, role), t).1)
  {
    var x := tr.plan(h);
    DriveOutcome(tr.repo, s.link, t.link, x.req, x.env);
    RoleDrives(tr, id, h, role, t);
    IdleDrives(tr.repo, h, x.req.roomId, Good(true), t);
    IdleDrives(tr.repo, h, x.req.roomId, Good(false), t);
  }

  lemma ReadReplays(tr: Trace, end: map<nat, Stage>, id: string, h: nat, role: Request, s: State, t: State)
    requires MayPlay(tr, id, h, role) && s.rooms.Keys == t.rooms.Keys && id in t.rooms
    requires h in end && MayEnd(Reading(tr.plan(h), s), end[h])
    ensures SameStage(Reading(tr.plan(h), s), Reading(Replaced(end, tr.plan(h), h, role), t))
  {
  }

  /** No payments, and only the names of handlers that got through. */
  ghost predicate Plain(t: State) {
    && t.db.payments == [] && Keyed(t.db)
    && forall h: nat :: Name(h) in AuditIds(t.db) ==> h in t.jobs && Done(t.jobs[h])
  }

  lemma NamesDiffer(g: nat, h: nat)
    ensures Name(g) == Name(h) ==> g == h
  {
  }

  lemma RolePays(role: Request, minutes: int, env: Env)
    requires PaysNothing(role)
    ensures PaymentId(TxnOf(minutes, role, env)) == None
  {
  }

  lemma RoleCommits(tr: Trace, id: string, h: nat, role: Request, t: State, minutes: int)
    requires MayPlay(tr, id, h, role) && Plain(t) && role.roomId in t.db.rooms && h in t.jobs && !Done(t.jobs[h])
    ensures Commits(t.db, CallOf(Exchange(role, Good(true)), minutes))
  {
    TxnNames(minutes, role, Good(true));
    RolePays(role, minutes, Good(true));
    CommitsExactlyWhen(t.db, TxnOf(minutes, role, Good(true)));
  }

  lemma CommitReplays(tr: Trace, end: map<nat, Stage>, id: string, h: nat, role: Request, s: State, t: State)
    requires MayPlay(tr, id, h, role) && Plain(t) && s.db.rooms.Keys == t.db.rooms.Keys
    requires h in s.jobs && s.jobs[h].HasRead? && h in t.jobs && t.jobs[h].HasRead? && h in end
    requires var ok := Commits(s.db, CallOf(tr.plan(h), s.jobs[h].minutes));
      MayEnd(if ok then Committed else Refused(DbWriteFailed), end[h])
    ensures Commits(s.db, CallOf(tr.plan(h), s.jobs[h].minutes)) <==>
      Commits(t.db, CallOf(Replaced(end, tr.plan(h), h, role), t.jobs[h].minutes))
  {
    var x := tr.plan(h);
    if Commits(s.db, CallOf(x, s.jobs[h].minutes)) {
      TxnNames(s.jobs[h].minutes, x.req, x.env);
      CommittedRooms(s.db, TxnOf(s.jobs[h].minutes, x.req, x.env));
      RoleCommits(tr, id, h, role, t, t.jobs[h].minutes);
    }
  }

  lemma CommitStaysPlain(tr: Trace, id: string, h: nat, role: Request, t: State)
    requires MayPlay(tr, id, h, role) && Plain(t) && h in t.jobs && t.jobs[h].HasRead?
    requires Commits(t.db, CallOf(Exchange(role, Good(true)), t.jobs[h].minutes))
    ensures Plain(t.(db := WithTx(t.db, CallOf(Exchange(role, Good(true)), t.jobs[h].minutes)),
      jobs := t.jobs[h := Committed]))
  {
    var txn := TxnOf(t.jobs[h].minutes, role, Good(true));
    TxnNames(t.jobs[h].minutes, role, Good(true));
    RolePays(role, t.jobs[h].minutes, Good(true));
    CommittedPayments(t.db, txn);
    CommitAudits(t.db, txn);
    CommitStays(t.db, txn);
    CommitPayments(t.db, txn);
    forall g: nat | Name(g) == Name(h) ensures g == h {
      NamesDiffer(g, h);
    }
  }

  /** The replayed trace keeps pace. */
  ghost predicate Replays(s: State, t: State) {
    SameJobs(s.jobs, t.jobs) && Plain(t)
  }

  /** Both commits go through, or neither. */
  lemma BothCommit(tr: Trace, plan: Plan, s: State, t: State, h: nat)
    requires Replays(s, t) && h in s.jobs && s.jobs[h].HasRead?
    requires Commits(s.db, CallOf(tr.plan(h), s.jobs[h].minutes)) <==> Commits(t.db, CallOf(plan(h), t.jobs[h].minutes))
    ensures SameJobs(Concurrent.Next(tr.repo, tr.plan, s, Commit(h)).jobs,
      Concurrent.Next(tr.repo, plan, t, Commit(h)).jobs)
  {
  }

  lemma RefusedStaysPlain(repo: Transport.Repository, plan: Plan, t: State, h: nat)
    requires Plain(t) && h in t.jobs && t.jobs[h].HasRead? && !Commits(t.db, CallOf(plan(h), t.jobs[h].minutes))
    ensures Plain(Concurrent.Next(repo, plan, t, Commit(h)))
  {
  }

  lemma ReplayCommit(tr: Trace, plan: Plan, end: map<nat, Stage>, id: string, role: nat -> Request, s: State, t: State,
                     h: nat)
    requires Replans(tr.plan, end, role, plan) && Roles(tr, id, role) && Replays(s, t) &&
      s.db.rooms.Keys == t.db.rooms.Keys
    requires h in s.jobs && s.jobs[h].HasRead? && h in end
    requires MayEnd(Concurrent.Next(tr.repo, tr.plan, s, Commit(h)).jobs[h], end[h])
    ensures Replays(Concurrent.Next(tr.repo, tr.plan, s, Commit(h)), Concurrent.Next(tr.repo, plan, t, Commit(h)))
  {
    assert MayPlay(tr, id, h, role(h));
    CommitReplays(tr, end, id, h, role(h), s, t);
    BothCommit(tr, plan, s, t, h);
    if Commits(t.db, CallOf(plan(h), t.jobs[h].minutes)) {
      assert plan(h) == Exchange(role(h), Good(true));
      CommitStaysPlain(tr, id, h, role(h), t);
    } else {
      RefusedStaysPlain(tr.repo, plan, t, h);
    }
  }

  lemma ReplayDrive(tr: Trace, plan: Plan, end: map<nat, Stage>, id: string, role: nat -> Request, s: State, t: State,
                    h: nat)
    requires Replans(tr.plan, end, role, plan) && Usable(tr.repo, id) && Roles(tr, id, role) && Replays(s, t) &&
      s.rooms.Keys == t.rooms.Keys
    requires h !in s.jobs && h in end && MayEnd(Concurrent.Next(tr.repo, tr.plan, s, Drive(h)).jobs[h], end[h])
    ensures Replays(Concurrent.Next(tr.repo, tr.plan, s, Drive(h)), Concurrent.Next(tr.repo, plan, t, Drive(h)))
  {
    assert MayPlay(tr, id, h, role(h));
    DriveReplays(tr, end, id, h, role(h), s, t);
  }

  lemma ReplayRead(tr: Trace, plan: Plan, end: map<nat, Stage>, id: string, role: nat -> Request, s: State, t: State,
                   h: nat)
    requires Replans(tr.plan, end, role, plan) && Roles(tr, id, role) && Replays(s, t) &&
      s.rooms.Keys == t.rooms.Keys && id in t.rooms
    requires At(s, h, Driven) && h in end && MayEnd(Concurrent.Next(tr.repo, tr.plan, s, Read(h)).jobs[h], end[h])
    ensures Replays(Concurrent.Next(tr.repo, tr.plan, s, Read(h)), Concurrent.Next(tr.repo, plan, t, Read(h)))
  {
    assert MayPlay(tr, id, h, role(h));
    ReadReplays(tr, end, id, h, role(h), s, t);
  }

  lemma ReplayApply(tr: Trace, plan: Plan, s: State, t: State, h: nat)
    requires Replays(s, t)
    ensures Replays(Concurrent.Next(tr.repo, tr.plan, s, Apply(h)), Concurrent.Next(tr.repo, plan, t, Apply(h)))
  {
  }

  /** One step of both traces; `h` is its handler, and what it comes to may end as it does. */
  lemma ReplayStep(tr: Trace, plan: Plan, end: map<nat, Stage>, id: string, role: nat -> Request, s: State, t: State,
                   step: Step)
    requires Replans(tr.plan, end, role, plan) && Usable(tr.repo, id) && Roles(tr, id, role) && Replays(s, t)
    requires s.rooms.Keys == t.rooms.Keys && s.db.rooms.Keys == t.db.rooms.Keys && id in t.rooms
    requires var u := Concurrent.Next(tr.repo, tr.plan, s, step);
      step.h in u.jobs ==> step.h in end && MayEnd(u.jobs[step.h], end[step.h])
    ensures Replays(Concurrent.Next(tr.repo, tr.plan, s, step), Concurrent.Next(tr.repo, plan, t, step))
  {
    match step
    case Drive(h) =>
      if h !in s.jobs {
        ReplayDrive(tr, plan, end, id, role, s, t, h);
      }
    case Read(h) =>
      if At(s, h, Driven) {
        ReplayRead(tr, plan, end, id, role, s, t, h);
      }
    case Commit(h) =>
      if h in s.jobs && s.jobs[h].HasRead? {
        ReplayCommit(tr, plan, end, id, role, s, t, h);
      }
    case Apply(h) => ReplayApply(tr, plan, s, t, h);
  }

  lemma PlainAtStart(repo: Transport.Repository)
    ensures Plain(Start(repo))
  {
  }

  ghost predicate ReplaysAt(tr: Trace, other: Trace, n: nat) {
    n <= |tr.steps| && n <= |other.steps| && Replays(StateAt(tr, n), StateAt(other, n))
  }

  lemma ReplayAtStart(tr: Trace, other: Trace)
    requires tr.repo == other.repo
    ensures ReplaysAt(tr, other, 0)
  {
    PlainAtStart(tr.repo);
  }

  /** This is how the handlers of the trace end. */
  ghost predicate Ends(tr: Trace, end: map<nat, Stage>) {
    forall n: nat, h: nat :: n <= |tr.steps| && h in StateAt(tr, n).jobs ==>
      h in end && MayEnd(StateAt(tr, n).jobs[h], end[h])
  }

  ghost predicate SoundAt(tr: Trace, n: nat) {
    n <= |tr.steps| && StateAt(tr, n).rooms.Keys == tr.repo.Keys && StateAt(tr, n).db.rooms.Keys == tr.repo.Keys
  }

  lemma AlwaysSoundAt(tr: Trace, n: nat)
    requires n <= |tr.steps|
    ensures SoundAt(tr, n)
  {
    AlwaysSound(tr, n);
  }

  lemma ReplayNext(tr: Trace, other: Trace, end: map<nat, Stage>, id: string, role: nat -> Request, n: nat)
    requires n < |tr.steps| && Usable(tr.repo, id) && Roles(tr, id, role) && Ends(tr, end)
    requires other.repo == tr.repo && other.steps == tr.steps && Replans(tr.plan, end, role, other.plan)
    requires ReplaysAt(tr, other, n) && SoundAt(tr, n) && SoundAt(other, n)
    ensures ReplaysAt(tr, other, n + 1)
  {
    var step := tr.steps[n];
    assert step.h in StateAt(tr, n + 1).jobs ==> step.h in end && MayEnd(StateAt(tr, n + 1).jobs[step.h], end[step.h]);
    ReplayStep(tr, other.plan, end, id, role, StateAt(tr, n), StateAt(other, n), step);
  }

  lemma {:induction false} ReplayAt(tr: Trace, other: Trace, end: map<nat, Stage>, id: string, role: nat -> Request,
                                    n: nat)
    requires n <= |tr.steps| && Usable(tr.repo, id) && Roles(tr, id, role) && Ends(tr, end)
    requires other.repo == tr.repo && other.steps == tr.steps && Replans(tr.plan, end, role, other.plan)
    ensures ReplaysAt(tr, other, n)
  {
    if n == 0 {
      ReplayAtStart(tr, other);
    } else {
      ReplayAt(tr, other, end, id, role, n - 1);
      AlwaysSoundAt(tr, n - 1);
      AlwaysSoundAt(other, n - 1);
      ReplayNext(tr, other, end, id, role, n - 1);
    }
  }

  lemma EndsAtEnd(tr: Trace)
    ensures Ends(tr, End(tr).jobs)
  {
    forall n: nat, h: nat | n <= |tr.steps| && h in StateAt(tr, n).jobs
      ensures h in End(tr).jobs && MayEnd(StateAt(tr, n).jobs[h], End(tr).jobs[h])
    {
      EndOf(tr, n, h);
    }
  }

  lemma ReplacedIsConsistent(tr: Trace, id: string, h: nat, role: Request)
    requires MayPlay(tr, id, h, role) && Consistent(tr.plan(h).req)
    ensures var x := Replaced(End(tr).jobs, tr.plan(h), h, role);
      Consistent(x.req) && x.req.roomId == tr.plan(h).req.roomId && (x.req.ExtendRequest? ==> Extends(tr.plan, h))
  {
  }

  lemma ReplanIsAlike(tr: Trace, id: string, role: nat -> Request)
    requires Usable(tr.repo, id) && Roles(tr, id, role) && ConsistentPlan(tr.plan)
    ensures Alike(tr, Replan(tr, role)) && ConsistentPlan(Replan(tr, role))
  {
    forall h: nat
      ensures Consistent(Replan(tr, role)(h).req)
      ensures OfRoom(Replan(tr, role), h, tr.plan(h).req.roomId) &&
        (Extends(Replan(tr, role), h) ==> Extends(tr.plan, h))
    {
      assert MayPlay(tr, id, h, role(h));
      assert Consistent(tr.plan(h).req);
      ReplacedIsConsistent(tr, id, h, role(h));
    }
    EndsAtEnd(tr);
    forall n: nat | n <= |tr.steps| ensures SameJobs(StateAt(tr, n).jobs, StateAt(With(tr, Replan(tr, role)), n).jobs) {
      ReplayAt(tr, With(tr, Replan(tr, role)), End(tr).jobs, id, role, n);
    }
  }

  /** A handler that got through plays its role. */
  lemma PlaysRole(tr: Trace, role: nat -> Request, h: nat, n: nat)
    requires n <= |tr.steps| && h in StateAt(tr, n).jobs && Done(StateAt(tr, n).jobs[h])
    ensures Replan(tr, role)(h) == Exchange(role(h), Good(true))
  {
    EndOf(tr, n, h);
  }
}
