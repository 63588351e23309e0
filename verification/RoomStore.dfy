/** Pending commands of the cashier client (`_setPending`, `_clearPending`, `_runAction`), as functions. */
module PendingCommands {
  import opened Core

  datatype Command = Command(action: string, timer: nat, delayed: bool)

  /** `live` maps each running timer to the room it was started for; timers are numbered in order of creation. */
  datatype Pending = Pending(commands: map<string, Command>, live: map<nat, string>, created: nat)

  const IDLE := Pending(map[], map[], 0)

  function Clear(p: Pending, roomId: string): Pending {
    if roomId in p.commands
    then Pending(p.commands - {roomId}, p.live - {p.commands[roomId].timer}, p.created)
    else p
  }

  function Set(p: Pending, roomId: string, action: string): Pending {
    var q := Clear(p, roomId);
    Pending(q.commands[roomId := Command(action, p.created, false)], q.live[p.created := roomId], p.created + 1)
  }

  /** The callback of a timer that has run out. */
  function Fire(p: Pending, timer: nat): Pending {
    if timer !in p.live then p
    else
      var roomId := p.live[timer];
      var q := p.(live := p.live - {timer});
      if roomId in q.commands then q.(commands := q.commands[roomId := q.commands[roomId].(delayed := true)]) else q
  }

  datatype Step =
    | Start(roomId: string, action: string)
    | Update(roomId: string)
    | Failure(roomId: string)
    | TimerFires(timer: nat)

  function Next(p: Pending, step: Step): Pending {
    match step
    case Start(roomId, action) => Set(p, roomId, action)
    case Update(roomId) => Clear(p, roomId)
    case Failure(roomId) => Clear(p, roomId)
    case TimerFires(timer) => Fire(p, timer)
  }

  function Run(steps: seq<Step>): Pending {
    if steps == [] then IDLE else Next(Run(steps[..|steps| - 1]), steps[|steps| - 1])
  }

  /** Running timers and commands that are not delayed belong to each other, one to one. */
  ghost predicate Paired(p: Pending) {
    && (forall t :: t in p.live ==>
       t < p.created && p.live[t] in p.commands && p.commands[p.live[t]].timer == t && !p.commands[p.live[t]].delayed)
    && (forall id :: id in p.commands ==>
          p.commands[id].timer < p.created &&
          (!p.commands[id].delayed <==> p.commands[id].timer in p.live && p.live[p.commands[id].timer] == id))
    && (forall a, b :: a in p.commands && b in p.commands && p.commands[a].timer == p.commands[b].timer ==> a == b)
  }

  /** The latest start, update or failure of the room. */
  function Latest(steps: seq<Step>, roomId: string): Option<Step> {
    if steps == [] then None
    else
      var last := steps[|steps| - 1];
      if !last.TimerFires? && last.roomId == roomId then Some(last) else Latest(steps[..|steps| - 1], roomId)
  }

  /** The action a room waits for: that of its latest start, if nothing has ended it. */
  function Awaited(steps: seq<Step>, roomId: string): Option<string> {
    match Latest(steps, roomId)
    case Some(Start(_, action)) => Some(action)
    case _ => None
  }

  lemma ClearPaired(p: Pending, roomId: string)
    requires Paired(p)
    ensures Paired(Clear(p, roomId))
  {
  }

  lemma SetPaired(p: Pending, roomId: string, action: string)
    requires Paired(p)
    ensures Paired(Set(p, roomId, action))
  {
    ClearPaired(p, roomId);
  }

  lemma FirePaired(p: Pending, timer: nat)
    requires Paired(p)
    ensures Paired(Fire(p, timer))
  {
  }

  lemma NextPaired(p: Pending, step: Step)
    requires Paired(p)
    ensures Paired(Next(p, step))
  {
    match step
    case Start(roomId, action) => SetPaired(p, roomId, action);
    case Update(roomId) => ClearPaired(p, roomId);
    case Failure(roomId) => ClearPaired(p, roomId);
    case TimerFires(timer) => FirePaired(p, timer);
  }

  lemma {:induction false} RunPaired(steps: seq<Step>)
    ensures Paired(Run(steps))
  {
    if steps != [] {
      RunPaired(steps[..|steps| - 1]);
      NextPaired(Run(steps[..|steps| - 1]), steps[|steps| - 1]);
    }
  }

  function AwaitedNext(before: Option<string>, roomId: string, step: Step): Option<string> {
    if step.TimerFires? || step.roomId != roomId then before else if step.Start? then Some(step.action) else None
  }

  lemma RunAppend(steps: seq<Step>, step: Step)
    ensures Run(steps + [step]) == Next(Run(steps), step)
    ensures forall roomId :: Awaited(steps + [step], roomId) == AwaitedNext(Awaited(steps, roomId), roomId, step)
  {
    assert (steps + [step])[..|steps|] == steps;
  }

  /** Every running timer is the timer of its room's command. */
  lemma PairedTimers(p: Pending)
    requires Paired(p)
    ensures forall t :: t in p.live ==> p.live[t] in p.commands && p.commands[p.live[t]].timer == t
    ensures forall t :: t in p.live ==> t < p.created
  {
  }

  lemma NextAwaits(p: Pending, step: Step, roomId: string)
    ensures var q := Next(p, step);
      var before := if roomId in p.commands then Some(p.commands[roomId].action) else None;
      var after := if roomId in q.commands then Some(q.commands[roomId].action) else None;
      after == AwaitedNext(before, roomId, step)
  {
  }

  /** After every run a room is pending exactly when its latest start, update or failure is a start, and then for
      the action of that start. */
  lemma {:induction false} PendingIsLatestStart(steps: seq<Step>, roomId: string)
    ensures var p := Run(steps);
      (if roomId in p.commands then Some(p.commands[roomId].action) else None) == Awaited(steps, roomId)
  {
    if steps != [] {
      PendingIsLatestStart(steps[..|steps| - 1], roomId);
      NextAwaits(Run(steps[..|steps| - 1]), steps[|steps| - 1], roomId);
    }
  }

  /** A timer that fires finds the command that created it, still waiting, and marks that one only. */
  lemma TimerFindsItsCommand(steps: seq<Step>, timer: nat)
    requires timer in Run(steps).live
    ensures var p := Run(steps); var id := p.live[timer];
      && id in p.commands && p.commands[id].timer == timer && !p.commands[id].delayed
      && Fire(p, timer).commands == p.commands[id := p.commands[id].(delayed := true)]
      && timer !in Fire(p, timer).live
  {
    RunPaired(steps);
  }
}

/** The cashier client's store (`state/room_store.dart`) as the object that changes. */
module RoomStore {
  import opened Core
  import opened Client
  import opened Payloads
  import P = PendingCommands

  class RoomStore {
    var rooms: seq<Room>
    var pendingCommands: map<string, P.Command>
    var live: map<nat, string>
    var created: nat
    var error: Option<string>
    ghost var history: seq<P.Step>

    ghost function Pending(): P.Pending
      reads this
    {
      P.Pending(pendingCommands, live, created)
    }

    /** The pending commands are what the starts, updates, failures and timers so far have made of them. */
    ghost predicate Valid()
      reads this
    {
      Pending() == P.Run(history)
    }

    constructor (rooms: seq<Room>)
      ensures Valid() && this.rooms == rooms && history == [] && error == None
    {
      this.rooms := rooms;
      pendingCommands, live, created, error, history := map[], map[], 0, None, [];
    }

    /** No command waits for the room and no timer of it runs; other rooms keep theirs. */
    method ClearPending(roomId: string)
      requires P.Paired(Pending())
      modifies this`pendingCommands, this`live
      ensures Pending() == P.Clear(old(Pending()), roomId) && P.Paired(Pending())
      ensures pendingCommands == old(pendingCommands) - {roomId}
      ensures forall t :: t in live <==> t in old(live) && old(live)[t] != roomId
    {
      P.ClearPaired(Pending(), roomId);
      P.PairedTimers(Pending());
      if roomId in pendingCommands {
        var pending := pendingCommands[roomId];
        pendingCommands := pendingCommands - {roomId};
        live := live - {pending.timer};
      }
    }

    /** The room waits for this action, and its one running timer is the one just started. */
    method SetPending(roomId: string, action: string)
      requires P.Paired(Pending())
      modifies this`pendingCommands, this`live, this`created
      ensures Pending() == P.Set(old(Pending()), roomId, action)
      ensures pendingCommands == old(pendingCommands)[roomId := P.Command(action, old(created), false)]
      ensures forall t :: t in live <==> t == old(created) || (t in old(live) && old(live)[t] != roomId)
    {
      ClearPending(roomId);
      var timer := created;
      live, created := live[timer := roomId], created + 1;
      pendingCommands := pendingCommands[roomId := P.Command(action, timer, false)];
    }

    /** The timer finds the command that started it, not delayed yet, marks that one and no other, and is gone. */
    method TimerFires(timer: nat)
      requires Valid() && timer in live
      modifies this`pendingCommands, this`live, this`history
      ensures Valid() && history == old(history) + [P.TimerFires(timer)]
      ensures var roomId := old(live)[timer];
        && roomId in old(pendingCommands) && old(pendingCommands)[roomId].timer == timer &&
           !old(pendingCommands)[roomId].delayed
        && pendingCommands == old(pendingCommands)[roomId := old(pendingCommands)[roomId].(delayed := true)]
      ensures live == old(live) - {timer}
    {
      P.TimerFindsItsCommand(history, timer);
      P.RunAppend(history, P.TimerFires(timer));
      history := history + [P.TimerFires(timer)];
      var roomId := live[timer];
      live := live - {timer};
      if roomId in pendingCommands {
        pendingCommands := pendingCommands[roomId := pendingCommands[roomId].(delayed := true)];
      }
    }

    /** _runAction, up to the request it sends. */
    method StartAction(roomId: string, action: string)
      requires Valid()
      modifies this`pendingCommands, this`live, this`created, this`error, this`history
      ensures Valid() && history == old(history) + [P.Start(roomId, action)] && error == None
      ensures P.Awaited(history, roomId) == Some(action)
      ensures pendingCommands == old(pendingCommands)[roomId := P.Command(action, old(created), false)]
    {
      P.RunPaired(history);
      P.RunAppend(history, P.Start(roomId, action));
      history := history + [P.Start(roomId, action)];
      error := None;
      SetPending(roomId, action);
    }

    /** _runAction, when the request fails, whatever has happened since it was sent: the room is not pending any more,
        even for an action started later. */
    method ActionFailed(roomId: string, message: string)
      requires Valid()
      modifies this`pendingCommands, this`live, this`error, this`history
      ensures Valid() && history == old(history) + [P.Failure(roomId)] && error == Some(message)
      ensures P.Awaited(history, roomId) == None
      ensures pendingCommands == old(pendingCommands) - {roomId}
      ensures forall t :: t in live <==> t in old(live) && old(live)[t] != roomId
    {
      P.RunPaired(history);
      P.RunAppend(history, P.Failure(roomId));
      history := history + [P.Failure(roomId)];
      ClearPending(roomId);
      error := Some(message);
    }

    /** _runAction as a whole, when nothing arrives while the request is out. */
    method RunAction(roomId: string, action: string, succeeds: bool, message: string)
      requires Valid()
      modifies this`pendingCommands, this`live, this`created, this`error, this`history
      ensures Valid() && P.Awaited(history, roomId) == (if succeeds then Some(action) else None)
      ensures error == if succeeds then None else Some(message)
      ensures forall id :: id != roomId ==> (id in pendingCommands <==> id in old(pendingCommands))
      ensures forall id :: id != roomId && id in pendingCommands ==> pendingCommands[id] == old(pendingCommands)[id]
    {
      StartAction(roomId, action);
      if !succeeds {
        ActionFailed(roomId, message);
      }
    }

    method SortRooms(unsorted: seq<Room>) returns (sorted: seq<Room>)
      ensures sorted == SortById(unsorted)
    {
      sorted := [];
      for i := 0 to |unsorted|
        invariant sorted == SortById(unsorted[..i])
      {
        assert unsorted[..i + 1][..i] == unsorted[..i];
        sorted := InsertById(sorted, unsorted[i]);
      }
      assert unsorted[..|unsorted|] == unsorted;
    }

    method ReplaceRooms(js: seq<RoomJson>)
      modifies this`rooms
      ensures rooms == FromJsons(js)
    {
      var items: seq<Room> := [];
      for i := 0 to |js|
        invariant items == FromJsons(js[..i])
      {
        assert js[..i + 1][..i] == js[..i];
        items := items + [FromJson(js[i])];
      }
      assert js[..|js|] == js;
      rooms := items;
    }

    method UpdateRoom(j: RoomJson)
      modifies this`rooms
      ensures rooms == Client.HandleEvent(old(rooms), RoomUpdate(j))
    {
      var room := FromJson(j);
      var index := Index(rooms, room.roomId);
      if index.None? {
        var sorted := SortRooms(rooms + [room]);
        rooms := sorted;
      } else {
        var updated := CopyWith(rooms[index.value], Some(room.status), Some(room.stayMode), Some(room.caseCode),
          Some(room.controllerOnline), room.remainingMinutes);
        rooms := rooms[index.value := updated];
      }
    }

    /** _handleEvent: the list becomes what the event says, and an update ends the room's pending command. */
    method HandleEvent(e: Event)
      requires Valid()
      modifies this
      ensures Valid() && rooms == Client.HandleEvent(old(rooms), e) && error == old(error)
      ensures history == if e.RoomUpdate? then old(history) + [P.Update(e.room.roomId)] else old(history)
      ensures pendingCommands == if e.RoomUpdate? then old(pendingCommands) - {e.room.roomId} else old(pendingCommands)
    {
      match e
      case FullState(js) => ReplaceRooms(js);
      case RoomUpdate(j) =>
        P.RunPaired(history);
        P.RunAppend(history, P.Update(j.roomId));
        history := history + [P.Update(j.roomId)];
        ClearPending(FromJson(j).roomId);
        UpdateRoom(j);
      case AuditEvent(_) =>
      case FraudAlert(_, _) =>
    }

    /** pendingActionFor, which the screens read: a room is pending if and only if its latest start, update or failure
        is a start, and the mark names that action. */
    method PendingActionFor(roomId: string) returns (action: Option<string>)
      requires Valid()
      ensures action == P.Awaited(history, roomId)
    {
      P.PendingIsLatestStart(history, roomId);
      action := if roomId in pendingCommands then Some(pendingCommands[roomId].action) else None;
    }
  }
}
