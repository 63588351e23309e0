/** The payloads the server publishes and the room list the cashier client keeps
    (`models/room.dart`, `state/room_store.dart`, the payload functions of `httpapi/events.go`). */
module Payloads {
  import opened Core
  import opened Database
  import opened Server
  import opened StringOrder

  /** A room object in JSON; None is an absent or null field. */
  datatype RoomJson = RoomJson(
    roomId: string, floor: Option<int>, status: Option<RoomStatus>, stayMode: Option<string>, caseCode: Option<string>,
    controllerOnline: Option<bool>, remainingMinutes: Option<int>)

  datatype Event =
    | FullState(rooms: seq<RoomJson>)
    | RoomUpdate(room: RoomJson)
    | AuditEvent(entry: Audit)
    | FraudAlert(auditId: string, roomId: string)

  /** What the channel of a subscriber holds. */
  const QUEUE_CAPACITY := 16

  /** Only a positive number of minutes is shown. */
  function Snapshot(r: RoomState): RoomJson {
    RoomJson(r.roomId, Some(r.floor), Some(r.status), Some(r.stayMode), Some(r.caseCode), Some(r.controllerOnline),
      if r.remainingMinutes > 0 then Some(r.remainingMinutes) else None)
  }

  /** roomUpdatePayload: a room the server does not know is sent with nothing but its id. */
  function UpdatePayload(rooms: map<string, RoomState>, roomId: string): RoomJson {
    if roomId in rooms then Snapshot(rooms[roomId]) else RoomJson(roomId, None, None, None, None, None, None)
  }

  /** alertForAudit: a door opened while the room stays vacant. */
  predicate AlertDue(rooms: map<string, RoomState>, entry: Audit) {
    entry.action == "open_room" && entry.roomId in rooms && rooms[entry.roomId].status == Vacant
  }

  function AlertFor(rooms: map<string, RoomState>, entry: Audit): seq<Event> {
    if AlertDue(rooms, entry) then [FraudAlert(entry.id, entry.roomId)] else []
  }

  lemma LeastExists(ids: set<string>) returns (least: string)
    requires ids != {}
    ensures least in ids && forall id :: id in ids && id != least ==> Less(least, id)
  {
    var some :| some in ids;
    if ids == {some} {
      return some;
    }
    var rest := LeastExists(ids - {some});
    Trichotomy(some, rest);
    if Less(some, rest) {
      forall id | id in ids && id != some ensures Less(some, id) {
        if id != rest {
          Transitive(some, rest, id);
        }
      }
      return some;
    }
    return rest;
  }

  /** The ids in ascending order. */
  ghost function SortedIds(ids: set<string>): (r: seq<string>)
    ensures Sorted(r)
    ensures forall id :: id in r <==> id in ids
  {
    if ids == {} then []
    else
      assert exists least :: least in ids && forall id :: id in ids && id != least ==> Less(least, id) by {
        var least := LeastExists(ids);
      }
      var least :| least in ids && forall id :: id in ids && id != least ==> Less(least, id);
      [least] + SortedIds(ids - {least})
  }

  /** The rooms of `list()`, as snapshots in ascending order of id. */
  ghost function SnapshotsOf(rooms: map<string, RoomState>, ids: seq<string>): (r: seq<RoomJson>)
    requires forall id :: id in ids ==> id in rooms
    ensures |r| == |ids| && forall i :: 0 <= i < |r| ==> r[i] == Snapshot(rooms[ids[i]])
  {
    if ids == [] then [] else SnapshotsOf(rooms, ids[..|ids| - 1]) + [Snapshot(rooms[ids[|ids| - 1]])]
  }

  ghost function FullStatePayload(rooms: map<string, RoomState>): Event {
    FullState(SnapshotsOf(rooms, SortedIds(rooms.Keys)))
  }
}

module Client {
  import opened Core
  import opened Database
  import opened Payloads
  import opened StringOrder

  datatype Room = Room(
    roomId: string, status: RoomStatus, stayMode: string, caseCode: string, floor: int, controllerOnline: bool,
    remainingMinutes: Option<int>)

  function FromJson(j: RoomJson): Room {
    Room(j.roomId, j.status.GetOr(Unknown), j.stayMode.GetOr(""), j.caseCode.GetOr(""), j.floor.GetOr(0),
      j.controllerOnline.GetOr(true), j.remainingMinutes)
  }

  /** copyWith: null keeps the old value. */
  function CopyWith(r: Room, status: Option<RoomStatus>, stayMode: Option<string>, caseCode: Option<string>,
      controllerOnline: Option<bool>, remainingMinutes: Option<int>): Room {
    Room(r.roomId, status.GetOr(r.status), stayMode.GetOr(r.stayMode), caseCode.GetOr(r.caseCode), r.floor,
      controllerOnline.GetOr(r.controllerOnline),
      if remainingMinutes.Some? then remainingMinutes else r.remainingMinutes)
  }

  /** What an update leaves of a listed room. */
  function Updated(listed: Room, sent: Room): Room {
    CopyWith(listed, Some(sent.status), Some(sent.stayMode), Some(sent.caseCode), Some(sent.controllerOnline),
      sent.remainingMinutes)
  }

  /** indexWhere */
  function IndexFrom(rooms: seq<Room>, roomId: string, i: nat): (r: Option<nat>)
    requires i <= |rooms|
    ensures r.Some? ==> i <= r.value < |rooms| && rooms[r.value].roomId == roomId
    ensures r.None? ==> forall m :: i <= m < |rooms| ==> rooms[m].roomId != roomId
    decreases |rooms| - i
  {
    if i == |rooms| then None else if rooms[i].roomId == roomId then Some(i) else IndexFrom(rooms, roomId, i + 1)
  }

  function Index(rooms: seq<Room>, roomId: string): (r: Option<nat>)
    ensures r.Some? ==> r.value < |rooms| && rooms[r.value].roomId == roomId
    ensures r.None? ==> forall m :: 0 <= m < |rooms| ==> rooms[m].roomId != roomId
  {
    IndexFrom(rooms, roomId, 0)
  }

  function Lookup(rooms: seq<Room>, roomId: string): Option<Room> {
    match Index(rooms, roomId)
    case None => None
    case Some(i) => Some(rooms[i])
  }

  function InsertById(rooms: seq<Room>, room: Room): seq<Room> {
    if rooms == [] || Less(rooms[|rooms| - 1].roomId, room.roomId) then rooms + [room]
    else InsertById(rooms[..|rooms| - 1], room) + [rooms[|rooms| - 1]]
  }

  /** `..sort` by id */
  function SortById(rooms: seq<Room>): seq<Room> {
    if rooms == [] then [] else InsertById(SortById(rooms[..|rooms| - 1]), rooms[|rooms| - 1])
  }

  function FromJsons(js: seq<RoomJson>): (r: seq<Room>)
    ensures |r| == |js| && forall i :: 0 <= i < |r| ==> r[i] == FromJson(js[i])
  {
    if js == [] then [] else FromJsons(js[..|js| - 1]) + [FromJson(js[|js| - 1])]
  }

  /** _handleEvent, on the room list. */
  function HandleEvent(rooms: seq<Room>, e: Event): seq<Room> {
    match e
    case FullState(js) => FromJsons(js)
    case RoomUpdate(j) =>
      var room := FromJson(j);
      (match Index(rooms, room.roomId)
       case None => SortById(rooms + [room])
       case Some(i) => rooms[i := Updated(rooms[i], room)])
    case AuditEvent(_) => rooms
    case FraudAlert(_, _) => rooms
  }

  // ----- the list stays sorted, with unique ids -----

  ghost predicate Ordered(rooms: seq<Room>) {
    forall i, j :: 0 <= i < j < |rooms| ==> Less(rooms[i].roomId, rooms[j].roomId)
  }

  ghost predicate OrderedJsons(js: seq<RoomJson>) {
    forall i, j :: 0 <= i < j < |js| ==> Less(js[i].roomId, js[j].roomId)
  }

  ghost predicate WellFormed(e: Event) {
    e.FullState? ==> OrderedJsons(e.rooms)
  }

  lemma {:induction false} SortedIsFixed(rooms: seq<Room>)
    requires Ordered(rooms)
    ensures SortById(rooms) == rooms
  {
    if rooms != [] {
      var n := |rooms| - 1;
      SortedIsFixed(rooms[..n]);
      assert rooms == rooms[..n] + [rooms[n]];
    }
  }

  lemma {:induction false} InsertOrdered(rooms: seq<Room>, room: Room)
    requires Ordered(rooms) && forall r :: r in rooms ==> r.roomId != room.roomId
    ensures Ordered(InsertById(rooms, room))
    ensures forall r :: r in InsertById(rooms, room) <==> r in rooms || r == room
  {
    if rooms != [] {
      var n := |rooms| - 1;
      assert rooms[n] in rooms;
      Trichotomy(rooms[n].roomId, room.roomId);
      if Less(rooms[n].roomId, room.roomId) {
        forall i | 0 <= i < n ensures Less(rooms[i].roomId, room.roomId) {
          Transitive(rooms[i].roomId, rooms[n].roomId, room.roomId);
        }
      } else {
        InsertOrdered(rooms[..n], room);
        var longer := InsertById(rooms[..n], room);
        forall i | 0 <= i < |longer| ensures Less(longer[i].roomId, rooms[n].roomId) {
          assert longer[i] in longer;
        }
        assert rooms == rooms[..n] + [rooms[n]];
      }
    }
  }

  lemma OrderedUnique(rooms: seq<Room>, i: nat, j: nat)
    requires Ordered(rooms) && i < |rooms| && j < |rooms| && rooms[i].roomId == rooms[j].roomId
    ensures i == j
  {
    Trichotomy(rooms[i].roomId, rooms[j].roomId);
  }

  /** In an ordered list the id finds the room. */
  lemma LookupMember(rooms: seq<Room>, room: Room)
    requires Ordered(rooms) && room in rooms
    ensures Lookup(rooms, room.roomId) == Some(room)
  {
    var i :| 0 <= i < |rooms| && rooms[i] == room;
    OrderedUnique(rooms, i, Index(rooms, room.roomId).value);
  }

  lemma UpdateInPlace(rooms: seq<Room>, i: nat, room: Room, roomId: string)
    requires Ordered(rooms) && i < |rooms| && room.roomId == rooms[i].roomId
    ensures Ordered(rooms[i := room])
    ensures Lookup(rooms[i := room], roomId) == if roomId == room.roomId then Some(room) else Lookup(rooms, roomId)
  {
    var after := rooms[i := room];
    assert forall k :: 0 <= k < |rooms| ==> after[k].roomId == rooms[k].roomId;
    var a, b := Index(after, roomId), Index(rooms, roomId);
    if roomId == room.roomId {
      OrderedUnique(after, a.value, i);
    } else if b.Some? {
      OrderedUnique(after, a.value, b.value);
    }
  }

  lemma InsertNew(rooms: seq<Room>, room: Room, roomId: string)
    requires Ordered(rooms) && Index(rooms, room.roomId).None?
    ensures Ordered(SortById(rooms + [room]))
    ensures Lookup(SortById(rooms + [room]), roomId) ==
      if roomId == room.roomId then Some(room) else Lookup(rooms, roomId)
  {
    assert (rooms + [room])[..|rooms|] == rooms;
    SortedIsFixed(rooms);
    InsertOrdered(rooms, room);
    var after := SortById(rooms + [room]);
    LookupMember(after, room);
    if roomId != room.roomId {
      assert forall i :: 0 <= i < |after| ==> after[i] in after;
      var b := Index(rooms, roomId);
      if b.Some? {
        LookupMember(after, rooms[b.value]);
      }
    }
  }

  /** An update changes the room it names and no other, and the list stays sorted with unique ids. */
  lemma UpdateHandled(rooms: seq<Room>, j: RoomJson, roomId: string)
    requires Ordered(rooms)
    ensures var after := HandleEvent(rooms, RoomUpdate(j));
      && Ordered(after)
      && Lookup(after, roomId) ==
           if roomId != j.roomId then Lookup(rooms, roomId)
           else match Lookup(rooms, roomId)
             case None => Some(FromJson(j))
             case Some(r) => Some(Updated(r, FromJson(j)))
  {
    var room := FromJson(j);
    match Index(rooms, room.roomId)
    case None => InsertNew(rooms, room, roomId);
    case Some(i) => UpdateInPlace(rooms, i, Updated(rooms[i], room), roomId);
  }

  lemma FromJsonsOrdered(js: seq<RoomJson>)
    requires OrderedJsons(js)
    ensures Ordered(FromJsons(js))
  {
    var rooms := FromJsons(js);
    forall i, j | 0 <= i < j < |rooms| ensures Less(rooms[i].roomId, rooms[j].roomId) {
      assert Less(js[i].roomId, js[j].roomId);
    }
  }

  lemma FullStateHandled(js: seq<RoomJson>, i: nat)
    requires OrderedJsons(js) && i < |js|
    ensures Lookup(FromJsons(js), js[i].roomId) == Some(FromJson(js[i]))
  {
    FromJsonsOrdered(js);
    var rooms := FromJsons(js);
    assert rooms[i] in rooms;
    LookupMember(rooms, rooms[i]);
  }

  /** Every event leaves a sorted list with unique ids. */
  lemma HandleKeepsOrder(rooms: seq<Room>, e: Event)
    requires Ordered(rooms) && WellFormed(e)
    ensures Ordered(HandleEvent(rooms, e))
  {
    match e
    case FullState(js) => FromJsonsOrdered(js);
    case RoomUpdate(j) => UpdateHandled(rooms, j, j.roomId);
    case AuditEvent(_) =>
    case FraudAlert(_, _) =>
  }

  function Fold(rooms: seq<Room>, events: seq<Event>): seq<Room> {
    if events == [] then rooms else HandleEvent(Fold(rooms, events[..|events| - 1]), events[|events| - 1])
  }

  lemma FoldAppend(rooms: seq<Room>, events: seq<Event>, e: Event)
    ensures Fold(rooms, events + [e]) == HandleEvent(Fold(rooms, events), e)
  {
    assert (events + [e])[..|events|] == events;
  }

  lemma {:induction false} FoldConcat(rooms: seq<Room>, a: seq<Event>, b: seq<Event>)
    ensures Fold(rooms, a + b) == Fold(Fold(rooms, a), b)
  {
    if b == [] {
      assert a + b == a;
    } else {
      var n := |b| - 1;
      FoldConcat(rooms, a, b[..n]);
      assert a + b == (a + b[..n]) + [b[n]];
      FoldAppend(rooms, a + b[..n], b[n]);
    }
  }

  lemma {:induction false} FoldOrdered(rooms: seq<Room>, events: seq<Event>)
    requires Ordered(rooms) && forall e :: e in events ==> WellFormed(e)
    ensures Ordered(Fold(rooms, events))
  {
    if events != [] {
      FoldOrdered(rooms, events[..|events| - 1]);
      HandleKeepsOrder(Fold(rooms, events[..|events| - 1]), events[|events| - 1]);
    }
  }
}
