/** The period report of the legacy controller (`PrnPeriod`), over the records of one period. */
module PeriodReport {
  import opened Core
  import opened Firmware
  import opened FirmwareInvariants

  const FIRST_ROOM := 100
  const LAST_ROOM := 999

  /** A printed line: the records whose dates stand in the "in" and "out" columns, and the status printed last. */
  datatype Line = Line(room: int, entered: Option<nat>, left: Option<nat>, kind: int)

  /** The inner scan of an in/cup/ot record: the first OUT of the room at or after `j`. */
  function FirstOut(p: seq<Rec>, room: int, j: nat): (r: Option<nat>)
    requires j <= |p|
    ensures r.Some? ==> j <= r.value < |p| && p[r.value].room == room && p[r.value].mode == OUT
    ensures r.Some? ==> forall m :: j <= m < r.value ==> !(p[m].room == room && p[m].mode == OUT)
    ensures r.None? ==> forall m :: j <= m < |p| ==> !(p[m].room == room && p[m].mode == OUT)
    decreases |p| - j
  {
    if j == |p| then None
    else if p[j].room == room && p[j].mode == OUT then Some(j)
    else FirstOut(p, room, j + 1)
  }

  /** The backward scan of an OUT record: is there an in/cup/ot record of the room among the first `n`? */
  function ActiveAmong(p: seq<Rec>, room: int, n: nat): (r: bool)
    requires n <= |p|
    ensures r <==> exists m :: 0 <= m < n && p[m].room == room && Active(p[m].mode)
  {
    n > 0 && ((p[n - 1].room == room && Active(p[n - 1].mode)) || ActiveAmong(p, room, n - 1))
  }

  /** What record `i` makes the report print while it is at `room`. */
  function LineAt(p: seq<Rec>, room: int, i: nat): Option<Line>
    requires i < |p|
  {
    if p[i].room != room then None
    else if Active(p[i].mode) then Some(Line(room, Some(i), FirstOut(p, room, i), p[i].mode))
    else if p[i].mode == OUT && !ActiveAmong(p, room, i + 1) then Some(Line(room, None, Some(i), p[i].out))
    else None
  }

  function RoomLines(p: seq<Rec>, room: int, n: nat): seq<Line>
    requires n <= |p|
  {
    if n == 0 then []
    else
      match LineAt(p, room, n - 1)
      case None => RoomLines(p, room, n - 1)
      case Some(line) => RoomLines(p, room, n - 1) + [line]
  }

  /** The lines of the rooms from 100 up to, not including, `room`. */
  function ReportBelow(p: seq<Rec>, room: int): seq<Line>
    requires FIRST_ROOM <= room
  {
    if room == FIRST_ROOM then [] else ReportBelow(p, room - 1) + RoomLines(p, room - 1, |p|)
  }

  function Report(p: seq<Rec>): seq<Line> {
    ReportBelow(p, LAST_ROOM + 1)
  }

  // ----- which lines there are -----

  /** The record a line is printed for. */
  function Owner(line: Line): Option<nat> {
    if line.entered.Some? then line.entered else line.left
  }

  predicate OwnsLine(p: seq<Rec>, line: Line) {
    match Owner(line)
    case None => false
    case Some(i) => i < |p| && LineAt(p, p[i].room, i) == Some(line)
  }

  predicate Printable(room: int) {
    100 <= room <= 999
  }

  ghost predicate OwnersDistinct(lines: seq<Line>) {
    forall a, b :: 0 <= a < b < |lines| ==> Owner(lines[a]) != Owner(lines[b])
  }

  lemma {:induction false} RoomLinesAre(p: seq<Rec>, room: int, n: nat)
    requires n <= |p|
    ensures forall line :: line in RoomLines(p, room, n) ==>
      OwnsLine(p, line) && Owner(line).value < n && p[Owner(line).value].room == room
    ensures forall i :: 0 <= i < n && LineAt(p, room, i).Some? ==> LineAt(p, room, i).value in RoomLines(p, room, n)
    ensures OwnersDistinct(RoomLines(p, room, n))
  {
    if n > 0 {
      RoomLinesAre(p, room, n - 1);
      var shorter := RoomLines(p, room, n - 1);
      assert forall a :: 0 <= a < |shorter| ==> shorter[a] in shorter;
    }
  }

  /** Every line belongs to a record of a room in [FIRST_ROOM, room), and each such record that prints has its line. */
  ghost predicate CoversBelow(p: seq<Rec>, lines: seq<Line>, room: int) {
    && (forall line :: line in lines ==> OwnsLine(p, line) && FIRST_ROOM <= p[Owner(line).value].room < room)
    && (forall i :: 0 <= i < |p| && FIRST_ROOM <= p[i].room < room && LineAt(p, p[i].room, i).Some? ==>
          LineAt(p, p[i].room, i).value in lines)
  }

  lemma DistinctAppend(p: seq<Rec>, below: seq<Line>, here: seq<Line>, room: int)
    requires OwnersDistinct(below) && OwnersDistinct(here)
    requires forall line :: line in below ==> OwnsLine(p, line) && p[Owner(line).value].room < room
    requires forall line :: line in here ==> OwnsLine(p, line) && p[Owner(line).value].room == room
    ensures OwnersDistinct(below + here)
  {
    assert forall a :: 0 <= a < |below| ==> below[a] in below;
    assert forall a :: 0 <= a < |here| ==> here[a] in here;
  }

  lemma {:induction false} ReportBelowAre(p: seq<Rec>, room: int)
    requires FIRST_ROOM <= room
    ensures CoversBelow(p, ReportBelow(p, room), room)
    ensures OwnersDistinct(ReportBelow(p, room))
    decreases room
  {
    if room > FIRST_ROOM {
      ReportBelowAre(p, room - 1);
      RoomLinesAre(p, room - 1, |p|);
      DistinctAppend(p, ReportBelow(p, room - 1), RoomLines(p, room - 1, |p|), room - 1);
    }
  }

  // ----- alternation at work -----

  ghost predicate FirstOfRoom(p: seq<Rec>, i: nat)
    requires i < |p|
  {
    forall m :: 0 <= m < i ==> p[m].room != p[i].room
  }

  ghost predicate LastOfRoom(p: seq<Rec>, i: nat)
    requires i < |p|
  {
    forall m :: i < m < |p| ==> p[m].room != p[i].room
  }

  /** The next record of the room of `i`, at or after `j`. */
  function NextFrom(p: seq<Rec>, i: nat, j: nat): (r: Option<nat>)
    requires i < j <= |p|
    requires forall m :: i < m < j ==> p[m].room != p[i].room
    ensures r.Some? ==> r.value < |p| && NextOfRoom(p, i, r.value)
    ensures r.None? ==> LastOfRoom(p, i)
    decreases |p| - j
  {
    if j == |p| then None else if p[j].room == p[i].room then Some(j) else NextFrom(p, i, j + 1)
  }

  function NextRecord(p: seq<Rec>, i: nat): (r: Option<nat>)
    requires i < |p|
    ensures r.Some? ==> r.value < |p| && NextOfRoom(p, i, r.value)
    ensures r.None? ==> LastOfRoom(p, i)
  {
    NextFrom(p, i, i + 1)
  }

  /** The latest record of the room of `i` among the first `n`. */
  function PreviousAmong(p: seq<Rec>, i: nat, n: nat): (r: Option<nat>)
    requires n <= i < |p|
    requires forall m :: n <= m < i ==> p[m].room != p[i].room
    ensures r.Some? ==> r.value < |p| && NextOfRoom(p, r.value, i)
    ensures r.None? ==> FirstOfRoom(p, i)
  {
    if n == 0 then None else if p[n - 1].room == p[i].room then Some(n - 1) else PreviousAmong(p, i, n - 1)
  }

  function PreviousRecord(p: seq<Rec>, i: nat): (r: Option<nat>)
    requires i < |p|
    ensures r.Some? ==> r.value < |p| && NextOfRoom(p, r.value, i)
    ensures r.None? ==> FirstOfRoom(p, i)
  {
    PreviousAmong(p, i, i)
  }

  /** The scan for an OUT stops at the very next record of the room. */
  lemma FirstOutIsNext(p: seq<Rec>, i: nat)
    requires Alternating(p) && i < |p| && Active(p[i].mode)
    ensures FirstOut(p, p[i].room, i) == NextRecord(p, i)
  {
    var next := NextRecord(p, i);
    if next.Some? {
      AlternatingAt(p, i, next.value);
    }
  }

  lemma OutAloneIsFirst(p: seq<Rec>, i: nat)
    requires Alternating(p) && i < |p| && p[i].mode == OUT
    ensures ActiveAmong(p, p[i].room, i + 1) <==> !FirstOfRoom(p, i)
  {
    var previous := PreviousRecord(p, i);
    if previous.Some? {
      AlternatingAt(p, previous.value, i);
    }
  }

  /** The record whose line record `i` stands on: the one it closes, or itself. */
  function LineOwner(p: seq<Rec>, i: nat): (o: nat)
    requires i < |p|
    ensures o < |p|
    ensures p[o].room == p[i].room
  {
    if p[i].mode == OUT && PreviousRecord(p, i).Some? then PreviousRecord(p, i).value else i
  }

  predicate StandsOn(line: Line, i: nat) {
    line.entered == Some(i) || line.left == Some(i)
  }

  lemma OwnerPrints(p: seq<Rec>, i: nat)
    requires Alternating(p) && i < |p| && OUT <= p[i].mode <= OT
    ensures var o := LineOwner(p, i);
      LineAt(p, p[o].room, o).Some? && StandsOn(LineAt(p, p[o].room, o).value, i)
  {
    if p[i].mode == OUT {
      OutAloneIsFirst(p, i);
      if PreviousRecord(p, i).Some? {
        var o := PreviousRecord(p, i).value;
        AlternatingAt(p, o, i);
        FirstOutIsNext(p, o);
        assert NextRecord(p, o) == Some(i);
      }
    }
  }

  lemma OnlyOwnerPrints(p: seq<Rec>, i: nat, line: Line)
    requires Alternating(p) && i < |p| && OUT <= p[i].mode <= OT
    requires OwnsLine(p, line) && StandsOn(line, i)
    ensures Owner(line) == Some(LineOwner(p, i))
  {
    var o := Owner(line).value;
    if Active(p[o].mode) {
      FirstOutIsNext(p, o);
      if o != i {
        assert NextOfRoom(p, o, i);
        var previous := PreviousRecord(p, i);
        assert previous.Some? && previous.value == o;
      }
    } else {
      OutAloneIsFirst(p, i);
    }
  }

  // ----- main results -----

  lemma {:induction false} StatusesInLog(p: seq<Rec>, i: nat)
    requires Alternating(p) && i < |p|
    ensures OUT <= p[i].mode <= OT
  {
    if i < |p| - 1 {
      StatusesInLog(p[..|p| - 1], i);
    }
  }

  /** Every record of a three-digit room stands on exactly one line of the report. */
  lemma ReportPartitionsPeriod(p: seq<Rec>, i: nat)
    requires Alternating(p) && i < |p| && Printable(p[i].room)
    ensures exists a :: 0 <= a < |Report(p)| && StandsOn(Report(p)[a], i)
    ensures forall a, b | 0 <= a < |Report(p)| && 0 <= b < |Report(p)| ::
      StandsOn(Report(p)[a], i) && StandsOn(Report(p)[b], i) ==> a == b
  {
    var lines := Report(p);
    ReportBelowAre(p, LAST_ROOM + 1);
    StatusesInLog(p, i);
    OwnerPrints(p, i);
    var o := LineOwner(p, i);
    assert LineAt(p, p[o].room, o).value in lines;
    forall a | 0 <= a < |lines| && StandsOn(lines[a], i) ensures Owner(lines[a]) == Some(o) {
      assert lines[a] in lines;
      OnlyOwnerPrints(p, i, lines[a]);
    }
  }

  /** An in/cup/ot record opens a line that is closed by the next record of its room, if there is one; an OUT
      record has a line to itself exactly when it is the first of its room. */
  lemma ReportPairsRecords(p: seq<Rec>, line: Line)
    requires Alternating(p) && line in Report(p)
    ensures line.entered.Some? ==>
      var i := line.entered.value;
      i < |p| && Printable(p[i].room) && Active(p[i].mode) &&
      line == Line(p[i].room, Some(i), NextRecord(p, i), p[i].mode)
    ensures line.entered.None? ==>
      line.left.Some? &&
      var i := line.left.value;
      i < |p| && Printable(p[i].room) && p[i].mode == OUT && FirstOfRoom(p, i) &&
      line == Line(p[i].room, None, Some(i), p[i].out)
  {
    ReportBelowAre(p, LAST_ROOM + 1);
    var i := Owner(line).value;
    if line.entered.Some? {
      FirstOutIsNext(p, i);
    } else {
      OutAloneIsFirst(p, i);
    }
  }

  /** An OUT of a printable room has a line to itself if and only if it is the first of its room in the period. */
  lemma OutAloneExactlyWhenFirst(p: seq<Rec>, i: nat)
    requires Alternating(p) && i < |p| && Printable(p[i].room) && p[i].mode == OUT
    ensures Line(p[i].room, None, Some(i), p[i].out) in Report(p) <==> FirstOfRoom(p, i)
  {
    ReportBelowAre(p, LAST_ROOM + 1);
    OutAloneIsFirst(p, i);
  }

  /** Every in/cup/ot record of a printable room opens its line. */
  lemma EntryOpensLine(p: seq<Rec>, i: nat)
    requires Alternating(p) && i < |p| && Printable(p[i].room) && Active(p[i].mode)
    ensures Line(p[i].room, Some(i), NextRecord(p, i), p[i].mode) in Report(p)
  {
    ReportBelowAre(p, LAST_ROOM + 1);
    FirstOutIsNext(p, i);
  }

  /** `a` comes before `b` in the report: of a lower room, or of the same room and for an earlier record. */
  predicate Earlier(a: Line, b: Line)
    requires Owner(a).Some? && Owner(b).Some?
  {
    a.room < b.room || (a.room == b.room && Owner(a).value < Owner(b).value)
  }

  ghost predicate InOrder(lines: seq<Line>) {
    && (forall a :: 0 <= a < |lines| ==> Owner(lines[a]).Some?)
    && (forall a, b :: 0 <= a < b < |lines| ==> Earlier(lines[a], lines[b]))
  }

  lemma {:induction false} RoomLinesInOrder(p: seq<Rec>, room: int, n: nat)
    requires n <= |p|
    ensures InOrder(RoomLines(p, room, n))
    ensures forall line :: line in RoomLines(p, room, n) ==>
      Owner(line).Some? && Owner(line).value < n && line.room == room
  {
    if n > 0 {
      RoomLinesInOrder(p, room, n - 1);
      var shorter := RoomLines(p, room, n - 1);
      assert forall a :: 0 <= a < |shorter| ==> shorter[a] in shorter;
    }
  }

  lemma OrderedConcat(below: seq<Line>, here: seq<Line>, room: int)
    requires InOrder(below) && InOrder(here)
    requires (forall line :: line in below ==> line.room < room) && forall line :: line in here ==> line.room == room
    ensures InOrder(below + here) && forall line :: line in below + here ==> line.room < room + 1
  {
    assert forall a :: 0 <= a < |below| ==> below[a] in below;
    assert forall a :: 0 <= a < |here| ==> here[a] in here;
  }

  lemma {:induction false} ReportBelowInOrder(p: seq<Rec>, room: int)
    requires FIRST_ROOM <= room
    ensures InOrder(ReportBelow(p, room))
    ensures forall line :: line in ReportBelow(p, room) ==> line.room < room
    decreases room
  {
    if room > FIRST_ROOM {
      ReportBelowInOrder(p, room - 1);
      RoomLinesInOrder(p, room - 1, |p|);
      OrderedConcat(ReportBelow(p, room - 1), RoomLines(p, room - 1, |p|), room - 1);
    }
  }

  /** The lines stand in the order of the rooms, and those of one room in the order of their records. */
  lemma ReportIsInOrder(p: seq<Rec>)
    ensures InOrder(Report(p))
    ensures forall line :: line in Report(p) ==> 100 <= line.room <= 999
  {
    ReportBelowInOrder(p, LAST_ROOM + 1);
    ReportBelowAre(p, LAST_ROOM + 1);
    forall line | line in Report(p) ensures 100 <= line.room <= 999 {
      assert OwnsLine(p, line);
    }
  }

  /** The period of a reachable machine. */
  function Period(panel: Panel, steps: seq<Step>): seq<Rec> {
    var s := Run(panel, steps);
    if s.periodEnd <= |s.log| then s.log[..s.periodEnd] else []
  }

  lemma PeriodAlternates(panel: Panel, steps: seq<Step>)
    ensures Run(panel, steps).periodEnd <= |Run(panel, steps).log|
    ensures Alternating(Period(panel, steps))
  {
    RunKeepsInv(panel, steps);
    AlternatingPrefix(Run(panel, steps).log, Run(panel, steps).periodEnd);
  }

  /** After any run: each record of a printable room in the period stands on one line and no other. */
  lemma ReachableReportIsExact(panel: Panel, steps: seq<Step>, i: nat)
    requires i < |Period(panel, steps)| && Printable(Period(panel, steps)[i].room)
    ensures var lines := Report(Period(panel, steps));
      exists a | 0 <= a < |lines| :: StandsOn(lines[a], i) && forall b | 0 <= b < |lines| :: StandsOn(lines[b], i) ==>
        a == b
  {
    PeriodAlternates(panel, steps);
    ReportPartitionsPeriod(Period(panel, steps), i);
  }
}
