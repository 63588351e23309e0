/** The controller's external RAM and the routines that update it in place. Each routine is proved to do
    to the memory what its function in `Firmware` says. */
module FirmwareMemory {
  import opened Core
  import opened Bits
  import opened Firmware
  import opened PeriodReport

  class Controller {
    const panel: Panel
    const RECORD: array<Rec>
    const TSTATUS: array<Slot>
    const ROOMOUT: array<bv16>
    var recordIndex: nat
    var periodStart: nat
    var periodEnd: nat

    ghost predicate Valid()
      reads this, RECORD, TSTATUS, ROOMOUT
    {
      && RECORD.Length == MAXREC && TSTATUS.Length == SLOTS && ROOMOUT.Length == 16
      && periodStart == 0 && periodEnd <= recordIndex <= MAXREC
    }

    ghost function State(): Machine
      requires Valid()
      reads this, RECORD, TSTATUS, ROOMOUT
    {
      Machine(RECORD[..recordIndex], periodEnd, TSTATUS[..], ROOMOUT[..])
    }

    /** The memory after ClearRam. */
    constructor (panel: Panel)
      ensures Valid() && State() == Cleared() && this.panel == panel
      ensures fresh(RECORD) && fresh(TSTATUS) && fresh(ROOMOUT)
    {
      var idle := Clock(0xff, 0xff, 0xff, 0xff, 0xff);
      this.panel := panel;
      RECORD := new Rec[MAXREC](_ => Rec(0xff, 0xf, 0xf, idle));
      TSTATUS := new Slot[SLOTS](_ => Slot(UNSET, 0, 0, 0));
      ROOMOUT := new bv16[16](_ => 0);
      recordIndex, periodStart, periodEnd := 0, 0, 0;
      new;
      assert TSTATUS[..] == Cleared().slots;
      assert ROOMOUT[..] == Cleared().relays;
    }

    /** The search by card and port that every room-keyed routine starts with. */
    method SearchSlave(room: int) returns (slot: Option<nat>)
      ensures slot == Find(panel, room)
    {
      for card := 0 to panel.cards
        invariant Find(panel, room) == FindFrom(panel, room, card * PORTS)
      {
        for port := 0 to PORTS
          invariant Find(panel, room) == FindFrom(panel, room, card * PORTS + port)
        {
          if panel.room[card * PORTS + port] == room {
            return Some(card * PORTS + port);
          }
        }
      }
      return None;
    }

    method SaveStatus(room: int, mode: int, now: Clock)
      requires Valid()
      modifies TSTATUS
      ensures Valid() && State() == Firmware.SaveStatus(panel, old(State()), room, mode, now)
    {
      var slot := SearchSlave(room);
      if slot.Some? {
        TSTATUS[slot.value] := TSTATUS[slot.value].(mode := mode, hour := now.hour, min := now.min);
      }
    }

    method SaveAndPrint(room: int, mode: int, out: int, now: Clock)
      requires Valid()
      modifies this`recordIndex, RECORD, TSTATUS
      ensures Valid() && State() == Firmware.SaveAndPrint(panel, old(State()), room, mode, out, now)
    {
      if recordIndex < MAXREC {
        ghost var log := RECORD[..recordIndex];
        RECORD[recordIndex] := Rec(room, mode % 16, out % 16, now);
        SaveStatus(room, mode, now);
        recordIndex := recordIndex + 1;
        assert RECORD[..recordIndex] == log + [Rec(room, mode % 16, out % 16, now)];
      }
    }

    method RoomOnoff(room: int, sts: int)
      requires Valid()
      modifies ROOMOUT
      ensures Valid() && State() == Firmware.RoomOnoff(panel, old(State()), room, sts)
    {
      var slot := SearchSlave(room);
      if slot.Some? {
        var card, port := slot.value / PORTS, slot.value % PORTS;
        if IN <= sts <= OT {
          ROOMOUT[card] := WithBit(ROOMOUT[card], port, true);
        } else if sts == OUT {
          ROOMOUT[card] := WithBit(ROOMOUT[card], port, false);
        }
      }
    }

    method SaveOtime(room: int, total: int)
      requires Valid()
      modifies TSTATUS
      ensures Valid() && State() == Firmware.SaveOtime(panel, old(State()), room, total)
    {
      var slot := SearchSlave(room);
      if slot.Some? {
        TSTATUS[slot.value] := TSTATUS[slot.value].(total := total);
      }
    }

    /** SaveAndPrint, then RoomOnoff. */
    method Transition(room: int, mode: int, out: int, now: Clock)
      requires Valid()
      modifies this`recordIndex, RECORD, TSTATUS, ROOMOUT
      ensures Valid() && State() == Firmware.Transition(panel, old(State()), room, mode, out, now)
    {
      SaveAndPrint(room, mode, out, now);
      RoomOnoff(room, mode);
    }

    /** SelectRoom, a status chosen. */
    method Enter(room: int, key: Key, now: Clock)
      requires Valid()
      modifies this`recordIndex, RECORD, TSTATUS, ROOMOUT
      ensures Valid() && State() == Firmware.Enter(panel, old(State()), room, key, now)
    {
      var slot := SearchSlave(room);
      if slot.None? { return; }
      var mode := TSTATUS[slot.value].mode;
      if !Allowed(mode, key) { return; }
      if key == OT {
        SaveOtime(room, panel.otMinutes);
      }
      Transition(room, key, if key == OUT then mode else 0, now);
    }

    /** SelectRoom, overtime added. */
    method Extend(room: int, added: int)
      requires Valid()
      modifies TSTATUS
      ensures Valid() && State() == Firmware.Extend(panel, old(State()), room, added)
    {
      var slot := SearchSlave(room);
      if slot.Some? && TSTATUS[slot.value].mode == OT && added > 0 {
        SaveOtime(room, Int16(added + TSTATUS[slot.value].total));
      }
    }

    method CheckOverTime(now: Clock)
      requires Valid()
      modifies this`recordIndex, RECORD, TSTATUS, ROOMOUT
      ensures Valid() && State() == Firmware.CheckOverTime(panel, old(State()), panel.cards * PORTS, now)
    {
      for card := 0 to panel.cards
        invariant Valid() && State() == Firmware.CheckOverTime(panel, old(State()), card * PORTS, now)
      {
        for port := 0 to PORTS
          invariant Valid() && State() == Firmware.CheckOverTime(panel, old(State()), card * PORTS + port, now)
        {
          var k := card * PORTS + port;
          if Expired(now, TSTATUS[k]) {
            Transition(panel.room[k], OUT, OT, now);
          }
        }
      }
    }

    method CleanUpSlot(k: nat, carried: int, now: Clock) returns (rtctime: int)
      requires Valid() && k < SLOTS
      modifies this`recordIndex, RECORD, TSTATUS, ROOMOUT
      ensures Valid() && (State(), rtctime) == Firmware.CleanUpSlot(panel, old(State()), k, carried, now)
    {
      rtctime := carried;
      if TSTATUS[k].mode == CUP {
        var cleantime := TimetoInt(TSTATUS[k].hour, TSTATUS[k].min);
        if rtctime - cleantime < 0 {
          rtctime := rtctime + 1440;
        }
        if rtctime - cleantime >= panel.cleanUpMinutes {
          Transition(panel.room[k], OUT, CUP, now);
        }
      }
    }

    /** One card of CleanUP. */
    method CleanUpCard(card: nat, carried: int, now: Clock) returns (rtctime: int)
      requires Valid() && card < panel.cards
      modifies this`recordIndex, RECORD, TSTATUS, ROOMOUT
      ensures Valid()
      ensures forall s: Machine :: (old(State()), carried) == Firmware.CleanUp(panel, s, card * PORTS, now) ==>
        (State(), rtctime) == Firmware.CleanUp(panel, s, (card + 1) * PORTS, now)
    {
      rtctime := carried;
      for port := 0 to PORTS
        invariant Valid()
        invariant forall s: Machine :: (old(State()), carried) == Firmware.CleanUp(panel, s, card * PORTS, now) ==>
          (State(), rtctime) == Firmware.CleanUp(panel, s, card * PORTS + port, now)
      {
        rtctime := CleanUpSlot(card * PORTS + port, rtctime, now);
      }
    }

    method CleanUp(now: Clock)
      requires Valid()
      modifies this`recordIndex, RECORD, TSTATUS, ROOMOUT
      ensures Valid() && State() == Firmware.CleanUp(panel, old(State()), panel.cards * PORTS, now).0
    {
      var rtctime := TimetoInt(now.hour, now.min);
      for card := 0 to panel.cards
        invariant Valid() && (State(), rtctime) == Firmware.CleanUp(panel, old(State()), card * PORTS, now)
      {
        rtctime := CleanUpCard(card, rtctime, now);
      }
    }

    /** The main loop, when the minute changes. */
    method Poll(now: Clock)
      requires Valid()
      modifies this`recordIndex, RECORD, TSTATUS, ROOMOUT
      ensures Valid() && State() == Firmware.Poll(panel, old(State()), now)
    {
      CleanUp(now);
      CheckOverTime(now);
    }

    method AddPeriod()
      requires Valid()
      modifies this`periodEnd
      ensures Valid() && State() == Next(panel, old(State()), Step.AddPeriod)
    {
      periodEnd := recordIndex;
    }

    /** The overlapping shift: what follows the period moves to the front, in order, and the rest is blanked. */
    method ClearPeriod()
      requires Valid()
      modifies this`recordIndex, this`periodStart, this`periodEnd, RECORD
      ensures Valid() && State() == Next(panel, old(State()), Step.ClearPeriod)
      ensures old(periodEnd) > 0 ==> RECORD[..recordIndex] == old(RECORD[periodEnd..recordIndex])
      ensures old(periodEnd) > 0 ==> forall m :: recordIndex <= m < MAXREC ==> Blank(RECORD[m])
    {
      if periodStart == periodEnd { return; }
      var i := ShiftDown();
      recordIndex, periodStart, periodEnd := i, 0, 0;
      BlankFrom(i);
    }

    /** The first loop of ClearPeriod. */
    method ShiftDown() returns (i: nat)
      requires RECORD.Length == MAXREC && periodEnd <= recordIndex <= MAXREC
      modifies RECORD
      ensures i == recordIndex - periodEnd && RECORD[..i] == old(RECORD[periodEnd..recordIndex])
    {
      ghost var was := RECORD[..];
      var j := periodEnd;
      i := 0;
      while j < recordIndex
        modifies RECORD
        invariant i + periodEnd == j <= recordIndex
        invariant forall m :: 0 <= m < i ==> RECORD[m] == was[m + periodEnd]
        invariant forall m :: i <= m < MAXREC ==> RECORD[m] == was[m]
      {
        RECORD[i] := RECORD[j];
        i, j := i + 1, j + 1;
      }
      assert RECORD[..i] == was[periodEnd..recordIndex];
    }

    predicate Blank(rec: Rec) {
      rec.room == 0 && rec.mode == 0 && rec.out == 0
    }

    /** The second loop of ClearPeriod. */
    method BlankFrom(start: nat)
      requires start <= MAXREC == RECORD.Length
      modifies RECORD
      ensures RECORD[..start] == old(RECORD[..start])
      ensures forall m :: start <= m < MAXREC ==> Blank(RECORD[m])
    {
      var i := start;
      while i < MAXREC
        modifies RECORD
        invariant start <= i <= MAXREC
        invariant RECORD[..start] == old(RECORD[..start])
        invariant forall m :: start <= m < i ==> Blank(RECORD[m])
      {
        RECORD[i] := RECORD[i].(room := 0, mode := 0, out := 0);
        i := i + 1;
      }
    }

    method ClearRecord()
      requires Valid()
      modifies this`recordIndex, this`periodStart, this`periodEnd, RECORD
      ensures Valid() && State() == Next(panel, old(State()), Step.ClearRecord)
    {
      var i := 0;
      while i < MAXREC
      {
        RECORD[i] := Rec(0xff, 0xf, 0xf, Clock(0xff, 0xff, 0xff, 0xff, 0xff));
        i := i + 1;
      }
      recordIndex, periodStart, periodEnd := 0, 0, 0;
    }

    /** PrnPeriod, each printed line as a value. */
    method PrnPeriod() returns (lines: seq<Line>)
      requires Valid()
      ensures lines == if periodEnd == periodStart then [] else Report(RECORD[..periodEnd])
    {
      lines := [];
      if periodEnd == periodStart { return; }
      ghost var p := RECORD[..periodEnd];
      for room := FIRST_ROOM to LAST_ROOM + 1
        invariant lines == ReportBelow(p, room)
      {
        for i := periodStart to periodEnd
          invariant lines == ReportBelow(p, room) + RoomLines(p, room, i)
        {
          if room == RECORD[i].room {
            var mode := RECORD[i].mode;
            if Active(mode) {
              var out := ScanForOut(room, i);
              lines := lines + [Line(room, Some(i), out, mode)];
            } else if mode == OUT {
              var entered := ScanForEntry(room, i);
              if !entered {
                lines := lines + [Line(room, None, Some(i), RECORD[i].out)];
              }
            }
          }
        }
      }
    }

    /** The inner loop for an in/cup/ot record. */
    method ScanForOut(room: int, i: nat) returns (out: Option<nat>)
      requires Valid() && i < periodEnd
      ensures out == FirstOut(RECORD[..periodEnd], room, i)
    {
      ghost var p := RECORD[..periodEnd];
      for j := i to periodEnd
        invariant FirstOut(p, room, i) == FirstOut(p, room, j)
      {
        if room == RECORD[j].room && RECORD[j].mode == OUT {
          return Some(j);
        }
      }
      return None;
    }

    /** The inner loop for an OUT record. */
    method ScanForEntry(room: int, i: nat) returns (found: bool)
      requires Valid() && i < periodEnd
      ensures found == ActiveAmong(RECORD[..periodEnd], room, i + 1)
    {
      ghost var p := RECORD[..periodEnd];
      for j := i + 1 downto periodStart
        invariant ActiveAmong(p, room, i + 1) == ActiveAmong(p, room, j)
      {
        if room == RECORD[j].room && Active(RECORD[j].mode) {
          return true;
        }
      }
      return false;
    }
  }
}
