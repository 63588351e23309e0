/** The room machine and event log of the legacy controller (`AMP_V2D.C`), as functions of its memory. */
module Firmware {
  import opened Core
  import opened Bits

  const MAXREC := 3800
  const PORTS := 16
  const SLOTS := 256

  const NONE := 0      // room has no port
  const OUT := 1
  const IN := 2
  const CUP := 3
  const OT := 4
  const UNSET := 0xff  // slot never used since the memory was cleared

  predicate Active(mode: int) {
    mode == IN || mode == CUP || mode == OT
  }

  /** The real-time clock, as the chip delivers it: every field is a BCD byte. */
  datatype Clock = Clock(hour: int, min: int, date: int, month: int, year: int)

  /** A log record; `mode` and `out` are 4-bit fields. */
  datatype Rec = Rec(room: int, mode: int, out: int, at: Clock)

  datatype Slot = Slot(mode: int, hour: int, min: int, total: int)

  /** The configuration, fixed during a run. Card `i`, port `j` is slot `i * 16 + j`. */
  datatype PanelData = PanelData(room: seq<int>, cards: nat, otMinutes: int, cleanUpMinutes: int)
  type Panel = p: PanelData | |p.room| == SLOTS && p.cards <= 16
    witness PanelData(seq(SLOTS, _ => 0), 0, 0, 0)

  /** The memory that survives between key presses. */
  datatype MachineData = Machine(log: seq<Rec>, periodEnd: nat, slots: seq<Slot>, relays: seq<bv16>)
  type Machine = m: MachineData | |m.slots| == SLOTS && |m.relays| == 16
    witness Machine([], 0, seq(SLOTS, _ => Slot(UNSET, 0, 0, 0)), seq(16, _ => 0))

  /** After ClearRam. */
  function Cleared(): Machine {
    Machine([], 0, seq(SLOTS, _ => Slot(UNSET, 0, 0, 0)), seq(16, _ => 0))
  }

  // ----- time -----

  /** `atoi` of the two hex digits `sprintf("%02bx")` prints for a byte. */
  function HexDigitsToInt(b: int): int {
    var hi, lo := (b % 256) / 16, b % 16;
    if hi > 9 then 0 else if lo > 9 then hi else hi * 10 + lo
  }

  function TimetoInt(hour: int, min: int): int {
    HexDigitsToInt(hour) * 60 + HexDigitsToInt(min)
  }

  /** 16-bit `int` of the 8051 compiler. */
  function Int16(x: int): int {
    (x + 0x8000) % 0x1_0000 - 0x8000
  }

  // ----- the room table -----

  /** First slot at or after `k` that carries the room. */
  function FindFrom(p: Panel, room: int, k: nat): (r: Option<nat>)
    requires k <= p.cards * PORTS
    ensures r.Some? ==> k <= r.value < p.cards * PORTS && p.room[r.value] == room
    ensures r.Some? ==> forall m :: k <= m < r.value ==> p.room[m] != room
    ensures r.None? ==> forall m :: k <= m < p.cards * PORTS ==> p.room[m] != room
    decreases p.cards * PORTS - k
  {
    if k == p.cards * PORTS then None
    else if p.room[k] == room then Some(k)
    else FindFrom(p, room, k + 1)
  }

  /** The slot every room-keyed function uses: the first that carries the room. */
  function Find(p: Panel, room: int): (r: Option<nat>)
    ensures r.Some? ==> r.value < SLOTS && p.room[r.value] == room
  {
    FindFrom(p, room, 0)
  }

  function GetStatus(p: Panel, s: Machine, room: int): int {
    match Find(p, room)
    case None => NONE
    case Some(k) => s.slots[k].mode
  }

  // ----- state changes -----

  function SaveStatus(p: Panel, s: Machine, room: int, mode: int, now: Clock): Machine {
    match Find(p, room)
    case None => s
    case Some(k) => s.(slots := s.slots[k := s.slots[k].(mode := mode, hour := now.hour, min := now.min)])
  }

  /** A full log refuses the record, and then the status stays as it was too. */
  function SaveAndPrint(p: Panel, s: Machine, room: int, mode: int, out: int, now: Clock): Machine {
    if |s.log| < MAXREC
    then SaveStatus(p, s.(log := s.log + [Rec(room, mode % 16, out % 16, now)]), room, mode, now)
    else s
  }

  function RoomOnoff(p: Panel, s: Machine, room: int, sts: int): Machine {
    match Find(p, room)
    case None => s
    case Some(k) =>
      if IN <= sts <= OT then s.(relays := s.relays[k / 16 := WithBit(s.relays[k / 16], k % 16, true)])
      else if sts == OUT then s.(relays := s.relays[k / 16 := WithBit(s.relays[k / 16], k % 16, false)])
      else s
  }

  function SaveOtime(p: Panel, s: Machine, room: int, total: int): Machine {
    match Find(p, room)
    case None => s
    case Some(k) => s.(slots := s.slots[k := s.slots[k].(total := total)])
  }

  /** Every transition is a record followed by a relay switch. */
  function Transition(p: Panel, s: Machine, room: int, mode: int, out: int, now: Clock): Machine {
    RoomOnoff(p, SaveAndPrint(p, s, room, mode, out, now), room, mode)
  }

  type Key = k: int | OUT <= k <= OT witness OUT

  /** The keys SelectRoom takes for a room in this status. */
  predicate Allowed(mode: int, key: Key) {
    mode != NONE && mode != key && !(Active(mode) && Active(key))
  }

  /** SelectRoom, when the operator picks a status and presses ENT. */
  function Enter(p: Panel, s: Machine, room: int, key: Key, now: Clock): Machine {
    var mode := GetStatus(p, s, room);
    if !Allowed(mode, key) then s
    else
      var timed := if key == OT then SaveOtime(p, s, room, p.otMinutes) else s;
      Transition(p, timed, room, key, if key == OUT then mode else 0, now)
  }

  /** SelectRoom, when the operator adds overtime; `added` is 0 when the entry is abandoned. */
  function Extend(p: Panel, s: Machine, room: int, added: int): Machine {
    match Find(p, room)
    case None => s
    case Some(k) =>
      if s.slots[k].mode == OT && added > 0 then SaveOtime(p, s, room, Int16(added + s.slots[k].total)) else s
  }

  /** Minutes since the slot's time on a clock that wraps at midnight. */
  function Elapsed(now: Clock, slot: Slot): int {
    var d := TimetoInt(now.hour, now.min) - TimetoInt(slot.hour, slot.min);
    if d < 0 then d + 1440 else d
  }

  predicate Expired(now: Clock, slot: Slot) {
    slot.mode == OT && Elapsed(now, slot) >= slot.total
  }

  /** CheckOverTime, after its first `n` slots. */
  function CheckOverTime(p: Panel, s: Machine, n: nat, now: Clock): Machine
    requires n <= p.cards * PORTS
  {
    if n == 0 then s
    else
      var before := CheckOverTime(p, s, n - 1, now);
      if Expired(now, before.slots[n - 1]) then Transition(p, before, p.room[n - 1], OUT, OT, now) else before
  }

  /** CleanUP at one slot, with the clock value it carries from slot to slot. */
  function CleanUpSlot(p: Panel, s: Machine, k: nat, carried: int, now: Clock): (Machine, int)
    requires k < SLOTS
  {
    if s.slots[k].mode != CUP then (s, carried)
    else
      var started := TimetoInt(s.slots[k].hour, s.slots[k].min);
      var rtc := if carried - started < 0 then carried + 1440 else carried;
      if rtc - started >= p.cleanUpMinutes then (Transition(p, s, p.room[k], OUT, CUP, now), rtc) else (s, rtc)
  }

  /** CleanUP, after its first `n` slots. */
  function CleanUp(p: Panel, s: Machine, n: nat, now: Clock): (Machine, int)
    requires n <= p.cards * PORTS
  {
    if n == 0 then (s, TimetoInt(now.hour, now.min))
    else
      var (before, carried) := CleanUp(p, s, n - 1, now);
      CleanUpSlot(p, before, n - 1, carried, now)
  }

  /** What the main loop does when the minute changes. */
  function Poll(p: Panel, s: Machine, now: Clock): Machine {
    CheckOverTime(p, CleanUp(p, s, p.cards * PORTS, now).0, p.cards * PORTS, now)
  }

  datatype Step =
    | DoEnter(room: int, key: Key, now: Clock)
    | DoExtend(room: int, added: int)
    | DoPoll(now: Clock)
    | AddPeriod
    | ClearPeriod
    | ClearRecord

  function Next(p: Panel, s: Machine, step: Step): Machine {
    match step
    case DoEnter(room, key, now) => Enter(p, s, room, key, now)
    case DoExtend(room, added) => Extend(p, s, room, added)
    case DoPoll(now) => Poll(p, s, now)
    case AddPeriod => s.(periodEnd := |s.log|)
    case ClearPeriod =>
      if s.periodEnd == 0 || s.periodEnd > |s.log| then s else s.(log := s.log[s.periodEnd..], periodEnd := 0)
    case ClearRecord => s.(log := [], periodEnd := 0)
  }

  function Run(p: Panel, steps: seq<Step>): Machine {
    if steps == [] then Cleared() else Next(p, Run(p, steps[..|steps| - 1]), steps[|steps| - 1])
  }
}

/** What every run of the machine keeps. */
module FirmwareInvariants {
  import opened Core
  import opened Bits
  import opened Firmware

  /** Mode of the room's latest record. */
  function LastMode(log: seq<Rec>, room: int): Option<int> {
    if log == [] then None
    else if log[|log| - 1].room == room then Some(log[|log| - 1].mode)
    else LastMode(log[..|log| - 1], room)
  }

  predicate Follows(previous: Option<int>, rec: Rec) {
    OUT <= rec.mode <= OT &&
    match previous
    case None => true
    case Some(m) => if rec.mode == OUT then Active(m) && rec.out == m else m == OUT
  }

  predicate Alternating(log: seq<Rec>) {
    log == [] ||
    (Alternating(log[..|log| - 1]) && Follows(LastMode(log[..|log| - 1], log[|log| - 1].room), log[|log| - 1]))
  }

  ghost predicate SlotsOk(p: Panel, s: Machine) {
    forall k :: 0 <= k < SLOTS ==>
      (s.slots[k].mode == UNSET || (OUT <= s.slots[k].mode <= OT && Find(p, p.room[k]) == Some(k)))
  }

  ghost predicate LogMatchesSlots(p: Panel, s: Machine) {
    forall room :: LastMode(s.log, room).Some? ==>
      Find(p, room).Some? && s.slots[Find(p, room).value].mode == LastMode(s.log, room).value
  }

  ghost predicate Inv(p: Panel, s: Machine) {
    && s.periodEnd <= |s.log| <= MAXREC
    && Alternating(s.log)
    && SlotsOk(p, s)
    && LogMatchesSlots(p, s)
  }

  lemma LastModeAppend(log: seq<Rec>, rec: Rec, room: int)
    ensures LastMode(log + [rec], room) == if rec.room == room then Some(rec.mode) else LastMode(log, room)
  {
    assert (log + [rec])[..|log|] == log;
  }

  lemma AlternatingAppend(log: seq<Rec>, rec: Rec)
    requires Alternating(log) && Follows(LastMode(log, rec.room), rec)
    ensures Alternating(log + [rec])
  {
    assert (log + [rec])[..|log|] == log;
  }

  lemma {:induction false} LastModeIsStatus(log: seq<Rec>, room: int)
    requires Alternating(log)
    ensures LastMode(log, room).Some? ==> OUT <= LastMode(log, room).value <= OT
  {
    if log != [] {
      LastModeIsStatus(log[..|log| - 1], room);
    }
  }

  /** When a transition of slot `k` is legal: never to the same kind, and an OUT names what it closes. */
  predicate Legal(s: Machine, k: nat, mode: int, out: int)
    requires k < SLOTS
  {
    && OUT <= mode <= OT
    && mode != s.slots[k].mode
    && !(Active(mode) && Active(s.slots[k].mode))
    && (mode == OUT ==> out == s.slots[k].mode)
  }

  lemma LegalFollows(p: Panel, s: Machine, room: int, k: nat, mode: int, out: int, now: Clock)
    requires Inv(p, s) && Find(p, room) == Some(k) && Legal(s, k, mode, out)
    ensures Follows(LastMode(s.log, room), Rec(room, mode % 16, out % 16, now))
  {
    LastModeIsStatus(s.log, room);
    assert LastMode(s.log, room).Some? ==> s.slots[k].mode == LastMode(s.log, room).value;
  }

  lemma TransitionLog(p: Panel, s: Machine, room: int, k: nat, mode: int, out: int, now: Clock)
    requires Inv(p, s) && Find(p, room) == Some(k) && Legal(s, k, mode, out)
    ensures Alternating(Transition(p, s, room, mode, out, now).log)
    ensures |Transition(p, s, room, mode, out, now).log| <= MAXREC
  {
    if |s.log| < MAXREC {
      LegalFollows(p, s, room, k, mode, out, now);
      AlternatingAppend(s.log, Rec(room, mode % 16, out % 16, now));
    }
  }

  lemma TransitionSlots(p: Panel, s: Machine, room: int, k: nat, mode: int, out: int, now: Clock)
    requires Inv(p, s) && Find(p, room) == Some(k) && Legal(s, k, mode, out)
    ensures SlotsOk(p, Transition(p, s, room, mode, out, now))
    ensures LogMatchesSlots(p, Transition(p, s, room, mode, out, now))
  {
    var t := Transition(p, s, room, mode, out, now);
    forall r | LastMode(t.log, r).Some?
      ensures Find(p, r).Some? && t.slots[Find(p, r).value].mode == LastMode(t.log, r).value
    {
      if |s.log| < MAXREC {
        LastModeAppend(s.log, Rec(room, mode % 16, out % 16, now), r);
      }
    }
  }

  lemma TransitionKeepsInv(p: Panel, s: Machine, room: int, k: nat, mode: int, out: int, now: Clock)
    requires Inv(p, s) && Find(p, room) == Some(k) && Legal(s, k, mode, out)
    ensures Inv(p, Transition(p, s, room, mode, out, now))
  {
    TransitionLog(p, s, room, k, mode, out, now);
    TransitionSlots(p, s, room, k, mode, out, now);
  }

  lemma SaveOtimeKeepsInv(p: Panel, s: Machine, room: int, total: int)
    requires Inv(p, s)
    ensures Inv(p, SaveOtime(p, s, room, total))
  {
    var t := SaveOtime(p, s, room, total);
    assert forall k :: 0 <= k < SLOTS ==> t.slots[k].mode == s.slots[k].mode;
  }

  lemma EnterKeepsInv(p: Panel, s: Machine, room: int, key: Key, now: Clock)
    requires Inv(p, s)
    ensures Inv(p, Enter(p, s, room, key, now))
  {
    var mode := GetStatus(p, s, room);
    if Allowed(mode, key) {
      var k := Find(p, room).value;
      var timed := if key == OT then SaveOtime(p, s, room, p.otMinutes) else s;
      SaveOtimeKeepsInv(p, s, room, p.otMinutes);
      TransitionKeepsInv(p, timed, room, k, key, if key == OUT then mode else 0, now);
    }
  }

  lemma {:induction false} CheckOverTimeKeepsInv(p: Panel, s: Machine, n: nat, now: Clock)
    requires Inv(p, s) && n <= p.cards * PORTS
    ensures Inv(p, CheckOverTime(p, s, n, now))
  {
    if n > 0 {
      CheckOverTimeKeepsInv(p, s, n - 1, now);
      var before := CheckOverTime(p, s, n - 1, now);
      if Expired(now, before.slots[n - 1]) {
        TransitionKeepsInv(p, before, p.room[n - 1], n - 1, OUT, OT, now);
      }
    }
  }

  lemma {:induction false} CleanUpKeepsInv(p: Panel, s: Machine, n: nat, now: Clock)
    requires Inv(p, s) && n <= p.cards * PORTS
    ensures Inv(p, CleanUp(p, s, n, now).0)
  {
    if n > 0 {
      CleanUpKeepsInv(p, s, n - 1, now);
      var before := CleanUp(p, s, n - 1, now).0;
      if before.slots[n - 1].mode == CUP {
        TransitionKeepsInv(p, before, p.room[n - 1], n - 1, OUT, CUP, now);
      }
    }
  }

  lemma {:induction false} LastModeOfTail(log: seq<Rec>, from: nat, room: int)
    requires from <= |log|
    ensures LastMode(log[from..], room).Some? ==> LastMode(log[from..], room) == LastMode(log, room)
  {
    if from < |log| {
      var n := |log| - 1;
      assert log[from..][..n - from] == log[..n][from..];
      LastModeOfTail(log[..n], from, room);
    }
  }

  lemma {:induction false} AlternatingTail(log: seq<Rec>, from: nat)
    requires from <= |log| && Alternating(log)
    ensures Alternating(log[from..])
  {
    if from < |log| {
      var n := |log| - 1;
      assert log[from..][..n - from] == log[..n][from..];
      AlternatingTail(log[..n], from);
      LastModeOfTail(log[..n], from, log[n].room);
    }
  }

  lemma ShorterLogKeepsInv(p: Panel, s: Machine, t: Machine, from: nat)
    requires Inv(p, s) && from <= |s.log|
    requires t == s.(log := s.log[from..], periodEnd := 0)
    ensures Inv(p, t)
  {
    AlternatingTail(s.log, from);
    forall room | LastMode(t.log, room).Some?
      ensures Find(p, room).Some? && t.slots[Find(p, room).value].mode == LastMode(t.log, room).value
    {
      LastModeOfTail(s.log, from, room);
    }
  }

  lemma NextKeepsInv(p: Panel, s: Machine, step: Step)
    requires Inv(p, s)
    ensures Inv(p, Next(p, s, step))
  {
    match step
    case DoEnter(room, key, now) => EnterKeepsInv(p, s, room, key, now);
    case DoExtend(room, added) =>
      if Find(p, room).Some? {
        SaveOtimeKeepsInv(p, s, room, Int16(added + s.slots[Find(p, room).value].total));
      }
    case DoPoll(now) =>
      CleanUpKeepsInv(p, s, p.cards * PORTS, now);
      CheckOverTimeKeepsInv(p, CleanUp(p, s, p.cards * PORTS, now).0, p.cards * PORTS, now);
    case AddPeriod =>
    case ClearPeriod => ShorterLogKeepsInv(p, s, s.(log := s.log[s.periodEnd..], periodEnd := 0), s.periodEnd);
    case ClearRecord =>
      assert s.log[|s.log|..] == [];
      ShorterLogKeepsInv(p, s, s.(log := [], periodEnd := 0), |s.log|);
  }

  lemma ClearedInv(p: Panel)
    ensures Inv(p, Cleared())
  {
  }

  lemma {:induction false} RunKeepsInv(p: Panel, steps: seq<Step>)
    ensures Inv(p, Run(p, steps)) && |Run(p, steps).log| <= 3800
  {
    if steps == [] {
      ClearedInv(p);
    } else {
      RunKeepsInv(p, steps[..|steps| - 1]);
      NextKeepsInv(p, Run(p, steps[..|steps| - 1]), steps[|steps| - 1]);
    }
  }

  // ----- main results -----

  /** `j` is the next record of the room of `i`. */
  ghost predicate NextOfRoom(log: seq<Rec>, i: nat, j: nat)
    requires i < |log| && j < |log|
  {
    i < j && log[i].room == log[j].room && forall m :: i < m < j ==> log[m].room != log[i].room
  }

  lemma {:induction false} LastModeBefore(log: seq<Rec>, i: nat, n: nat)
    requires i < n <= |log|
    requires forall m :: i < m < n ==> log[m].room != log[i].room
    ensures LastMode(log[..n], log[i].room) == Some(log[i].mode)
  {
    assert log[..n][..n - 1] == log[..n - 1];
    if i < n - 1 {
      LastModeBefore(log, i, n - 1);
    }
  }

  lemma {:induction false} AlternatingPrefix(log: seq<Rec>, n: nat)
    requires n <= |log| && Alternating(log)
    ensures Alternating(log[..n])
  {
    if n < |log| {
      AlternatingPrefix(log[..|log| - 1], n);
      assert log[..|log| - 1][..n] == log[..n];
    } else {
      assert log[..n] == log;
    }
  }

  lemma AlternatingAt(log: seq<Rec>, i: nat, j: nat)
    requires Alternating(log) && i < |log| && j < |log| && NextOfRoom(log, i, j)
    ensures (log[j].mode == OUT) == Active(log[i].mode) && (log[i].mode == OUT) == Active(log[j].mode)
    ensures log[j].mode == OUT ==> log[j].out == log[i].mode
  {
    AlternatingPrefix(log, j + 1);
    assert log[..j + 1][..j] == log[..j];
    LastModeBefore(log, i, j);
  }

  /** In every reachable log, for every room table: consecutive records of a room are one OUT and one
      in/cup/ot, and the OUT names the mode it closes. */
  lemma LogAlternates(p: Panel, steps: seq<Step>, i: nat, j: nat)
    requires var log := Run(p, steps).log; i < |log| && j < |log| && NextOfRoom(log, i, j)
    ensures var log := Run(p, steps).log;
      && (log[i].mode == OUT <==> Active(log[j].mode))
      && (log[j].mode == OUT <==> Active(log[i].mode))
      && (log[j].mode == OUT ==> log[j].out == log[i].mode)
  {
    RunKeepsInv(p, steps);
    AlternatingAt(Run(p, steps).log, i, j);
  }

  // ----- the log only grows between clears -----

  predicate Extends(s: Machine, t: Machine) {
    s.log <= t.log
  }

  lemma TransitionExtends(p: Panel, s: Machine, room: int, mode: int, out: int, now: Clock)
    ensures Extends(s, Transition(p, s, room, mode, out, now))
  {
  }

  lemma {:induction false} CheckOverTimeExtends(p: Panel, s: Machine, n: nat, now: Clock)
    requires n <= p.cards * PORTS
    ensures Extends(s, CheckOverTime(p, s, n, now))
  {
    if n > 0 {
      CheckOverTimeExtends(p, s, n - 1, now);
      TransitionExtends(p, CheckOverTime(p, s, n - 1, now), p.room[n - 1], OUT, OT, now);
    }
  }

  lemma {:induction false} CleanUpExtends(p: Panel, s: Machine, n: nat, now: Clock)
    requires n <= p.cards * PORTS
    ensures Extends(s, CleanUp(p, s, n, now).0)
  {
    if n > 0 {
      CleanUpExtends(p, s, n - 1, now);
      TransitionExtends(p, CleanUp(p, s, n - 1, now).0, p.room[n - 1], OUT, CUP, now);
    }
  }
}
