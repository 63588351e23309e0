/** When an overtime room goes out, on a clock that wraps at midnight (`CheckOverTime`, `SaveOtime`). */
module Overtime {
  import opened Core
  import opened Firmware
  import opened FirmwareInvariants

  function Bcd(n: int): int
    requires 0 <= n < 100
  {
    n / 10 * 16 + n % 10
  }

  /** The clock chip at absolute minute `t`. */
  predicate Shows(hour: int, min: int, t: nat) {
    hour == Bcd(t / 60 % 24) && min == Bcd(t % 60)
  }

  lemma DigitsApart(tens: int, units: int)
    requires 0 <= tens < 10 && 0 <= units < 10
    ensures var b := tens * 16 + units; b % 256 == b && b / 16 == tens && b % 16 == units
  {
  }

  lemma BcdReadsBack(n: int)
    requires 0 <= n < 100
    ensures HexDigitsToInt(Bcd(n)) == n
  {
    var tens, units := n / 10, n % 10;
    assert Bcd(n) == tens * 16 + units && 0 <= tens < 10 && 0 <= units < 10;
    DigitsApart(tens, units);
  }

  lemma DayMinute(t: nat)
    ensures t / 60 % 24 * 60 + t % 60 == t % 1440
  {
    var h, m := t / 60, t % 60;
    assert t == h * 60 + m;
    assert h == h / 24 * 24 + h % 24;
    assert t == h / 24 * 1440 + (h % 24 * 60 + m);
  }

  function HexDigit(d: int): char
    requires 0 <= d < 16
  {
    if d < 10 then '0' + d as char else 'a' + (d - 10) as char
  }

  /** `atoi`: the leading decimal digits, after `value`. */
  function Atoi(text: string, value: int): int {
    if text == "" || !('0' <= text[0] <= '9') then value
    else Atoi(text[1..], value * 10 + (text[0] as int - '0' as int))
  }

  lemma DigitReads(d: int, rest: string, value: int)
    requires 0 <= d < 16
    ensures Atoi([HexDigit(d)] + rest, value) == if d < 10 then Atoi(rest, value * 10 + d) else value
  {
    var text := [HexDigit(d)] + rest;
    assert text[0] == HexDigit(d) && text[1..] == rest;
  }

  /** Any byte of the clock, valid or not, is read as the decimal number its two hex digits begin with. */
  lemma ClockByteReads(b: int)
    ensures HexDigitsToInt(b) == Atoi([HexDigit(b % 256 / 16), HexDigit(b % 16)], 0)
  {
    var high, low := b % 256 / 16, b % 16;
    DigitReads(high, [HexDigit(low)], 0);
    DigitReads(low, "", high);
    assert [HexDigit(high)] + [HexDigit(low)] == [HexDigit(high), HexDigit(low)];
    assert [HexDigit(low)] + "" == [HexDigit(low)];
  }

  lemma ShownTime(hour: int, min: int, t: nat)
    requires Shows(hour, min, t)
    ensures TimetoInt(hour, min) == t % 1440
  {
    BcdReadsBack(t / 60 % 24);
    BcdReadsBack(t % 60);
    DayMinute(t);
  }

  lemma WrappedDifference(from: nat, to: nat)
    requires from <= to
    ensures (to - from) % 1440 ==
      (if to % 1440 - from % 1440 < 0 then to % 1440 - from % 1440 + 1440 else to % 1440 - from % 1440)
  {
    var a, b := from % 1440, to % 1440;
    var q := to / 1440 - from / 1440;
    assert to - from == 1440 * q + (b - a);
    if b < a {
      assert to - from == 1440 * (q - 1) + (b - a + 1440);
    }
  }

  /** The machine's subtraction is the true distance modulo a day. */
  lemma ElapsedIsModulo(now: Clock, slot: Slot, from: nat, to: nat)
    requires from <= to && Shows(slot.hour, slot.min, from) && Shows(now.hour, now.min, to)
    ensures Elapsed(now, slot) == (to - from) % 1440
  {
    ShownTime(slot.hour, slot.min, from);
    ShownTime(now.hour, now.min, to);
    WrappedDifference(from, to);
  }

  /** The overtime room as it stands after `steps`, if it is still in overtime. */
  ghost predicate Counting(slot: Slot, start: nat, total: int, elapsed: int) {
    && slot.mode == OT
    && Shows(slot.hour, slot.min, start)
    && slot.total == total
    && (elapsed < total || total >= 1440)
  }

  /** Choosing OT for a room that is not in use, with space in the log, starts the count. */
  lemma EnterStartsOvertime(p: Panel, s: Machine, room: int, k: nat, now: Clock, start: nat)
    requires Find(p, room) == Some(k) && !Active(s.slots[k].mode) && s.slots[k].mode != NONE && |s.log| < MAXREC
    requires Shows(now.hour, now.min, start) && 1 <= p.otMinutes
    ensures Counting(Enter(p, s, room, OT, now).slots[k], start, p.otMinutes, 0)
  {
  }

  // ----- one poll, seen from one slot -----

  lemma TransitionElsewhere(p: Panel, s: Machine, m: nat, k: nat, mode: int, out: int, now: Clock)
    requires m < SLOTS && k < SLOTS && m != k && Find(p, p.room[m]) == Some(m)
    ensures var t := Transition(p, s, p.room[m], mode, out, now); t.slots[k] == s.slots[k] && |s.log| <= |t.log|
  {
  }

  lemma {:induction false} CleanUpSpares(p: Panel, s: Machine, n: nat, now: Clock, k: nat)
    requires Inv(p, s) && n <= p.cards * PORTS && k < SLOTS && s.slots[k].mode == OT
    ensures var t := CleanUp(p, s, n, now).0; t.slots[k] == s.slots[k] && |s.log| <= |t.log|
  {
    if n > 0 {
      CleanUpSpares(p, s, n - 1, now, k);
      CleanUpKeepsInv(p, s, n - 1, now);
      var before := CleanUp(p, s, n - 1, now).0;
      if before.slots[n - 1].mode == CUP {
        TransitionElsewhere(p, before, n - 1, k, OUT, CUP, now);
      }
    }
  }

  function AfterPoll(slot: Slot, now: Clock): Slot {
    if Expired(now, slot) then slot.(mode := OUT, hour := now.hour, min := now.min) else slot
  }

  lemma TransitionHere(p: Panel, s: Machine, k: nat, now: Clock)
    requires k < SLOTS && Find(p, p.room[k]) == Some(k) && |s.log| < MAXREC
    ensures var t := Transition(p, s, p.room[k], OUT, OT, now);
      t.slots[k] == s.slots[k].(mode := OUT, hour := now.hour, min := now.min) && |t.log| == |s.log| + 1
  {
  }

  lemma TransitionGrows(p: Panel, s: Machine, room: int, mode: int, out: int, now: Clock)
    ensures |s.log| <= |Transition(p, s, room, mode, out, now).log|
  {
  }

  lemma {:induction false} CheckOverTimeAt(p: Panel, s: Machine, n: nat, now: Clock, k: nat)
    requires Inv(p, s) && n <= p.cards * PORTS && k < SLOTS && s.slots[k].mode == OT
    requires |CheckOverTime(p, s, n, now).log| < MAXREC
    ensures CheckOverTime(p, s, n, now).slots[k] == if k < n then AfterPoll(s.slots[k], now) else s.slots[k]
  {
    if n > 0 {
      var before := CheckOverTime(p, s, n - 1, now);
      TransitionGrows(p, before, p.room[n - 1], OUT, OT, now);
      CheckOverTimeAt(p, s, n - 1, now, k);
      CheckOverTimeKeepsInv(p, s, n - 1, now);
      if Expired(now, before.slots[n - 1]) {
        if n - 1 == k {
          TransitionHere(p, before, k, now);
        } else {
          TransitionElsewhere(p, before, n - 1, k, OUT, OT, now);
        }
      }
    }
  }

  lemma PollAt(p: Panel, s: Machine, now: Clock, k: nat)
    requires Inv(p, s) && k < p.cards * PORTS && s.slots[k].mode == OT
    requires |Poll(p, s, now).log| < MAXREC
    ensures Poll(p, s, now).slots[k] == AfterPoll(s.slots[k], now)
  {
    CleanUpSpares(p, s, p.cards * PORTS, now, k);
    CleanUpKeepsInv(p, s, p.cards * PORTS, now);
    CheckOverTimeAt(p, CleanUp(p, s, p.cards * PORTS, now).0, p.cards * PORTS, now, k);
  }

  // ----- runs since the overtime began -----

  function RunFrom(p: Panel, s: Machine, steps: seq<Step>): Machine {
    if steps == [] then s else Next(p, RunFrom(p, s, steps[..|steps| - 1]), steps[|steps| - 1])
  }

  function Polls(steps: seq<Step>): nat {
    if steps == [] then 0
    else Polls(steps[..|steps| - 1]) + if steps[|steps| - 1].DoPoll? then 1 else 0
  }

  /** Minutes the operator has added to the room. */
  function Added(steps: seq<Step>, room: int): nat {
    if steps == [] then 0
    else
      var last := steps[|steps| - 1];
      Added(steps[..|steps| - 1], room)
      + if last.DoExtend? && last.room == room && last.added > 0 then last.added else 0
  }

  /** Slot `k` of the room has been in overtime up to the last step: one poll a minute, the first showing
      minute `first`; nobody picks a status for the room by hand; no poll leaves the log full. */
  ghost predicate Watched(p: Panel, s: Machine, steps: seq<Step>, room: int, k: nat, first: nat)
    requires k < SLOTS
  {
    steps == [] ||
    var before, last := steps[..|steps| - 1], steps[|steps| - 1];
    && Watched(p, s, before, room, k, first)
    && RunFrom(p, s, before).slots[k].mode == OT
    && (last.DoEnter? ==> last.room != room)
    && (last.DoPoll? ==>
       Shows(last.now.hour, last.now.min, first + Polls(before)) && |RunFrom(p, s, steps).log| < MAXREC)
  }

  lemma {:induction false} RunFromKeepsInv(p: Panel, s: Machine, steps: seq<Step>)
    requires Inv(p, s)
    ensures Inv(p, RunFrom(p, s, steps))
  {
    if steps != [] {
      RunFromKeepsInv(p, s, steps[..|steps| - 1]);
      NextKeepsInv(p, RunFrom(p, s, steps[..|steps| - 1]), steps[|steps| - 1]);
    }
  }

  lemma OtherRooms(p: Panel, s: Machine, step: Step, room: int, k: nat)
    requires Find(p, room) == Some(k) && !step.DoPoll? && (step.DoEnter? ==> step.room != room)
    ensures Next(p, s, step).slots[k] ==
      if step.DoExtend? && step.room == room && step.added > 0 && s.slots[k].mode == OT
      then s.slots[k].(total := Int16(step.added + s.slots[k].total)) else s.slots[k]
  {
  }

  lemma RemainderOfDay(d: nat)
    ensures d % 1440 < 1440
    ensures d < 1440 ==> d % 1440 == d
  {
  }

  /** What a slot is after the poll of minute `minute`. */
  ghost predicate CountedOrOut(slot: Slot, start: nat, allowed: int, elapsed: int) {
    if slot.mode == OT then Counting(slot, start, allowed, elapsed)
    else slot.mode == OUT && elapsed == allowed <= 1439
  }

  lemma PollCounts(p: Panel, s: Machine, now: Clock, k: nat, start: nat, minute: nat, allowed: int)
    requires Inv(p, s) && k < p.cards * PORTS && |Poll(p, s, now).log| < MAXREC
    requires Counting(s.slots[k], start, allowed, minute - 1 - start)
    requires start <= minute && 1 <= allowed && Shows(now.hour, now.min, minute)
    ensures CountedOrOut(Poll(p, s, now).slots[k], start, allowed, minute - start)
  {
    PollAt(p, s, now, k);
    ElapsedIsModulo(now, s.slots[k], start, minute);
    RemainderOfDay(minute - start);
  }

  lemma OtherStepCounts(p: Panel, s: Machine, step: Step, room: int, k: nat, start: nat, allowed: int, elapsed: int)
    requires Find(p, room) == Some(k) && !step.DoPoll? && (step.DoEnter? ==> step.room != room)
    requires Counting(s.slots[k], start, allowed, elapsed)
    requires 0 <= allowed && allowed + Added([step], room) <= 0x7fff
    ensures Counting(Next(p, s, step).slots[k], start, allowed + Added([step], room), elapsed)
  {
    OtherRooms(p, s, step, room, k);
    assert [step][..0] == [];
  }

  lemma AddedLast(steps: seq<Step>, room: int)
    requires steps != []
    ensures Added(steps, room) == Added(steps[..|steps| - 1], room) + Added([steps[|steps| - 1]], room)
  {
    assert [steps[|steps| - 1]][..0] == [];
  }

  /** An overtime slot that began at minute `start` with `total` minutes: while it is still in overtime its
      allowance is `total` plus everything added since, and a poll at minute `m` puts it out if and only if
      exactly that many minutes have passed and the allowance is below a day. */
  lemma {:induction false} OvertimeIsExact(p: Panel, s: Machine, steps: seq<Step>, room: int, k: nat, start: nat,
                                           first: nat, total: int)
    requires Inv(p, s) && Find(p, room) == Some(k)
    requires Counting(s.slots[k], start, total, 0)
    requires first == start || first == start + 1
    requires 1 <= total && total + Added(steps, room) <= 0x7fff
    requires Watched(p, s, steps, room, k, first)
    ensures CountedOrOut(RunFrom(p, s, steps).slots[k], start, total + Added(steps, room),
      first + Polls(steps) - 1 - start)
    ensures RunFrom(p, s, steps).slots[k].mode == OUT ==> steps != [] && steps[|steps| - 1].DoPoll?
  {
    if steps != [] {
      var n := |steps| - 1;
      var before, step := steps[..n], steps[n];
      AddedLast(steps, room);
      OvertimeIsExact(p, s, before, room, k, start, first, total);
      var state := RunFrom(p, s, before);
      var allowed := total + Added(before, room);
      RunFromKeepsInv(p, s, before);
      if step.DoPoll? {
        PollCounts(p, state, step.now, k, start, first + Polls(before), allowed);
      } else {
        OtherStepCounts(p, state, step, room, k, start, allowed, first + Polls(before) - 1 - start);
      }
    }
  }

  lemma NegativeAllowanceIsUp(slot: Slot, now: Clock, minute: nat)
    requires slot.mode == OT && slot.total < 0 && Shows(now.hour, now.min, minute)
    requires 0 <= TimetoInt(slot.hour, slot.min) < 1440
    ensures Expired(now, slot)
  {
    ShownTime(now.hour, now.min, minute);
  }

  lemma PollPutsOut(p: Panel, s: Machine, k: nat, now: Clock, minute: nat)
    requires Inv(p, s) && k < p.cards * PORTS && s.slots[k].mode == OT && s.slots[k].total < 0
    requires Shows(now.hour, now.min, minute) && 0 <= TimetoInt(s.slots[k].hour, s.slots[k].min) < 1440
    requires |Poll(p, s, now).log| < 3800
    ensures Poll(p, s, now).slots[k].mode == OUT
  {
    NegativeAllowanceIsUp(s.slots[k], now, minute);
    PollAt(p, s, now, k);
  }

  /** An addition that takes an allowance past 32767 minutes makes it negative, and the next poll puts the room out. */
  lemma LongExtensionEndsOvertime(p: Panel, s: Machine, room: int, k: nat, added: int, now: Clock, minute: nat)
    requires Inv(p, s) && Find(p, room) == Some(k) && k < p.cards * PORTS && s.slots[k].mode == OT
    requires 1 <= added <= 0x7fff && 1 <= s.slots[k].total <= 0x7fff && added + s.slots[k].total > 0x7fff
    requires Shows(now.hour, now.min, minute) && 0 <= TimetoInt(s.slots[k].hour, s.slots[k].min) < 1440
    requires var t := Next(p, s, DoExtend(room, added)); |Poll(p, t, now).log| < 3800
    ensures var t := Next(p, s, DoExtend(room, added));
      && t.slots[k].mode == OT && t.slots[k].total == added + s.slots[k].total - 65536 < 0
      && Next(p, t, DoPoll(now)).slots[k].mode == OUT
  {
    OtherRooms(p, s, DoExtend(room, added), room, k);
    NextKeepsInv(p, s, DoExtend(room, added));
    PollPutsOut(p, Next(p, s, DoExtend(room, added)), k, now, minute);
  }
}
