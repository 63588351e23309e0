/** When a room being cleaned goes out (`CleanUP`): its loop carries the clock from slot to slot, adding a day at the
    first cleaning that began before midnight. */
module CleanUpTime {
  import opened Core
  import opened Firmware
  import opened FirmwareInvariants
  import opened Overtime

  predicate ValidTime(hour: int, min: int) {
    0 <= TimetoInt(hour, min) < 1440
  }

  /** The clock, and the start of every cleaning, are times of day. */
  predicate Timed(s: Machine, now: Clock) {
    ValidTime(now.hour, now.min) && forall k :: 0 <= k < SLOTS && s.slots[k].mode == CUP ==>
      ValidTime(s.slots[k].hour, s.slots[k].min)
  }

  /** A cleaning that began before midnight and is looked at after it. */
  predicate Overnight(slot: Slot, now: Clock) {
    slot.mode == CUP && TimetoInt(now.hour, now.min) < TimetoInt(slot.hour, slot.min)
  }

  predicate OvernightBefore(s: Machine, n: nat, now: Clock)
    requires n <= SLOTS
  {
    exists m :: 0 <= m < n && Overnight(s.slots[m], now)
  }

  /** A day too many, for a cleaning that began today and comes after one that did not. */
  function Excess(s: Machine, k: nat, now: Clock): int
    requires k < SLOTS
  {
    if OvernightBefore(s, k, now) && !Overnight(s.slots[k], now) then 1440 else 0
  }

  predicate Due(p: Panel, s: Machine, k: nat, now: Clock)
    requires k < SLOTS
  {
    Elapsed(now, s.slots[k]) + Excess(s, k, now) >= p.cleanUpMinutes
  }

  /** The slot of a room being cleaned, after a poll. */
  function Cleaned(p: Panel, s: Machine, k: nat, now: Clock): Slot
    requires k < SLOTS
  {
    if Due(p, s, k, now) then s.slots[k].(mode := OUT, hour := now.hour, min := now.min) else s.slots[k]
  }

  lemma {:induction false} UntouchedSoFar(p: Panel, s: Machine, n: nat, now: Clock, k: nat)
    requires Inv(p, s) && n <= p.cards * PORTS && n <= k < SLOTS
    ensures CleanUp(p, s, n, now).0.slots[k] == s.slots[k]
  {
    if n > 0 {
      UntouchedSoFar(p, s, n - 1, now, k);
      CleanUpKeepsInv(p, s, n - 1, now);
      var before := CleanUp(p, s, n - 1, now).0;
      if before.slots[n - 1].mode == CUP {
        TransitionElsewhere(p, before, n - 1, k, OUT, CUP, now);
      }
    }
  }

  lemma OvernightNext(s: Machine, n: nat, now: Clock)
    requires n < SLOTS
    ensures OvernightBefore(s, n + 1, now) <==> OvernightBefore(s, n, now) || Overnight(s.slots[n], now)
  {
    if Overnight(s.slots[n], now) {
      assert OvernightBefore(s, n + 1, now);
    }
  }

  /** The carried clock is a day ahead exactly when an overnight cleaning has been passed. */
  lemma {:induction false} CarriedClock(p: Panel, s: Machine, n: nat, now: Clock)
    requires Inv(p, s) && n <= p.cards * PORTS && Timed(s, now)
    ensures CleanUp(p, s, n, now).1 == TimetoInt(now.hour, now.min) + if OvernightBefore(s, n, now) then 1440 else 0
  {
    if n > 0 {
      CarriedClock(p, s, n - 1, now);
      UntouchedSoFar(p, s, n - 1, now, n - 1);
      OvernightNext(s, n - 1, now);
    }
  }

  lemma SlotDecides(p: Panel, s: Machine, before: Machine, carried: int, k: nat, now: Clock)
    requires k < SLOTS && before.slots[k] == s.slots[k] && s.slots[k].mode == CUP && Timed(s, now)
    requires Find(p, p.room[k]) == Some(k) && |before.log| < MAXREC
    requires carried == TimetoInt(now.hour, now.min) + if OvernightBefore(s, k, now) then 1440 else 0
    ensures CleanUpSlot(p, before, k, carried, now).0.slots[k] == Cleaned(p, s, k, now)
  {
  }

  lemma SlotSparesOthers(p: Panel, before: Machine, m: nat, carried: int, k: nat, now: Clock)
    requires Inv(p, before) && m < SLOTS && k < SLOTS && m != k
    ensures CleanUpSlot(p, before, m, carried, now).0.slots[k] == before.slots[k]
  {
    if before.slots[m].mode == CUP {
      TransitionElsewhere(p, before, m, k, OUT, CUP, now);
    }
  }

  lemma SlotGrows(p: Panel, before: Machine, m: nat, carried: int, now: Clock)
    requires m < SLOTS
    ensures |before.log| <= |CleanUpSlot(p, before, m, carried, now).0.log|
  {
    TransitionGrows(p, before, p.room[m], OUT, CUP, now);
  }

  lemma {:induction false} CleanUpAt(p: Panel, s: Machine, n: nat, now: Clock, k: nat)
    requires Inv(p, s) && Timed(s, now) && k < n <= p.cards * PORTS && s.slots[k].mode == CUP
    requires |CleanUp(p, s, n, now).0.log| < MAXREC
    ensures CleanUp(p, s, n, now).0.slots[k] == Cleaned(p, s, k, now)
  {
    var (before, carried) := CleanUp(p, s, n - 1, now);
    CleanUpKeepsInv(p, s, n - 1, now);
    SlotGrows(p, before, n - 1, carried, now);
    if n - 1 == k {
      UntouchedSoFar(p, s, k, now, k);
      CarriedClock(p, s, k, now);
      SlotDecides(p, s, before, carried, k, now);
    } else {
      CleanUpAt(p, s, n - 1, now, k);
      SlotSparesOthers(p, before, n - 1, carried, k, now);
    }
  }

  /** The overtime check leaves every slot alone that is not in overtime. */
  lemma {:induction false} CheckOverTimeSpares(p: Panel, s: Machine, n: nat, now: Clock, k: nat)
    requires Inv(p, s) && n <= p.cards * PORTS && k < SLOTS && s.slots[k].mode != OT
    ensures CheckOverTime(p, s, n, now).slots[k] == s.slots[k]
  {
    if n > 0 {
      CheckOverTimeSpares(p, s, n - 1, now, k);
      CheckOverTimeKeepsInv(p, s, n - 1, now);
      var before := CheckOverTime(p, s, n - 1, now);
      if Expired(now, before.slots[n - 1]) {
        TransitionElsewhere(p, before, n - 1, k, OUT, OT, now);
      }
    }
  }

  /** Exactly when a poll puts out a room that is being cleaned: when its time is up, or, too early, when a slot
      before it holds a cleaning from before midnight, its own began after midnight, and a day more would do. */
  lemma PollEndsCleaningExactlyWhen(p: Panel, s: Machine, now: Clock, k: nat)
    requires Inv(p, s) && Timed(s, now) && k < p.cards * PORTS && s.slots[k].mode == CUP
    requires |Poll(p, s, now).log| < MAXREC
    ensures Poll(p, s, now).slots[k] == Cleaned(p, s, k, now)
  {
    var cleaned := CleanUp(p, s, p.cards * PORTS, now).0;
    CleanUpKeepsInv(p, s, p.cards * PORTS, now);
    CheckOverTimeExtends(p, cleaned, p.cards * PORTS, now);
    CleanUpAt(p, s, p.cards * PORTS, now, k);
    CheckOverTimeSpares(p, cleaned, p.cards * PORTS, now, k);
  }

  /** In particular no cleaning is still running at a poll that finds its time is up, and none ends early unless
      another began before midnight. */
  lemma CleaningNeverOverruns(p: Panel, s: Machine, now: Clock, k: nat)
    requires Inv(p, s) && Timed(s, now) && k < p.cards * PORTS && s.slots[k].mode == CUP
    requires |Poll(p, s, now).log| < MAXREC
    ensures Elapsed(now, s.slots[k]) >= p.cleanUpMinutes ==> Poll(p, s, now).slots[k].mode == OUT
    ensures Poll(p, s, now).slots[k].mode == OUT && Elapsed(now, s.slots[k]) < p.cleanUpMinutes ==>
      OvernightBefore(s, k, now)
  {
    PollEndsCleaningExactlyWhen(p, s, now, k);
  }

  // ----- a run in which a cleaning ends early -----

  /** The clock chip at absolute minute `t`. */
  function ClockAt(t: nat): Clock {
    Clock(Bcd(t / 60 % 24), Bcd(t % 60), 0x31, 0x12, 0x25)
  }

  predicate ShowsMinute(now: Clock, minute: int) {
    TimetoInt(now.hour, now.min) == minute
  }

  lemma ClockShows(t: nat)
    ensures ShowsMinute(ClockAt(t), t % 1440)
  {
    ShownTime(ClockAt(t).hour, ClockAt(t).min, t);
  }

  /** The first two slots are as given, the others unused. */
  predicate TwoSlots(s: Machine, first: Slot, second: Slot) {
    && s.slots[0].mode == first.mode && s.slots[0].hour == first.hour && s.slots[0].min == first.min
    && s.slots[1].mode == second.mode && s.slots[1].hour == second.hour && s.slots[1].min == second.min
    && forall k :: 2 <= k < SLOTS ==> s.slots[k].mode == UNSET
  }

  const UNUSED := Slot(UNSET, 0, 0, 0)

  function Cleaning(now: Clock): Slot {
    Slot(CUP, now.hour, now.min, 0)
  }

  lemma EnterCleaning(p: Panel, s: Machine, k: nat, now: Clock)
    requires k < SLOTS && Find(p, p.room[k]) == Some(k) && s.slots[k].mode == UNSET && |s.log| < MAXREC
    ensures var t := Enter(p, s, p.room[k], CUP, now);
      t.slots == s.slots[k := s.slots[k].(mode := CUP, hour := now.hour, min := now.min)] && |t.log| == |s.log| + 1
  {
  }

  lemma {:induction false} CleanUpGrowth(p: Panel, s: Machine, n: nat, now: Clock)
    requires n <= p.cards * PORTS
    ensures |CleanUp(p, s, n, now).0.log| <= |s.log| + n
  {
    if n > 0 {
      CleanUpGrowth(p, s, n - 1, now);
    }
  }

  lemma {:induction false} CheckOverTimeGrowth(p: Panel, s: Machine, n: nat, now: Clock)
    requires n <= p.cards * PORTS
    ensures |CheckOverTime(p, s, n, now).log| <= |s.log| + n
  {
    if n > 0 {
      CheckOverTimeGrowth(p, s, n - 1, now);
    }
  }

  /** One poll of two slots, of which the first is being cleaned and the second unused or being cleaned. */
  lemma PollTwo(p: Panel, s: Machine, now: Clock, first: Slot, second: Slot)
    requires Inv(p, s) && 1 <= p.cards && |s.log| + 2 * SLOTS < MAXREC && TwoSlots(s, first, second) && Timed(s, now)
    requires first.mode == CUP && (second.mode == CUP || second.mode == UNSET)
    ensures var t := Poll(p, s, now);
      t.slots[0] == Cleaned(p, s, 0, now) &&
      (if second.mode == CUP then t.slots[1] == Cleaned(p, s, 1, now) else t.slots[1] == s.slots[1])
    ensures forall k :: 2 <= k < SLOTS ==> Poll(p, s, now).slots[k] == s.slots[k]
    ensures |Poll(p, s, now).log| <= |s.log| + 2 * SLOTS
  {
    var n := p.cards * PORTS;
    CleanUpGrowth(p, s, n, now);
    CheckOverTimeGrowth(p, CleanUp(p, s, n, now).0, n, now);
    PollEndsCleaningExactlyWhen(p, s, now, 0);
    if second.mode == CUP {
      PollEndsCleaningExactlyWhen(p, s, now, 1);
    } else {
      PollSparesIdle(p, s, now, 1);
    }
    forall k: nat | 2 <= k < SLOTS ensures Poll(p, s, now).slots[k] == s.slots[k] {
      PollSparesIdle(p, s, now, k);
    }
  }

  lemma {:induction false} CleanUpSparesIdle(p: Panel, s: Machine, n: nat, now: Clock, k: nat)
    requires Inv(p, s) && n <= p.cards * PORTS && k < SLOTS && s.slots[k].mode == UNSET
    ensures CleanUp(p, s, n, now).0.slots[k] == s.slots[k]
  {
    if n > 0 {
      CleanUpSparesIdle(p, s, n - 1, now, k);
      CleanUpKeepsInv(p, s, n - 1, now);
      var (before, carried) := CleanUp(p, s, n - 1, now);
      if n - 1 != k {
        SlotSparesOthers(p, before, n - 1, carried, k, now);
      }
    }
  }

  lemma PollSparesIdle(p: Panel, s: Machine, now: Clock, k: nat)
    requires Inv(p, s) && k < SLOTS && s.slots[k].mode == UNSET
    ensures Poll(p, s, now).slots[k] == s.slots[k]
  {
    var n := p.cards * PORTS;
    CleanUpSparesIdle(p, s, n, now, k);
    CleanUpKeepsInv(p, s, n, now);
    CheckOverTimeSpares(p, CleanUp(p, s, n, now).0, n, now, k);
  }

  /** At 00:00, one minute into its cleaning, the first room stays. */
  lemma FirstStays(p: Panel, s: Machine, late: Clock, midnight: Clock)
    requires 1 <= p.cards && 3 <= p.cleanUpMinutes && TwoSlots(s, Cleaning(late), UNUSED)
    requires ShowsMinute(late, 1439) && ShowsMinute(midnight, 0)
    ensures Timed(s, midnight) && Cleaned(p, s, 0, midnight) == s.slots[0]
  {
  }

  /** At 00:01 the first room, two minutes into its cleaning, stays; the second, one minute into its own, goes out. */
  lemma SecondGoes(p: Panel, s: Machine, late: Clock, midnight: Clock, next: Clock)
    requires 1 <= p.cards && 3 <= p.cleanUpMinutes <= 1441 && TwoSlots(s, Cleaning(late), Cleaning(midnight))
    requires ShowsMinute(late, 1439) && ShowsMinute(midnight, 0) && ShowsMinute(next, 1)
    ensures Timed(s, next) && Elapsed(next, s.slots[0]) == 2 && Elapsed(next, s.slots[1]) == 1
    ensures Cleaned(p, s, 0, next) == s.slots[0] && Cleaned(p, s, 1, next).mode == OUT
  {
    assert Overnight(s.slots[0], next);
    assert OvernightBefore(s, 1, next);
  }

  function EarlyRun(p: Panel, late: Clock, midnight: Clock, next: Clock): seq<Step> {
    [] + [DoEnter(p.room[0], CUP, late)] + [DoPoll(midnight)] + [DoEnter(p.room[1], CUP, midnight)] + [DoPoll(next)]
  }

  lemma RunNext(p: Panel, steps: seq<Step>, step: Step)
    ensures Run(p, steps + [step]) == Next(p, Run(p, steps), step)
  {
    assert (steps + [step])[..|steps|] == steps;
  }

  lemma FindFirstTwo(p: Panel)
    requires 1 <= p.cards && p.room[0] != p.room[1]
    ensures Find(p, p.room[0]) == Some(0) && Find(p, p.room[1]) == Some(1)
  {
    assert FindFrom(p, p.room[1], 1) == Some(1);
  }

  lemma ClearedIsUnused()
    ensures TwoSlots(Cleared(), UNUSED, UNUSED) && Cleared().log == []
  {
  }

  lemma AfterFirst(p: Panel, late: Clock, midnight: Clock, before: seq<Step>)
    requires 1 <= p.cards && p.room[0] != p.room[1] && 3 <= p.cleanUpMinutes
    requires ShowsMinute(late, 1439) && ShowsMinute(midnight, 0)
    requires before == [] + [DoEnter(p.room[0], CUP, late)]
    ensures var s := Run(p, before + [DoPoll(midnight)]);
      TwoSlots(s, Cleaning(late), UNUSED) && |s.log| <= 1 + 2 * SLOTS && Find(p, p.room[1]) == Some(1)
  {
    FindFirstTwo(p);
    ClearedIsUnused();
    RunNext(p, [], DoEnter(p.room[0], CUP, late));
    RunNext(p, before, DoPoll(midnight));
    EnterCleaning(p, Cleared(), 0, late);
    RunKeepsInv(p, before);
    FirstStays(p, Run(p, before), late, midnight);
    PollTwo(p, Run(p, before), midnight, Cleaning(late), UNUSED);
  }

  lemma EarlyRunEnds(p: Panel, late: Clock, midnight: Clock, next: Clock)
    requires 1 <= p.cards && p.room[0] != p.room[1] && 3 <= p.cleanUpMinutes <= 1441
    requires ShowsMinute(late, 1439) && ShowsMinute(midnight, 0) && ShowsMinute(next, 1)
    ensures var s := Run(p, EarlyRun(p, late, midnight, next)); s.slots[0].mode == CUP && s.slots[1].mode == OUT
  {
    var r1 := [] + [DoEnter(p.room[0], CUP, late)];
    var r2 := r1 + [DoPoll(midnight)];
    var r3 := r2 + [DoEnter(p.room[1], CUP, midnight)];
    AfterFirst(p, late, midnight, r1);
    RunNext(p, r2, DoEnter(p.room[1], CUP, midnight));
    RunNext(p, r3, DoPoll(next));
    EnterCleaning(p, Run(p, r2), 1, midnight);
    RunKeepsInv(p, r3);
    SecondGoes(p, Run(p, r3), late, midnight, next);
    PollTwo(p, Run(p, r3), next, Cleaning(late), Cleaning(midnight));
  }

  lemma SomeClock(t: nat) returns (now: Clock)
    ensures ShowsMinute(now, t % 1440)
  {
    ClockShows(t);
    now := ClockAt(t);
  }

  /** Two rooms of any panel that allows from 3 to 1441 minutes for cleaning: the first starts at 23:59, the second at
      00:00, and the poll of 00:01 ends the second, which has had one minute, and not the first. */
  lemma CleaningEndsEarly(p: Panel) returns (late: Clock, midnight: Clock, next: Clock)
    requires 1 <= p.cards && p.room[0] != p.room[1] && 3 <= p.cleanUpMinutes <= 1441
    ensures ShowsMinute(late, 1439) && ShowsMinute(midnight, 0) && ShowsMinute(next, 1)
    ensures var s := Run(p, EarlyRun(p, late, midnight, next)); s.slots[0].mode == CUP && s.slots[1].mode == OUT
  {
    late := SomeClock(1439);
    midnight := SomeClock(1440);
    next := SomeClock(1441);
    EarlyRunEnds(p, late, midnight, next);
  }
}
