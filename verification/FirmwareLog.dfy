/** The transitions each step calls for, told from the slots alone, and what becomes of them: those that find space
    in the log are recorded, the others are lost, and the relay switches either way (`SaveAndPrint`, `RoomOnoff`). */
module FirmwareLog {
  import opened Core
  import opened Bits
  import opened Firmware
  import opened FirmwareInvariants
  import opened Overtime
  import opened CleanUpTime

  // ----- the transitions a step calls for -----

  /** The clock CleanUP carries past the first `n` slots. */
  function Carry(s: Machine, n: nat, now: Clock): int
    requires n <= SLOTS
  {
    if n == 0 then TimetoInt(now.hour, now.min)
    else
      var clock := Carry(s, n - 1, now);
      var slot := s.slots[n - 1];
      if slot.mode == CUP && clock < TimetoInt(slot.hour, slot.min) then clock + 1440 else clock
  }

  /** CleanUP ends the cleaning of slot `k`. */
  predicate Ends(p: Panel, s: Machine, k: nat, now: Clock)
    requires k < SLOTS
  {
    s.slots[k].mode == CUP && Carry(s, k + 1, now) - TimetoInt(s.slots[k].hour, s.slots[k].min) >= p.cleanUpMinutes
  }

  /** The records CleanUP wants to write for the first `n` slots. */
  function CleanMoves(p: Panel, s: Machine, n: nat, now: Clock): seq<Rec>
    requires n <= SLOTS
  {
    if n == 0 then []
    else CleanMoves(p, s, n - 1, now) + if Ends(p, s, n - 1, now) then [Rec(p.room[n - 1], OUT, CUP, now)] else []
  }

  /** The records CheckOverTime wants to write for the first `n` slots. */
  function OvertimeMoves(p: Panel, s: Machine, n: nat, now: Clock): seq<Rec>
    requires n <= SLOTS
  {
    if n == 0 then []
    else
      OvertimeMoves(p, s, n - 1, now) + if Expired(now, s.slots[n - 1]) then [Rec(p.room[n - 1], OUT, OT, now)] else []
  }

  /** The records a step wants to write, in order. */
  function Moves(p: Panel, s: Machine, step: Step): seq<Rec> {
    match step
    case DoEnter(room, key, now) =>
      var mode := GetStatus(p, s, room);
      if Allowed(mode, key) then [Rec(room, key, if key == OUT then mode % 16 else 0, now)] else []
    case DoPoll(now) => CleanMoves(p, s, p.cards * PORTS, now) + OvertimeMoves(p, s, p.cards * PORTS, now)
    case _ => []
  }

  /** Which of the step's transitions is that of slot `k`, if it has one. */
  function Turn(p: Panel, s: Machine, step: Step, k: nat): Option<nat>
    requires k < SLOTS
  {
    match step
    case DoEnter(room, key, now) => if Find(p, room) == Some(k) && Allowed(s.slots[k].mode, key) then Some(0) else None
    case DoPoll(now) =>
      if k >= p.cards * PORTS then None
      else if Ends(p, s, k, now) then Some(|CleanMoves(p, s, k, now)|)
      else if Expired(now, s.slots[k])
      then Some(|CleanMoves(p, s, p.cards * PORTS, now)| + |OvertimeMoves(p, s, k, now)|)
      else None
    case _ => None
  }

  /** The status the transition of slot `k` goes to. */
  function Goal(step: Step): int {
    if step.DoEnter? then step.key else OUT
  }

  /** The log keeps what fits. */
  function Capped(log: seq<Rec>): seq<Rec> {
    if |log| <= MAXREC then log else log[..MAXREC]
  }

  lemma CappedAgain(log: seq<Rec>, rec: Rec)
    ensures Capped(Capped(log) + [rec]) == Capped(log + [rec])
  {
  }

  lemma CappedMore(log: seq<Rec>, more: seq<Rec>)
    ensures Capped(Capped(log) + more) == Capped(log + more)
  {
  }

  // ----- what one transition does -----

  /** Slot `k` lights its relay. */
  predicate Lit(s: Machine, k: nat)
    requires k < SLOTS
  {
    Bit(s.relays[k / 16], k % 16)
  }

  lemma SlotAddress(k: nat, m: nat)
    ensures k == m <==> k / 16 == m / 16 && k % 16 == m % 16
  {
  }

  lemma TransitionLights(p: Panel, s: Machine, room: int, k: nat, mode: int, out: int, now: Clock, m: nat)
    requires m < SLOTS && Find(p, room) == Some(k) && OUT <= mode <= OT
    ensures Lit(Transition(p, s, room, mode, out, now), m) == if m == k then Active(mode) else Lit(s, m)
  {
    SlotAddress(k, m);
    WithBitAt(s.relays[k / 16], k % 16, Active(mode), m % 16);
  }

  lemma TransitionModes(p: Panel, s: Machine, room: int, k: nat, mode: int, out: int, now: Clock, m: nat)
    requires m < SLOTS && Find(p, room) == Some(k) && OUT <= mode <= OT
    ensures Transition(p, s, room, mode, out, now).slots[m].mode ==
      if m == k && |s.log| < MAXREC then mode else s.slots[m].mode
  {
  }

  lemma TransitionRecords(p: Panel, s: Machine, room: int, mode: int, out: int, now: Clock)
    requires |s.log| <= MAXREC && 0 <= mode < 16
    ensures Transition(p, s, room, mode, out, now).log == Capped(s.log + [Rec(room, mode, out % 16, now)])
  {
  }

  // ----- what a poll does -----

  lemma {:induction false} CleanUpCarries(p: Panel, s: Machine, n: nat, now: Clock)
    requires Inv(p, s) && n <= p.cards * PORTS
    ensures CleanUp(p, s, n, now).1 == Carry(s, n, now)
  {
    if n > 0 {
      CleanUpCarries(p, s, n - 1, now);
      UntouchedSoFar(p, s, n - 1, now, n - 1);
    }
  }

  /** CleanUP comes to slot `n` with the machine it has so far and makes the transition if the slot ends. */
  lemma CleanUpNext(p: Panel, s: Machine, n: nat, now: Clock)
    requires Inv(p, s) && n < p.cards * PORTS
    ensures var before := CleanUp(p, s, n, now).0;
      && Inv(p, before) && before.slots[n] == s.slots[n]
      && (Ends(p, s, n, now) ==> Find(p, p.room[n]) == Some(n))
      && CleanUp(p, s, n + 1, now).0 ==
         if Ends(p, s, n, now) then Transition(p, before, p.room[n], OUT, CUP, now) else before
  {
    CleanUpKeepsInv(p, s, n, now);
    CleanUpCarries(p, s, n, now);
    UntouchedSoFar(p, s, n, now, n);
  }

  lemma {:induction false} CleanUpRecords(p: Panel, s: Machine, n: nat, now: Clock)
    requires Inv(p, s) && n <= p.cards * PORTS
    ensures CleanUp(p, s, n, now).0.log == Capped(s.log + CleanMoves(p, s, n, now))
  {
    if n == 0 {
      assert s.log + [] == s.log;
    } else {
      CleanUpRecords(p, s, n - 1, now);
      CleanUpNext(p, s, n - 1, now);
      if Ends(p, s, n - 1, now) {
        TransitionRecords(p, CleanUp(p, s, n - 1, now).0, p.room[n - 1], OUT, CUP, now);
        Appended(s.log, CleanMoves(p, s, n - 1, now), Rec(p.room[n - 1], OUT, CUP, now));
      }
    }
  }

  lemma Appended(log: seq<Rec>, moves: seq<Rec>, rec: Rec)
    ensures Capped(Capped(log + moves) + [rec]) == Capped(log + (moves + [rec]))
  {
    CappedAgain(log + moves, rec);
    assert (log + moves) + [rec] == log + (moves + [rec]);
  }

  lemma CappedFull(log: seq<Rec>, moves: seq<Rec>)
    ensures |Capped(log + moves)| < MAXREC <==> |log| + |moves| < MAXREC
  {
  }

  lemma CleanStepAt(p: Panel, s: Machine, n: nat, now: Clock, k: nat)
    requires Inv(p, s) && n < p.cards * PORTS && k < SLOTS
    ensures var before, after := CleanUp(p, s, n, now).0, CleanUp(p, s, n + 1, now).0;
      if k == n && Ends(p, s, n, now)
      then !Lit(after, k) && after.slots[k].mode ==
        if |s.log| + |CleanMoves(p, s, n, now)| < MAXREC then OUT else before.slots[k].mode
      else Lit(after, k) == Lit(before, k) && after.slots[k].mode == before.slots[k].mode
  {
    var before := CleanUp(p, s, n, now).0;
    CleanUpNext(p, s, n, now);
    if Ends(p, s, n, now) {
      CleanUpRecords(p, s, n, now);
      CappedFull(s.log, CleanMoves(p, s, n, now));
      TransitionLights(p, before, p.room[n], n, OUT, CUP, now, k);
      TransitionModes(p, before, p.room[n], n, OUT, CUP, now, k);
    }
  }

  /** A slot after the first `n` of CleanUP. */
  lemma {:induction false} CleanUpSlotAt(p: Panel, s: Machine, n: nat, now: Clock, k: nat)
    requires Inv(p, s) && n <= p.cards * PORTS && k < SLOTS
    ensures var t := CleanUp(p, s, n, now).0;
      if k < n && Ends(p, s, k, now)
      then !Lit(t, k) && t.slots[k].mode == if |s.log| + |CleanMoves(p, s, k, now)| < MAXREC then OUT else CUP
      else Lit(t, k) == Lit(s, k) && t.slots[k].mode == s.slots[k].mode
  {
    if n > 0 {
      CleanUpSlotAt(p, s, n - 1, now, k);
      CleanStepAt(p, s, n - 1, now, k);
    }
  }

  lemma {:induction false} OvertimeUntouched(p: Panel, s: Machine, n: nat, now: Clock, k: nat)
    requires Inv(p, s) && n <= p.cards * PORTS && n <= k < SLOTS
    ensures CheckOverTime(p, s, n, now).slots[k] == s.slots[k]
  {
    if n > 0 {
      OvertimeUntouched(p, s, n - 1, now, k);
      CheckOverTimeKeepsInv(p, s, n - 1, now);
      var before := CheckOverTime(p, s, n - 1, now);
      if Expired(now, before.slots[n - 1]) {
        TransitionElsewhere(p, before, n - 1, k, OUT, OT, now);
      }
    }
  }

  lemma OvertimeNext(p: Panel, s: Machine, n: nat, now: Clock)
    requires Inv(p, s) && n < p.cards * PORTS
    ensures var before := CheckOverTime(p, s, n, now);
      && Inv(p, before) && before.slots[n] == s.slots[n]
      && (Expired(now, s.slots[n]) ==> Find(p, p.room[n]) == Some(n))
      && CheckOverTime(p, s, n + 1, now) ==
         if Expired(now, s.slots[n]) then Transition(p, before, p.room[n], OUT, OT, now) else before
  {
    CheckOverTimeKeepsInv(p, s, n, now);
    OvertimeUntouched(p, s, n, now, n);
  }

  lemma {:induction false} OvertimeRecords(p: Panel, s: Machine, n: nat, now: Clock)
    requires Inv(p, s) && n <= p.cards * PORTS
    ensures CheckOverTime(p, s, n, now).log == Capped(s.log + OvertimeMoves(p, s, n, now))
  {
    if n == 0 {
      assert s.log + [] == s.log;
    } else {
      OvertimeRecords(p, s, n - 1, now);
      OvertimeNext(p, s, n - 1, now);
      if Expired(now, s.slots[n - 1]) {
        TransitionRecords(p, CheckOverTime(p, s, n - 1, now), p.room[n - 1], OUT, OT, now);
        Appended(s.log, OvertimeMoves(p, s, n - 1, now), Rec(p.room[n - 1], OUT, OT, now));
      }
    }
  }

  lemma OvertimeStepAt(p: Panel, s: Machine, n: nat, now: Clock, k: nat)
    requires Inv(p, s) && n < p.cards * PORTS && k < SLOTS
    ensures var before, after := CheckOverTime(p, s, n, now), CheckOverTime(p, s, n + 1, now);
      if k == n && Expired(now, s.slots[n])
      then !Lit(after, k) && after.slots[k].mode ==
        if |s.log| + |OvertimeMoves(p, s, n, now)| < MAXREC then OUT else before.slots[k].mode
      else Lit(after, k) == Lit(before, k) && after.slots[k].mode == before.slots[k].mode
  {
    var before := CheckOverTime(p, s, n, now);
    OvertimeNext(p, s, n, now);
    if Expired(now, s.slots[n]) {
      OvertimeRecords(p, s, n, now);
      CappedFull(s.log, OvertimeMoves(p, s, n, now));
      TransitionLights(p, before, p.room[n], n, OUT, OT, now, k);
      TransitionModes(p, before, p.room[n], n, OUT, OT, now, k);
    }
  }

  /** A slot after the first `n` of CheckOverTime. */
  lemma {:induction false} OvertimeSlotAt(p: Panel, s: Machine, n: nat, now: Clock, k: nat)
    requires Inv(p, s) && n <= p.cards * PORTS && k < SLOTS
    ensures var t := CheckOverTime(p, s, n, now);
      if k < n && Expired(now, s.slots[k])
      then !Lit(t, k) && t.slots[k].mode == if |s.log| + |OvertimeMoves(p, s, k, now)| < MAXREC then OUT else OT
      else Lit(t, k) == Lit(s, k) && t.slots[k].mode == s.slots[k].mode
  {
    if n > 0 {
      OvertimeSlotAt(p, s, n - 1, now, k);
      OvertimeStepAt(p, s, n - 1, now, k);
    }
  }

  /** CleanUP neither starts nor ends an overtime. */
  lemma CleanUpKeepsOvertime(p: Panel, s: Machine, now: Clock, k: nat)
    requires Inv(p, s) && k < SLOTS
    ensures Expired(now, CleanUp(p, s, p.cards * PORTS, now).0.slots[k]) <==> Expired(now, s.slots[k])
  {
    CleanUpSlotAt(p, s, p.cards * PORTS, now, k);
    if s.slots[k].mode == OT {
      CleanUpSpares(p, s, p.cards * PORTS, now, k);
    }
  }

  lemma {:induction false} SameOvertimeMoves(p: Panel, s: Machine, n: nat, now: Clock)
    requires Inv(p, s) && n <= p.cards * PORTS
    ensures OvertimeMoves(p, CleanUp(p, s, p.cards * PORTS, now).0, n, now) == OvertimeMoves(p, s, n, now)
  {
    if n > 0 {
      SameOvertimeMoves(p, s, n - 1, now);
      CleanUpKeepsOvertime(p, s, now, n - 1);
    }
  }

  // ----- what a step does -----

  /** The log after a step that clears nothing: what the step called for, as far as it fits. */
  lemma StepRecords(p: Panel, s: Machine, step: Step)
    requires Inv(p, s) && !step.ClearPeriod? && !step.ClearRecord?
    ensures Next(p, s, step).log == Capped(s.log + Moves(p, s, step))
  {
    if step.DoPoll? {
      var cleaned := CleanUp(p, s, p.cards * PORTS, step.now).0;
      CleanUpKeepsInv(p, s, p.cards * PORTS, step.now);
      CleanUpRecords(p, s, p.cards * PORTS, step.now);
      OvertimeRecords(p, cleaned, p.cards * PORTS, step.now);
      SameOvertimeMoves(p, s, p.cards * PORTS, step.now);
      PollAppended(s.log, CleanMoves(p, s, p.cards * PORTS, step.now), OvertimeMoves(p, s, p.cards * PORTS, step.now));
    } else {
      assert s.log + [] == s.log;
    }
  }

  lemma PollAppended(log: seq<Rec>, a: seq<Rec>, b: seq<Rec>)
    ensures Capped(Capped(log + a) + b) == Capped(log + (a + b))
  {
    CappedMore(log + a, b);
    assert (log + a) + b == log + (a + b);
  }

  /** The slot's transition was refused by the log: the records before it in the step leave no space. */
  predicate Full(s: Machine, turn: nat) {
    |s.log| + turn >= MAXREC
  }

  /** A slot whose turn it is switches its relay to what the transition says and takes the new status only if the log
      takes the record; any other slot keeps relay and status. */
  lemma StepAtSlot(p: Panel, s: Machine, step: Step, k: nat)
    requires Inv(p, s) && k < SLOTS
    ensures var t := Next(p, s, step);
      match Turn(p, s, step, k)
      case None => Lit(t, k) == Lit(s, k) && t.slots[k].mode == s.slots[k].mode
      case Some(i) =>
        Lit(t, k) == Active(Goal(step)) && t.slots[k].mode == if Full(s, i) then s.slots[k].mode else Goal(step)
  {
    match step
    case DoEnter(room, key, now) => EnterAtSlot(p, s, room, key, now, k);
    case DoPoll(now) => PollAtSlot(p, s, now, k);
    case _ =>
  }

  lemma EnterAtSlot(p: Panel, s: Machine, room: int, key: Key, now: Clock, k: nat)
    requires k < SLOTS
    ensures var t := Enter(p, s, room, key, now);
      if Find(p, room) == Some(k) && Allowed(s.slots[k].mode, key)
      then Lit(t, k) == Active(key) && t.slots[k].mode == if |s.log| < MAXREC then key else s.slots[k].mode
      else Lit(t, k) == Lit(s, k) && t.slots[k].mode == s.slots[k].mode
  {
    var mode := GetStatus(p, s, room);
    if Allowed(mode, key) {
      var timed := if key == OT then SaveOtime(p, s, room, p.otMinutes) else s;
      var m := Find(p, room).value;
      TransitionLights(p, timed, room, m, key, if key == OUT then mode else 0, now, k);
      TransitionModes(p, timed, room, m, key, if key == OUT then mode else 0, now, k);
    }
  }

  lemma PollAtSlot(p: Panel, s: Machine, now: Clock, k: nat)
    requires Inv(p, s) && k < SLOTS
    ensures var t := Poll(p, s, now);
      match Turn(p, s, DoPoll(now), k)
      case None => Lit(t, k) == Lit(s, k) && t.slots[k].mode == s.slots[k].mode
      case Some(i) => !Lit(t, k) && t.slots[k].mode == if Full(s, i) then s.slots[k].mode else OUT
  {
    var n := p.cards * PORTS;
    var cleaned := CleanUp(p, s, n, now).0;
    CleanUpKeepsInv(p, s, n, now);
    CleanUpSlotAt(p, s, n, now, k);
    CleanUpRecords(p, s, n, now);
    CleanUpKeepsOvertime(p, s, now, k);
    OvertimeSlotAt(p, cleaned, n, now, k);
    if k < n {
      SameOvertimeMoves(p, s, k, now);
    }
  }

  /** The turn of a slot is the place of its record among those the step wants to write. */
  lemma {:induction false} TurnIsPlace(p: Panel, s: Machine, step: Step, k: nat)
    requires k < SLOTS && Turn(p, s, step, k).Some?
    ensures var i := Turn(p, s, step, k).value;
      i < |Moves(p, s, step)| && Moves(p, s, step)[i].room == p.room[k] && Moves(p, s, step)[i].mode == Goal(step)
  {
    if step.DoPoll? {
      CleanPlace(p, s, p.cards * PORTS, step.now, k);
      OvertimePlace(p, s, p.cards * PORTS, step.now, k);
    }
  }

  lemma {:induction false} CleanPlace(p: Panel, s: Machine, n: nat, now: Clock, k: nat)
    requires k < n <= SLOTS
    ensures Ends(p, s, k, now) ==>
      var i := |CleanMoves(p, s, k, now)|;
      i < |CleanMoves(p, s, n, now)| && CleanMoves(p, s, n, now)[i] == Rec(p.room[k], OUT, CUP, now)
  {
    if k < n - 1 {
      CleanPlace(p, s, n - 1, now, k);
    }
  }

  lemma {:induction false} OvertimePlace(p: Panel, s: Machine, n: nat, now: Clock, k: nat)
    requires k < n <= SLOTS
    ensures Expired(now, s.slots[k]) ==>
      var i := |OvertimeMoves(p, s, k, now)|;
      i < |OvertimeMoves(p, s, n, now)| && OvertimeMoves(p, s, n, now)[i] == Rec(p.room[k], OUT, OT, now)
  {
    if k < n - 1 {
      OvertimePlace(p, s, n - 1, now, k);
    }
  }

  // ----- relays and slots over whole runs -----

  /** The latest transition of slot `k` found the log full, and was not the OUT of a slot never used. */
  predicate LatestRefused(p: Panel, steps: seq<Step>, k: nat)
    requires k < SLOTS
  {
    steps != [] &&
    var before, step := Run(p, steps[..|steps| - 1]), steps[|steps| - 1];
    match Turn(p, before, step, k)
    case None => LatestRefused(p, steps[..|steps| - 1], k)
    case Some(i) => Full(before, i) && !(before.slots[k].mode == UNSET && Goal(step) == OUT)
  }

  lemma ClearedRelays(k: nat)
    requires k < SLOTS
    ensures !Lit(Cleared(), k) && !Active(Cleared().slots[k].mode)
  {
  }

  /** In every run the relay of a slot disagrees with its status if and only if the slot's latest transition was
      refused by the full log (the OUT of a slot never used apart, which changes neither). */
  lemma {:induction false} RelayTracksSlot(p: Panel, steps: seq<Step>, k: nat)
    requires k < SLOTS
    ensures var s := Run(p, steps); (Lit(s, k) <==> Active(s.slots[k].mode)) <==> !LatestRefused(p, steps, k)
  {
    if steps == [] {
      ClearedRelays(k);
    } else {
      var n := |steps| - 1;
      var s := Run(p, steps[..n]);
      RelayTracksSlot(p, steps[..n], k);
      RunKeepsInv(p, steps[..n]);
      StepAtSlot(p, s, steps[n], k);
    }
  }

  /** The log has never been full. */
  predicate SpaceLeft(p: Panel, steps: seq<Step>) {
    |Run(p, steps).log| < MAXREC && (steps == [] || SpaceLeft(p, steps[..|steps| - 1]))
  }

  lemma SpaceForTurn(p: Panel, s: Machine, step: Step, k: nat)
    requires Inv(p, s) && k < SLOTS && |Next(p, s, step).log| < MAXREC && Turn(p, s, step, k).Some?
    ensures !Full(s, Turn(p, s, step, k).value)
  {
    StepRecords(p, s, step);
    TurnIsPlace(p, s, step, k);
  }

  /** While the log has never been full, each relay is on exactly when its slot is in, cleaning or overtime. */
  lemma {:induction false} RelaysFollowSlots(p: Panel, steps: seq<Step>, k: nat)
    requires k < SLOTS && SpaceLeft(p, steps)
    ensures var s := Run(p, steps); Lit(s, k) <==> Active(s.slots[k].mode)
  {
    RelayTracksSlot(p, steps, k);
    NeverRefused(p, steps, k);
  }

  lemma {:induction false} NeverRefused(p: Panel, steps: seq<Step>, k: nat)
    requires k < SLOTS && SpaceLeft(p, steps)
    ensures !LatestRefused(p, steps, k)
  {
    if steps != [] {
      var n := |steps| - 1;
      NeverRefused(p, steps[..n], k);
      RunKeepsInv(p, steps[..n]);
      if Turn(p, Run(p, steps[..n]), steps[n], k).Some? {
        SpaceForTurn(p, Run(p, steps[..n]), steps[n], k);
      }
    }
  }

  // ----- the log as a queue -----

  /** How many of the step's records find space. */
  function Accepted(p: Panel, s: Machine, step: Step): nat {
    var wanted := |Moves(p, s, step)|;
    if |s.log| + wanted <= MAXREC then wanted else if |s.log| >= MAXREC then 0 else MAXREC - |s.log|
  }

  /** Everything the run wanted recorded, in order. */
  function Wanted(p: Panel, steps: seq<Step>): seq<Rec> {
    if steps == [] then []
    else Wanted(p, steps[..|steps| - 1]) + Moves(p, Run(p, steps[..|steps| - 1]), steps[|steps| - 1])
  }

  /** Of each step, the first transitions, as many as there was space for. */
  function Recorded(p: Panel, steps: seq<Step>): seq<Rec> {
    if steps == [] then []
    else
      var before, step := Run(p, steps[..|steps| - 1]), steps[|steps| - 1];
      Recorded(p, steps[..|steps| - 1]) + Moves(p, before, step)[..Accepted(p, before, step)]
  }

  function DiscardedBy(s: Machine, step: Step): seq<Rec> {
    if step.ClearPeriod? && s.periodEnd <= |s.log| then s.log[..s.periodEnd]
    else if step.ClearRecord? then s.log
    else []
  }

  /** Everything the run has cleared, in order: the period, or the whole log. */
  function Discarded(p: Panel, steps: seq<Step>): seq<Rec> {
    if steps == [] then []
    else Discarded(p, steps[..|steps| - 1]) + DiscardedBy(Run(p, steps[..|steps| - 1]), steps[|steps| - 1])
  }

  lemma CappedIsAccepted(log: seq<Rec>, moves: seq<Rec>, n: nat)
    requires |log| <= MAXREC && n == if |log| + |moves| <= MAXREC then |moves| else MAXREC - |log|
    ensures n <= |moves| && Capped(log + moves) == log + moves[..n]
  {
  }

  lemma StepQueues(p: Panel, s: Machine, step: Step)
    requires Inv(p, s)
    ensures DiscardedBy(s, step) + Next(p, s, step).log == s.log + Moves(p, s, step)[..Accepted(p, s, step)]
  {
    if step.ClearPeriod? || step.ClearRecord? {
      assert s.log + [] == s.log;
    } else {
      StepRecords(p, s, step);
      CappedIsAccepted(s.log, Moves(p, s, step), Accepted(p, s, step));
    }
  }

  lemma Regroup(a: seq<Rec>, b: seq<Rec>, c: seq<Rec>, d: seq<Rec>, e: seq<Rec>)
    requires b + c == d + e
    ensures (a + b) + c == (a + d) + e
  {
    assert (a + b) + c == a + (b + c) && (a + d) + e == a + (d + e);
  }

  /** Over every run: what has been cleared, then the log, is what found space, in order, nothing doubled. */
  lemma {:induction false} LogIsQueue(p: Panel, steps: seq<Step>)
    ensures Discarded(p, steps) + Run(p, steps).log == Recorded(p, steps)
  {
    if steps != [] {
      var n := |steps| - 1;
      var s, step := Run(p, steps[..n]), steps[n];
      LogIsQueue(p, steps[..n]);
      RunKeepsInv(p, steps[..n]);
      StepQueues(p, s, step);
      Regroup(Discarded(p, steps[..n]), DiscardedBy(s, step), Next(p, s, step).log, s.log,
        Moves(p, s, step)[..Accepted(p, s, step)]);
    }
  }

  /** Every step found space for all it wanted to record. */
  predicate AllFit(p: Panel, steps: seq<Step>) {
    steps == [] ||
    var before, step := Run(p, steps[..|steps| - 1]), steps[|steps| - 1];
    AllFit(p, steps[..|steps| - 1]) &&
    (Moves(p, before, step) == [] || |before.log| + |Moves(p, before, step)| <= MAXREC)
  }

  lemma {:induction false} RecordedLength(p: Panel, steps: seq<Step>)
    ensures |Recorded(p, steps)| <= |Wanted(p, steps)|
    ensures |Recorded(p, steps)| == |Wanted(p, steps)| <==> AllFit(p, steps)
    ensures AllFit(p, steps) ==> Recorded(p, steps) == Wanted(p, steps)
  {
    if steps != [] {
      RecordedLength(p, steps[..|steps| - 1]);
    }
  }

  /** A run has lost no transition if and only if every step found space for all of its own. */
  lemma NothingLostExactlyWhen(p: Panel, steps: seq<Step>)
    ensures Discarded(p, steps) + Run(p, steps).log == Wanted(p, steps) <==> AllFit(p, steps)
  {
    LogIsQueue(p, steps);
    RecordedLength(p, steps);
  }

  // ----- a run that fills the log -----

  function KeyAt(n: nat): Key {
    if n % 2 == 1 then IN else OUT
  }

  /** One room goes in and out in turn. */
  function InAndOut(room: int, n: nat, now: Clock): seq<Step> {
    if n == 0 then [] else InAndOut(room, n - 1, now) + [DoEnter(room, KeyAt(n), now)]
  }

  lemma EntryRecorded(p: Panel, s: Machine, room: int, k: nat, key: Key, now: Clock)
    requires Inv(p, s) && Find(p, room) == Some(k) && Allowed(s.slots[k].mode, key) && |s.log| < MAXREC
    ensures var t := Next(p, s, DoEnter(room, key, now)); t.slots[k].mode == key && |t.log| == |s.log| + 1
  {
    StepAtSlot(p, s, DoEnter(room, key, now), k);
    StepRecords(p, s, DoEnter(room, key, now));
  }

  function ModeAt(n: nat): int {
    if n == 0 then UNSET else KeyAt(n)
  }

  lemma KeysAlternate(n: nat)
    requires n > 0
    ensures Allowed(ModeAt(n - 1), KeyAt(n)) && ModeAt(n) == KeyAt(n)
  {
  }

  predicate Filled(s: Machine, k: nat, n: nat)
    requires k < SLOTS
  {
    |s.log| == n && s.slots[k].mode == ModeAt(n)
  }

  lemma OneMoreRecord(p: Panel, before: seq<Step>, room: int, k: nat, n: nat, now: Clock)
    requires Find(p, room) == Some(k) && 0 < n <= MAXREC && Filled(Run(p, before), k, n - 1)
    ensures Filled(Run(p, before + [DoEnter(room, KeyAt(n), now)]), k, n)
  {
    KeysAlternate(n);
    RunNext(p, before, DoEnter(room, KeyAt(n), now));
    RunKeepsInv(p, before);
    EntryRecorded(p, Run(p, before), room, k, KeyAt(n), now);
  }

  lemma {:induction false} InAndOutFills(p: Panel, room: int, k: nat, n: nat, now: Clock)
    requires Find(p, room) == Some(k) && n <= MAXREC
    ensures Filled(Run(p, InAndOut(room, n, now)), k, n)
  {
    if n > 0 {
      InAndOutFills(p, room, k, n - 1, now);
      OneMoreRecord(p, InAndOut(room, n - 1, now), room, k, n, now);
    }
  }

  lemma RefusedEntry(p: Panel, steps: seq<Step>, room: int, k: nat, now: Clock)
    requires Find(p, room) == Some(k) && |Run(p, steps).log| == MAXREC && Run(p, steps).slots[k].mode == OUT
    ensures var s := Run(p, steps + [DoEnter(room, IN, now)]);
      Lit(s, k) && s.slots[k].mode == OUT && s.log == Run(p, steps).log
  {
    RunNext(p, steps, DoEnter(room, IN, now));
    RunKeepsInv(p, steps);
    StepAtSlot(p, Run(p, steps), DoEnter(room, IN, now), k);
    StepRecords(p, Run(p, steps), DoEnter(room, IN, now));
  }

  /** A full log parts relay and slot: for every room with a port there is a run after which its relay is on, its
      status OUT, and the transition that did it nowhere in the log. */
  lemma FullLogParts(p: Panel, room: int, now: Clock) returns (steps: seq<Step>)
    requires Find(p, room).Some?
    ensures var s := Run(p, steps); var k := Find(p, room).value;
      Lit(s, k) && s.slots[k].mode == OUT && !AllFit(p, steps)
  {
    steps := FilledThenIn(p, room, MAXREC, now);
  }

  lemma FilledThenIn(p: Panel, room: int, n: nat, now: Clock) returns (steps: seq<Step>)
    requires Find(p, room).Some? && n == MAXREC
    ensures var s := Run(p, steps); var k := Find(p, room).value;
      Lit(s, k) && s.slots[k].mode == OUT && !AllFit(p, steps)
  {
    var full := InAndOut(room, n, now);
    steps := full + [DoEnter(room, IN, now)];
    InAndOutFills(p, room, Find(p, room).value, n, now);
    assert ModeAt(n) == OUT;
    RefusedEntry(p, full, room, Find(p, room).value, now);
    assert steps[..|steps| - 1] == full;
    assert Moves(p, Run(p, full), DoEnter(room, IN, now)) != [];
  }
}
