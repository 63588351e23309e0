/** What a period holds, told from the order of the steps: the records that were in the log when it was added
    (`AddPeriod`, `ClearPeriod`, `ClearRecord` in `AMP_V2D.C`). */
module Periods {
  import opened Core
  import opened Firmware
  import opened FirmwareInvariants
  import opened FirmwareLog
  import opened PeriodReport

  /** All but the last step. */
  function Front(steps: seq<Step>): seq<Step>
    requires steps != []
  {
    steps[..|steps| - 1]
  }

  function Last(steps: seq<Step>): Step
    requires steps != []
  {
    steps[|steps| - 1]
  }

  /** The steps before the latest AddPeriod, unless something has been cleared since. */
  function Added(steps: seq<Step>): Option<seq<Step>> {
    if steps == [] then None
    else
      match Last(steps)
      case AddPeriod => Some(Front(steps))
      case ClearPeriod => None
      case ClearRecord => None
      case _ => Added(Front(steps))
  }

  /** How many of the records made so far have been cleared: with the period those made before it was added, with the
      whole memory all of them. */
  function Gone(p: Panel, steps: seq<Step>): nat {
    if steps == [] then 0
    else
      match Last(steps)
      case ClearRecord => |Recorded(p, Front(steps))|
      case ClearPeriod =>
        (match Added(Front(steps))
         case None => Gone(p, Front(steps))
         case Some(first) => |Recorded(p, first)|)
      case _ => Gone(p, Front(steps))
  }

  lemma {:induction false} AddedIsFirst(steps: seq<Step>)
    requires Added(steps).Some?
    ensures var first := Added(steps).value; |first| < |steps| && first == steps[..|first|]
  {
    if !Last(steps).AddPeriod? {
      AddedIsFirst(Front(steps));
      var first := Added(steps).value;
      assert Front(steps)[..|first|] == steps[..|first|];
    }
  }

  /** Nothing is ever taken back from what has been recorded. */
  lemma {:induction false} RecordedGrows(p: Panel, steps: seq<Step>, n: nat)
    requires n <= |steps|
    ensures |Recorded(p, steps[..n])| <= |Recorded(p, steps)|
    ensures Recorded(p, steps)[..|Recorded(p, steps[..n])|] == Recorded(p, steps[..n])
  {
    if n == |steps| {
      assert steps[..n] == steps;
    } else {
      RecordedGrows(p, steps[..|steps| - 1], n);
      assert steps[..|steps| - 1][..n] == steps[..n];
    }
  }

  /** The end of the period is where the log ended when it was added. */
  ghost predicate Marked(p: Panel, steps: seq<Step>) {
    && |Discarded(p, steps)| == Gone(p, steps)
    && match Added(steps)
       case None => Run(p, steps).periodEnd == 0
       case Some(first) => Gone(p, first) == Gone(p, steps) && Run(p, steps).periodEnd == |Run(p, first).log|
  }

  lemma LogLength(p: Panel, steps: seq<Step>)
    ensures |Recorded(p, steps)| == |Discarded(p, steps)| + |Run(p, steps).log|
    ensures Run(p, steps).log == Recorded(p, steps)[|Discarded(p, steps)|..]
  {
    LogIsQueue(p, steps);
  }

  lemma {:induction false} CleanUpKeepsEnd(p: Panel, s: Machine, n: nat, now: Clock)
    requires n <= p.cards * PORTS
    ensures CleanUp(p, s, n, now).0.periodEnd == s.periodEnd
  {
    if n > 0 {
      CleanUpKeepsEnd(p, s, n - 1, now);
    }
  }

  lemma {:induction false} OvertimeKeepsEnd(p: Panel, s: Machine, n: nat, now: Clock)
    requires n <= p.cards * PORTS
    ensures CheckOverTime(p, s, n, now).periodEnd == s.periodEnd
  {
    if n > 0 {
      OvertimeKeepsEnd(p, s, n - 1, now);
    }
  }

  lemma PeriodEndKept(p: Panel, s: Machine, step: Step)
    ensures !step.AddPeriod? && !step.ClearPeriod? && !step.ClearRecord? ==> Next(p, s, step).periodEnd == s.periodEnd
  {
    if step.DoPoll? {
      CleanUpKeepsEnd(p, s, p.cards * PORTS, step.now);
      OvertimeKeepsEnd(p, CleanUp(p, s, p.cards * PORTS, step.now).0, p.cards * PORTS, step.now);
    }
  }

  lemma DiscardedBySize(s: Machine, step: Step)
    requires s.periodEnd <= |s.log|
    ensures |DiscardedBy(s, step)| ==
      if step.ClearPeriod? then s.periodEnd else if step.ClearRecord? then |s.log| else 0
  {
  }

  lemma DiscardedNext(p: Panel, steps: seq<Step>)
    requires steps != [] && Inv(p, Run(p, Front(steps)))
    ensures var s, step := Run(p, Front(steps)), Last(steps);
      |Discarded(p, steps)| == |Discarded(p, Front(steps))| +
        if step.ClearPeriod? then s.periodEnd else if step.ClearRecord? then |s.log| else 0
  {
    DiscardedBySize(Run(p, Front(steps)), Last(steps));
  }

  lemma Sizes(p: Panel, steps: seq<Step>)
    requires Marked(p, steps)
    ensures |Recorded(p, steps)| == Gone(p, steps) + |Run(p, steps).log|
  {
    LogLength(p, steps);
  }

  lemma GoneNext(p: Panel, steps: seq<Step>)
    requires steps != [] && Marked(p, Front(steps)) && Inv(p, Run(p, Front(steps)))
    requires Added(Front(steps)).Some? ==> Marked(p, Added(Front(steps)).value)
    ensures |Discarded(p, steps)| == Gone(p, steps)
  {
    DiscardedNext(p, steps);
    Sizes(p, Front(steps));
    if Added(Front(steps)).Some? {
      Sizes(p, Added(Front(steps)).value);
    }
  }

  lemma MarkedNext(p: Panel, steps: seq<Step>)
    requires steps != [] && Marked(p, Front(steps)) && Inv(p, Run(p, Front(steps)))
    requires Added(Front(steps)).Some? ==> Marked(p, Added(Front(steps)).value)
    ensures Marked(p, steps)
  {
    GoneNext(p, steps);
    PeriodEndKept(p, Run(p, Front(steps)), Last(steps));
  }

  lemma NothingMarked(p: Panel)
    ensures Marked(p, [])
  {
  }

  lemma MarkedWhenAdded(p: Panel, steps: seq<Step>)
    ensures Added(steps).Some? ==> Marked(p, Added(steps).value)
    decreases |steps|, 0
  {
    if Added(steps).Some? {
      AddedIsFirst(steps);
      AlwaysMarked(p, Added(steps).value);
    }
  }

  lemma AlwaysMarked(p: Panel, steps: seq<Step>)
    ensures Marked(p, steps)
    decreases |steps|, 1
  {
    if steps == [] {
      NothingMarked(p);
    } else {
      AlwaysMarked(p, Front(steps));
      RunKeepsInv(p, Front(steps));
      MarkedWhenAdded(p, Front(steps));
      MarkedNext(p, steps);
    }
  }

  lemma LogIsRest(p: Panel, steps: seq<Step>)
    ensures Gone(p, steps) <= |Recorded(p, steps)| && Run(p, steps).log == Recorded(p, steps)[Gone(p, steps)..]
  {
    AlwaysMarked(p, steps);
    LogLength(p, steps);
  }

  lemma PeriodIs(p: Panel, steps: seq<Step>)
    ensures match Added(steps)
      case None => Period(p, steps) == []
      case Some(first) =>
        && Gone(p, first) == Gone(p, steps) && |Run(p, first).log| <= |Run(p, steps).log|
        && Period(p, steps) == Run(p, steps).log[..|Run(p, first).log|]
  {
    AlwaysMarked(p, steps);
    RunKeepsInv(p, steps);
  }

  lemma RestOfPrefix(all: seq<Rec>, first: seq<Rec>, gone: nat)
    requires gone <= |first| <= |all| && all[..|first|] == first
    ensures all[gone..][..|first[gone..]|] == first[gone..]
  {
  }

  /** After any run the log holds the records made and not cleared, and the period those of them that were in the log
      when it was added. */
  lemma PeriodHolds(p: Panel, steps: seq<Step>)
    ensures Gone(p, steps) <= |Recorded(p, steps)| && Run(p, steps).log == Recorded(p, steps)[Gone(p, steps)..]
    ensures match Added(steps)
      case None => Period(p, steps) == []
      case Some(first) =>
        && Gone(p, steps) <= |Recorded(p, first)|
        && Period(p, steps) == Recorded(p, first)[Gone(p, steps)..] == Run(p, first).log
  {
    LogIsRest(p, steps);
    PeriodIs(p, steps);
    if Added(steps).Some? {
      var first := Added(steps).value;
      LogIsRest(p, first);
      AddedIsFirst(steps);
      RecordedGrows(p, steps, |first|);
      RestOfPrefix(Recorded(p, steps), Recorded(p, first), Gone(p, steps));
    }
  }

  predicate KeepsPeriod(steps: seq<Step>) {
    forall step :: step in steps ==> !step.AddPeriod? && !step.ClearPeriod? && !step.ClearRecord?
  }

  lemma {:induction false} StillAdded(steps: seq<Step>, more: seq<Step>)
    requires KeepsPeriod(more)
    ensures Added(steps + [AddPeriod] + more) == Some(steps)
  {
    var all := steps + [AddPeriod] + more;
    if more == [] {
      assert Last(all) == AddPeriod && Front(all) == steps;
    } else {
      StillAdded(steps, more[..|more| - 1]);
      assert Front(all) == steps + [AddPeriod] + more[..|more| - 1];
      assert Last(all) in more;
    }
  }

  /** Once a period has been added, and whatever is keyed in or polled after it, the report has each printable record
      of the log as it then was on exactly one line. */
  lemma ReportOfAddedPeriod(p: Panel, steps: seq<Step>, more: seq<Step>, i: nat)
    requires KeepsPeriod(more) && i < |Run(p, steps).log| && Printable(Run(p, steps).log[i].room)
    ensures var all := steps + [AddPeriod] + more;
      && Period(p, all) == Run(p, steps).log
      && (var lines := Report(Period(p, all));
          exists a | 0 <= a < |lines| :: StandsOn(lines[a], i) &&
            forall b | 0 <= b < |lines| :: StandsOn(lines[b], i) ==> a == b)
  {
    var all := steps + [AddPeriod] + more;
    StillAdded(steps, more);
    PeriodHolds(p, all);
    ReachableReportIsExact(p, all, i);
  }

  /** Clearing an added period leaves the records made after it was added, in order. */
  lemma ClearedPeriodLeavesRest(p: Panel, steps: seq<Step>, more: seq<Step>)
    requires KeepsPeriod(more)
    ensures var all := steps + [AddPeriod] + more;
      && |Recorded(p, steps)| <= |Recorded(p, all)|
      && Run(p, all + [ClearPeriod]).log == Recorded(p, all)[|Recorded(p, steps)|..]
  {
    var all := steps + [AddPeriod] + more;
    StillAdded(steps, more);
    assert all[..|steps|] == steps;
    RecordedGrows(p, all, |steps|);
    assert Front(all + [ClearPeriod]) == all;
    LogIsRest(p, all + [ClearPeriod]);
  }
}
