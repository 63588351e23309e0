/** What the ledger keeps over every run of transactions, rolled-back ones included. */
module Ledger {
  import opened Core
  import opened Database

  function AuditIds(db: Tables): set<string> {
    set a | a in db.audits :: a.id
  }

  function StayIds(db: Tables): set<string> {
    set s | s in db.stays :: s.stayId
  }

  /** Sum of the check-in and extend payments of a stay: those whose id is not their request's id. */
  function CarriedBy(payments: seq<Payment>, stayId: string): real {
    if payments == [] then 0.0
    else
      var p := payments[|payments| - 1];
      CarriedBy(payments[..|payments| - 1], stayId)
      + if p.stayId == stayId && p.paymentId != p.requestId then p.amount else 0.0
  }

  ghost predicate AuditsDistinct(db: Tables) {
    forall i, j :: 0 <= i < j < |db.audits| ==> db.audits[i].id != db.audits[j].id
  }

  ghost predicate StaysKeyed(db: Tables) {
    && (forall i, j :: 0 <= i < j < |db.stays| ==> db.stays[i].stayId != db.stays[j].stayId)
    && (forall s :: s in db.stays ==> s.stayId != "" && s.stayId in AuditIds(db))
  }

  ghost predicate PaymentsKeyed(db: Tables) {
    && (forall i, j :: 0 <= i < j < |db.payments| ==> db.payments[i].requestId != db.payments[j].requestId)
    && (forall p :: p in db.payments ==> p.requestId in AuditIds(db) && (p.stayId == "" || p.stayId in StayIds(db)))
  }

  ghost predicate Conserved(db: Tables) {
    forall s :: s in db.stays ==> s.paymentAmount == CarriedBy(db.payments, s.stayId)
  }

  ghost predicate Keyed(db: Tables) {
    AuditsDistinct(db) && StaysKeyed(db) && PaymentsKeyed(db)
  }

  lemma AuditAppended(db: Tables, after: Tables, id: string)
    requires AuditsDistinct(db) && id !in AuditIds(db)
    requires |after.audits| == |db.audits| + 1 && after.audits[..|db.audits|] == db.audits
    requires after.audits[|db.audits|].id == id
    ensures AuditsDistinct(after) && AuditIds(after) == AuditIds(db) + {id}
  {
    var n := |db.audits|;
    assert after.audits == db.audits + [after.audits[n]];
    assert forall i :: 0 <= i < n ==> db.audits[i] in db.audits;
  }

  lemma CommitAudits(db: Tables, t: Txn)
    requires Keyed(db) && Body(db, t).Ok?
    ensures AuditsDistinct(Body(db, t).value)
    ensures t.requestId !in AuditIds(db) && AuditIds(Body(db, t).value) == AuditIds(db) + {t.requestId}
  {
    CommittedAudits(db, t);
    AuditAppended(db, Body(db, t).value, t.requestId);
  }

  /** A replaced row keeps its key, so the set of keys stays. */
  lemma ReplacedStay(db: Tables, i: nat, s: Stay, after: Tables)
    requires i < |db.stays| && s.stayId == db.stays[i].stayId && after.stays == db.stays[i := s]
    requires StaysKeyed(db) && AuditIds(db) <= AuditIds(after)
    ensures StaysKeyed(after) && StayIds(after) == StayIds(db)
  {
    forall id | id in StayIds(db) ensures id in StayIds(after) {
      var k :| 0 <= k < |db.stays| && db.stays[k].stayId == id;
      assert after.stays[k] in after.stays;
    }
    forall x | x in after.stays ensures x.stayId in StayIds(db) {
      assert db.stays[i] in db.stays;
    }
  }

  lemma StayAppended(db: Tables, after: Tables, s: Stay)
    requires StaysKeyed(db) && after.stays == db.stays + [s] && s.stayId != ""
    requires AuditIds(after) == AuditIds(db) + {s.stayId} && s.stayId !in AuditIds(db)
    ensures StaysKeyed(after) && StayIds(after) == StayIds(db) + {s.stayId}
  {
    assert forall i :: 0 <= i < |db.stays| ==> db.stays[i] in db.stays;
    assert s in after.stays;
    assert forall x :: x in after.stays <==> x in db.stays || x == s;
  }

  lemma CommitRewrites(db: Tables, t: Txn)
    requires Body(db, t).Ok? && !t.CheckIn?
    ensures var after := Body(db, t).value; var r := FoundStay(db, t);
      if r.None? then after.stays == db.stays
      else |after.stays| == |db.stays| && after.stays == db.stays[r.value := after.stays[r.value]] &&
           after.stays[r.value].stayId == db.stays[r.value].stayId
  {
    CommittedStays(db, t);
  }

  lemma CommitStays(db: Tables, t: Txn)
    requires Keyed(db) && Body(db, t).Ok? && t.requestId != ""
    ensures StaysKeyed(Body(db, t).value)
    ensures StayIds(Body(db, t).value) == StayIds(db) + if t.CheckIn? then {t.requestId} else {}
  {
    CommitAudits(db, t);
    var after := Body(db, t).value;
    if t.CheckIn? {
      CommittedStays(db, t);
      StayAppended(db, after, NewStay(t));
    } else {
      CommitRewrites(db, t);
      var r := FoundStay(db, t);
      if r.Some? {
        ReplacedStay(db, r.value, after.stays[r.value], after);
      }
    }
  }

  lemma PaymentAppended(db: Tables, after: Tables, id: string)
    requires PaymentsKeyed(db) && id !in AuditIds(db)
    requires AuditIds(after) == AuditIds(db) + {id} && StayIds(db) <= StayIds(after)
    requires after.payments != db.payments ==>
      && |after.payments| == |db.payments| + 1 && after.payments[..|db.payments|] == db.payments
      && var p := after.payments[|db.payments|]; p.requestId == id && (p.stayId == "" || p.stayId in StayIds(after))
    ensures PaymentsKeyed(after)
  {
    var n := |db.payments|;
    if after.payments != db.payments {
      assert after.payments == db.payments + [after.payments[n]];
      assert forall i :: 0 <= i < n ==> db.payments[i] in db.payments;
    }
  }

  lemma CommitPayments(db: Tables, t: Txn)
    requires Keyed(db) && Body(db, t).Ok? && t.requestId != ""
    ensures PaymentsKeyed(Body(db, t).value)
  {
    CommitAudits(db, t);
    CommitStays(db, t);
    CommittedPayments(db, t);
    if FindActiveStay(db, t.roomId).Some? {
      assert db.stays[FindActiveStay(db, t.roomId).value] in db.stays;
    }
    PaymentAppended(db, Body(db, t).value, t.requestId);
  }

  lemma CarriedAppend(payments: seq<Payment>, p: Payment, stayId: string)
    ensures CarriedBy(payments + [p], stayId)
         == CarriedBy(payments, stayId) + if p.stayId == stayId && p.paymentId != p.requestId then p.amount else 0.0
  {
    assert (payments + [p])[..|payments|] == payments;
  }

  lemma {:induction false} CarriedNothing(payments: seq<Payment>, stayId: string)
    requires forall p :: p in payments ==> p.stayId != stayId
    ensures CarriedBy(payments, stayId) == 0.0
  {
    if payments != [] {
      assert payments[|payments| - 1] in payments;
      CarriedNothing(payments[..|payments| - 1], stayId);
    }
  }

  lemma SuffixDiffers(id: string, suffix: string)
    requires suffix != ""
    ensures id + suffix != id
  {
    assert |id + suffix| == |id| + |suffix|;
  }

  /** The amount a transaction adds to a stay's payments and the amount it adds to its total. */
  function PaidInto(db: Tables, t: Txn, stayId: string): real {
    if t.CheckIn? && t.amount > 0.0 && stayId == t.requestId then t.amount
    else if t.Extend? && t.amount > 0.0 && stayId == ActiveStayId(db, t.roomId) then t.amount
    else 0.0
  }

  lemma CommitCarried(db: Tables, t: Txn, stayId: string)
    requires Body(db, t).Ok?
    ensures CarriedBy(Body(db, t).value.payments, stayId) == CarriedBy(db.payments, stayId) + PaidInto(db, t, stayId)
  {
    CommittedPayments(db, t);
    SuffixDiffers(t.requestId, "-checkin");
    SuffixDiffers(t.requestId, "-extend");
    var after := Body(db, t).value;
    var n := |db.payments|;
    if |after.payments| == n + 1 {
      assert after.payments == db.payments + [after.payments[n]];
      CarriedAppend(db.payments, after.payments[n], stayId);
    }
  }

  /** What the totals need: a check-in amount, or the amount of an extension of a stay, is not negative. */
  predicate Fair(db: Tables, t: Txn) {
    match t
    case CheckIn(_, _, _, _, _, _, _, amount, _) => amount >= 0.0
    case Extend(_, _, _, _, _, _, _, amount, _) => amount >= 0.0 || FindActiveStay(db, t.roomId).None?
    case _ => true
  }

  /** What a stay's total has above its payments. */
  function Gap(db: Tables, i: nat): real
    requires i < |db.stays|
  {
    db.stays[i].paymentAmount - CarriedBy(db.payments, db.stays[i].stayId)
  }

  /** The stay whose total the amount of a transaction goes into. */
  predicate Charges(db: Tables, t: Txn, i: nat) {
    if t.CheckIn? then i == |db.stays| else t.Extend? && Some(i) == FindActiveStay(db, t.roomId)
  }

  /** What a commit adds to the gap of a stay: an amount that is negative makes no payment. */
  function Shortfall(db: Tables, t: Txn, i: nat): real {
    if Charges(db, t, i) && (t.CheckIn? || t.Extend?) && t.amount < 0.0 then t.amount else 0.0
  }

  lemma NewStayGap(db: Tables, t: Txn)
    requires Keyed(db) && Body(db, t).Ok? && t.requestId != "" && t.CheckIn?
    ensures |Body(db, t).value.stays| == |db.stays| + 1
    ensures Gap(Body(db, t).value, |db.stays|) == Shortfall(db, t, |db.stays|)
  {
    CommittedStays(db, t);
    CommitCarried(db, t, t.requestId);
    CommitAudits(db, t);
    CarriedNothing(db.payments, t.requestId);
  }

  lemma OldStayAmount(db: Tables, t: Txn, i: nat)
    requires Body(db, t).Ok? && i < |db.stays|
    ensures i < |Body(db, t).value.stays|
    ensures var s := Body(db, t).value.stays[i];
      && s.stayId == db.stays[i].stayId
      && s.paymentAmount == db.stays[i].paymentAmount + if t.Extend? && Charges(db, t, i) then t.amount else 0.0
  {
    CommittedStays(db, t);
  }

  /** A payment goes into the stay at position `i` exactly when the transaction charges it. */
  lemma PaidIntoStay(db: Tables, t: Txn, i: nat)
    requires Keyed(db) && Body(db, t).Ok? && i < |db.stays|
    ensures PaidInto(db, t, db.stays[i].stayId) ==
      if t.Extend? && Charges(db, t, i) && t.amount > 0.0 then t.amount else 0.0
  {
    CommitAudits(db, t);
    assert db.stays[i] in db.stays;
    if t.Extend? && FindActiveStay(db, t.roomId).Some? {
      var k := FindActiveStay(db, t.roomId).value;
      assert i == k || db.stays[i].stayId != db.stays[k].stayId;
    }
  }

  lemma OldStayGap(db: Tables, t: Txn, i: nat)
    requires Keyed(db) && Body(db, t).Ok? && i < |db.stays|
    ensures i < |Body(db, t).value.stays| && Gap(Body(db, t).value, i) == Gap(db, i) + Shortfall(db, t, i)
  {
    OldStayAmount(db, t, i);
    PaidIntoStay(db, t, i);
    CommitCarried(db, t, db.stays[i].stayId);
  }

  lemma CommitGap(db: Tables, t: Txn, i: nat)
    requires Keyed(db) && Body(db, t).Ok? && t.requestId != "" && i < |Body(db, t).value.stays|
    ensures Gap(Body(db, t).value, i) == (if i < |db.stays| then Gap(db, i) else 0.0) + Shortfall(db, t, i)
  {
    if i < |db.stays| {
      OldStayGap(db, t, i);
    } else {
      CommittedStays(db, t);
      if !t.CheckIn? {
        CommitRewrites(db, t);
      }
      NewStayGap(db, t);
    }
  }

  /** No total has ever been above its payments. */
  ghost predicate NoneAbove(db: Tables) {
    forall i :: 0 <= i < |db.stays| ==> Gap(db, i) <= 0.0
  }

  ghost predicate SomeBelow(db: Tables) {
    exists i :: 0 <= i < |db.stays| && Gap(db, i) < 0.0
  }

  lemma ConservedGaps(db: Tables)
    requires NoneAbove(db)
    ensures Conserved(db) <==> !SomeBelow(db)
  {
    if Conserved(db) {
      forall i | 0 <= i < |db.stays| ensures Gap(db, i) == 0.0 {
        assert db.stays[i] in db.stays;
      }
    } else {
      var s :| s in db.stays && s.paymentAmount != CarriedBy(db.payments, s.stayId);
      var i :| 0 <= i < |db.stays| && db.stays[i] == s;
      assert Gap(db, i) < 0.0;
    }
  }

  /** A commit leaves no total above its payments, and some below exactly when there was one before or its amount is
      not fair. */
  lemma CommitGaps(db: Tables, t: Txn)
    requires Keyed(db) && NoneAbove(db) && Body(db, t).Ok? && t.requestId != ""
    ensures NoneAbove(Body(db, t).value)
    ensures SomeBelow(Body(db, t).value) <==> SomeBelow(db) || !Fair(db, t)
  {
    var after := Body(db, t).value;
    forall i: nat | i < |after.stays| ensures Gap(after, i) <= 0.0 {
      CommitGap(db, t, i);
    }
    if SomeBelow(db) {
      var i :| 0 <= i < |db.stays| && Gap(db, i) < 0.0;
      OldStayAmount(db, t, i);
      CommitGap(db, t, i);
      assert Gap(after, i) < 0.0;
    }
    if !Fair(db, t) {
      UnfairGap(db, t);
    }
    if SomeBelow(after) {
      var i :| 0 <= i < |after.stays| && Gap(after, i) < 0.0;
      CommitGap(db, t, i);
    }
  }

  lemma UnfairGap(db: Tables, t: Txn)
    requires Keyed(db) && NoneAbove(db) && Body(db, t).Ok? && t.requestId != "" && !Fair(db, t)
    ensures SomeBelow(Body(db, t).value)
  {
    var i := if t.CheckIn? then |db.stays| else FindActiveStay(db, t.roomId).value;
    if t.CheckIn? {
      NewStayGap(db, t);
    } else {
      OldStayAmount(db, t, i);
    }
    CommitGap(db, t, i);
    assert Gap(Body(db, t).value, i) < 0.0;
  }

  /** One commit keeps the totals exactly when its amount is fair. */
  lemma ConservationStep(db: Tables, t: Txn)
    requires Keyed(db) && Conserved(db) && Body(db, t).Ok? && t.requestId != ""
    ensures Conserved(Body(db, t).value) <==> Fair(db, t)
  {
    forall i | 0 <= i < |db.stays| ensures Gap(db, i) == 0.0 {
      assert db.stays[i] in db.stays;
    }
    CommitGaps(db, t);
    ConservedGaps(Body(db, t).value);
  }

  // ----- main results -----

  /** Every call that committed was fair when it did. */
  predicate CommitsAreFair(db: Tables, calls: seq<Call>) {
    calls == [] ||
    var before, last := calls[..|calls| - 1], calls[|calls| - 1];
    CommitsAreFair(db, before) && (Commits(Run(db, before), last) ==> Fair(Run(db, before), last.txn))
  }

  /** Request ids of the committed calls, in order. */
  function Committed(db: Tables, calls: seq<Call>): seq<string> {
    if calls == [] then []
    else
      var before, last := calls[..|calls| - 1], calls[|calls| - 1];
      if Commits(Run(db, before), last) then Committed(db, before) + [last.txn.requestId] else Committed(db, before)
  }

  predicate Named(calls: seq<Call>) {
    forall c :: c in calls ==> c.txn.requestId != ""
  }

  lemma {:induction false} RunKeyed(db: Tables, calls: seq<Call>)
    requires Seeded(db) && Named(calls)
    ensures Keyed(Run(db, calls))
  {
    if calls != [] {
      var n := |calls| - 1;
      RunKeyed(db, calls[..n]);
      assert calls[n] in calls;
      if Commits(Run(db, calls[..n]), calls[n]) {
        CommitAudits(Run(db, calls[..n]), calls[n].txn);
        CommitStays(Run(db, calls[..n]), calls[n].txn);
        CommitPayments(Run(db, calls[..n]), calls[n].txn);
      }
    }
  }

  lemma {:induction false} RunGaps(db: Tables, calls: seq<Call>)
    requires Seeded(db) && Named(calls)
    ensures Keyed(Run(db, calls)) && NoneAbove(Run(db, calls))
    ensures SomeBelow(Run(db, calls)) <==> !CommitsAreFair(db, calls)
  {
    RunKeyed(db, calls);
    if calls != [] {
      var n := |calls| - 1;
      RunGaps(db, calls[..n]);
      assert calls[n] in calls;
      if Commits(Run(db, calls[..n]), calls[n]) {
        CommitGaps(Run(db, calls[..n]), calls[n].txn);
      }
    }
  }

  /** After every run of named calls, rolled-back ones included, every stay's total is the sum of its check-in and
      extend payments if and only if every committed amount was fair: nothing makes up for one that was not. */
  lemma RunConserves(db: Tables, calls: seq<Call>)
    requires Seeded(db) && Named(calls)
    ensures Keyed(Run(db, calls)) && (Conserved(Run(db, calls)) <==> CommitsAreFair(db, calls))
  {
    RunGaps(db, calls);
    ConservedGaps(Run(db, calls));
  }

  lemma AppendedAudit(before: seq<Audit>, after: seq<Audit>, ids: seq<string>, id: string)
    requires |before| == |ids| && forall i :: 0 <= i < |ids| ==> before[i].id == ids[i]
    requires |after| == |before| + 1 && after[..|before|] == before && after[|before|].id == id
    ensures |after| == |ids + [id]| && forall i :: 0 <= i < |after| ==> after[i].id == (ids + [id])[i]
  {
    assert forall i :: 0 <= i < |before| ==> after[i] == after[..|before|][i];
  }

  /** The audit table lists the committed requests in commit order. */
  lemma {:induction false} AuditsAreCommits(db: Tables, calls: seq<Call>)
    requires Seeded(db)
    ensures |Run(db, calls).audits| == |Committed(db, calls)|
    ensures forall i :: 0 <= i < |Committed(db, calls)| ==> Run(db, calls).audits[i].id == Committed(db, calls)[i]
  {
    if calls != [] {
      var n := |calls| - 1;
      var before := Run(db, calls[..n]);
      AuditsAreCommits(db, calls[..n]);
      if Commits(before, calls[n]) {
        CommittedAudits(before, calls[n].txn);
        AppendedAudit(before.audits, Body(before, calls[n].txn).value.audits, Committed(db, calls[..n]),
          calls[n].txn.requestId);
      }
    }
  }

  /** No request id is committed twice, whatever the five kinds of transaction, and so none yields two payments. */
  lemma NoDoubleCommit(db: Tables, calls: seq<Call>, i: nat, j: nat)
    requires Seeded(db) && Named(calls)
    ensures i < j < |Committed(db, calls)| ==> Committed(db, calls)[i] != Committed(db, calls)[j]
    ensures i < j < |Run(db, calls).payments| ==>
      Run(db, calls).payments[i].requestId != Run(db, calls).payments[j].requestId
  {
    RunKeyed(db, calls);
    AuditsAreCommits(db, calls);
  }

  function PaymentId(t: Txn): Option<string> {
    match t
    case CheckIn(_, _, _, _, _, _, _, amount, _) => if amount > 0.0 then Some(t.requestId + "-checkin") else None
    case Extend(_, _, _, _, _, _, _, amount, _) => if amount > 0.0 then Some(t.requestId + "-extend") else None
    case Pay(_, _, _, _, _, _, _) => Some(t.requestId)
    case _ => None
  }

  /** A healthy transaction is refused only for an unknown room, a request id already committed, or a payment
      id another request's payment already has. */
  lemma CommitsExactlyWhen(db: Tables, t: Txn)
    requires Keyed(db)
    ensures Body(db, t).Ok? <==>
      && t.roomId in db.rooms
      && t.requestId !in AuditIds(db)
      && (forall p :: p in db.payments ==> Some(p.paymentId) != PaymentId(t))
  {
    if t.CheckIn? {
      assert (exists s | s in db.stays :: s.stayId == t.requestId) ==> t.requestId in AuditIds(db);
    }
    assert (exists a | a in db.audits :: a.id == t.requestId) <==> t.requestId in AuditIds(db);
  }

  /** A check-in of minus one is accepted and its stay's total is not the sum of its payments. */
  lemma NegativeAmountBreaks(db: Tables, roomId: string)
    requires Seeded(db) && roomId in db.rooms
    ensures var t := CheckIn("a", roomId, 0, "cashier", "overnight", "overnight", 720, -1.0, "");
      Commits(db, Call(t, true)) && !Conserved(WithTx(db, Call(t, true)))
  {
    var t := CheckIn("a", roomId, 0, "cashier", "overnight", "overnight", 720, -1.0, "");
    CommitsExactlyWhen(db, t);
    ConservationStep(db, t);
  }
}
