/** The group-by sheets of the workbooks (`reporting/exporter.go`): tables of totals by key. */
module GroupBy {
  import opened Calendar
  import opened Core
  import opened Database
  import opened StringOrder
  import Export

  datatype Totals = Totals(stays: int, payments: int, audits: int, amount: real, minutes: int)

  const ZERO := Totals(0, 0, 0, 0.0, 0)

  function Plus(a: Totals, b: Totals): Totals {
    Totals(a.stays + b.stays, a.payments + b.payments, a.audits + b.audits, a.amount + b.amount, a.minutes + b.minutes)
  }

  /** One input row: the key it is grouped under and what it adds there. */
  datatype Entry<K> = Entry(key: K, adds: Totals)

  function Sum<K>(entries: seq<Entry<K>>): Totals {
    if entries == [] then ZERO else Plus(Sum(entries[..|entries| - 1]), entries[|entries| - 1].adds)
  }

  /** What the entries of one key add up to. */
  function SumOf<K(==)>(entries: seq<Entry<K>>, key: K): Totals {
    if entries == [] then ZERO
    else
      var last := entries[|entries| - 1];
      if last.key == key then Plus(SumOf(entries[..|entries| - 1], key), last.adds)
      else SumOf(entries[..|entries| - 1], key)
  }

  /** The loop that fills the map; `keys` are its keys in the order they appeared. */
  method Group<K(==)>(entries: seq<Entry<K>>) returns (table: map<K, Totals>, keys: seq<K>)
    ensures Distinct(keys)
    ensures forall k :: k in keys <==> k in table
    ensures forall e :: e in entries ==> e.key in table
    ensures forall k :: k in table ==> table[k] == SumOf(entries, k)
    ensures forall k :: k in table ==> exists e :: e in entries && e.key == k
  {
    table, keys := map[], [];
    for i := 0 to |entries|
      invariant Distinct(keys)
      invariant forall k :: k in keys <==> k in table
      invariant forall e :: e in entries[..i] ==> e.key in table
      invariant forall k :: k in table ==> table[k] == SumOf(entries[..i], k)
      invariant forall k :: k !in table ==> SumOf(entries[..i], k) == ZERO
      invariant forall k :: k in table ==> exists e :: e in entries[..i] && e.key == k
    {
      var e := entries[i];
      assert entries[..i + 1] == entries[..i] + [e];
      assert entries[..i + 1][..i] == entries[..i];
      if e.key !in table {
        keys := keys + [e.key];
        table := table[e.key := ZERO];
      }
      table := table[e.key := Plus(table[e.key], e.adds)];
    }
    assert entries[..|entries|] == entries;
  }

  /** Sum of the rows of the sheet. */
  function RowsSum<K(==)>(entries: seq<Entry<K>>, keys: seq<K>): Totals {
    if keys == [] then ZERO else Plus(RowsSum(entries, keys[..|keys| - 1]), SumOf(entries, keys[|keys| - 1]))
  }

  lemma {:induction false} RowsSumNothing<K>(keys: seq<K>)
    ensures RowsSum<K>([], keys) == ZERO
  {
    if keys != [] {
      RowsSumNothing(keys[..|keys| - 1]);
    }
  }

  /** One more entry adds to the one row of its key. */
  lemma {:induction false} RowsSumAppend<K>(entries: seq<Entry<K>>, e: Entry<K>, keys: seq<K>)
    requires Distinct(keys)
    ensures RowsSum(entries + [e], keys) ==
      if e.key in keys then Plus(RowsSum(entries, keys), e.adds) else RowsSum(entries, keys)
  {
    if keys != [] {
      var n := |keys| - 1;
      RowsSumAppend(entries, e, keys[..n]);
      assert (entries + [e])[..|entries|] == entries;
      assert keys == keys[..n] + [keys[n]];
    }
  }

  /** The rows of a sheet add up to its whole input, in whatever order they are written. */
  lemma {:induction false} RowsAddUp<K>(entries: seq<Entry<K>>, keys: seq<K>)
    requires Distinct(keys) && forall e :: e in entries ==> e.key in keys
    ensures RowsSum(entries, keys) == Sum(entries)
  {
    if entries == [] {
      RowsSumNothing(keys);
    } else {
      var n := |entries| - 1;
      assert entries[n] in entries;
      RowsAddUp(entries[..n], keys);
      RowsSumAppend(entries[..n], entries[n], keys);
      assert entries == entries[..n] + [entries[n]];
    }
  }

  // ----- the four sheets -----

  function OrElse(name: string, missing: string): string {
    if name == "" then missing else name
  }

  /** The day of a stay: its first time that is set. A stored stay always has a guest-in time. */
  function StayDay(s: Stay, offset: int): int {
    LocalDay(s.guestIn, offset)
  }

  function StayDays(stays: seq<Stay>, offset: int): seq<Entry<int>> {
    if stays == [] then []
    else StayDays(stays[..|stays| - 1], offset) + [Entry(StayDay(stays[|stays| - 1], offset), Totals(1, 0, 0, 0.0, 0))]
  }

  function PaymentDays(payments: seq<Payment>, offset: int): seq<Entry<int>> {
    if payments == [] then []
    else
      var p := payments[|payments| - 1];
      PaymentDays(payments[..|payments| - 1], offset)
      + [Entry(LocalDay(p.paidAt, offset), Totals(0, 1, 0, p.amount, 0))]
  }

  function AuditDays(audits: seq<Audit>, offset: int): seq<Entry<int>> {
    if audits == [] then []
    else
      AuditDays(audits[..|audits| - 1], offset)
      + [Entry(LocalDay(audits[|audits| - 1].timestamp, offset), Totals(0, 0, 1, 0.0, 0))]
  }

  /** The three loops of the daily-summary sheet, one after the other. */
  function DayEntries(stays: seq<Stay>, payments: seq<Payment>, audits: seq<Audit>, offset: int): seq<Entry<int>> {
    StayDays(stays, offset) + PaymentDays(payments, offset) + AuditDays(audits, offset)
  }

  function StayModeEntries(stays: seq<Stay>): seq<Entry<string>> {
    if stays == [] then []
    else
      var s := stays[|stays| - 1];
      StayModeEntries(stays[..|stays| - 1])
      + [Entry(OrElse(s.stayMode, "unknown"), Totals(1, 0, 0, s.paymentAmount, 0))]
  }

  function MethodEntries(payments: seq<Payment>, missing: string): seq<Entry<string>> {
    if payments == [] then []
    else
      var p := payments[|payments| - 1];
      MethodEntries(payments[..|payments| - 1], missing)
      + [Entry(OrElse(p.paidBy, missing), Totals(0, 1, 0, p.amount, 0))]
  }

  function RoomEntries(stays: seq<Stay>, missing: string): seq<Entry<string>> {
    if stays == [] then []
    else
      var s := stays[|stays| - 1];
      RoomEntries(stays[..|stays| - 1], missing)
      + [Entry(OrElse(s.roomId, missing), Totals(1, 0, 0, s.paymentAmount, s.usedMinutes))]
  }

  function Taken(payments: seq<Payment>): real {
    if payments == [] then 0.0 else Taken(payments[..|payments| - 1]) + payments[|payments| - 1].amount
  }

  function Amounts(stays: seq<Stay>): real {
    if stays == [] then 0.0 else Amounts(stays[..|stays| - 1]) + stays[|stays| - 1].paymentAmount
  }

  function UsedMinutes(stays: seq<Stay>): int {
    if stays == [] then 0 else UsedMinutes(stays[..|stays| - 1]) + stays[|stays| - 1].usedMinutes
  }

  function StayTotals(stays: seq<Stay>): Totals {
    Totals(|stays|, 0, 0, Amounts(stays), UsedMinutes(stays))
  }

  lemma SumAppend<K>(entries: seq<Entry<K>>, e: Entry<K>)
    ensures Sum(entries + [e]) == Plus(Sum(entries), e.adds)
  {
    assert (entries + [e])[..|entries|] == entries;
  }

  lemma {:induction false} SumConcat<K>(a: seq<Entry<K>>, b: seq<Entry<K>>)
    ensures Sum(a + b) == Plus(Sum(a), Sum(b))
  {
    if b == [] {
      assert a + b == a;
    } else {
      var n := |b| - 1;
      SumConcat(a, b[..n]);
      SumAppend(a + b[..n], b[n]);
      assert a + b == (a + b[..n]) + [b[n]];
    }
  }

  lemma {:induction false} StayDaysSum(stays: seq<Stay>, offset: int)
    ensures Sum(StayDays(stays, offset)) == Totals(|stays|, 0, 0, 0.0, 0)
  {
    if stays != [] {
      var n := |stays| - 1;
      StayDaysSum(stays[..n], offset);
      SumAppend(StayDays(stays[..n], offset), Entry(StayDay(stays[n], offset), Totals(1, 0, 0, 0.0, 0)));
    }
  }

  lemma {:induction false} PaymentDaysSum(payments: seq<Payment>, offset: int)
    ensures Sum(PaymentDays(payments, offset)) == Totals(0, |payments|, 0, Taken(payments), 0)
  {
    if payments != [] {
      var n := |payments| - 1;
      PaymentDaysSum(payments[..n], offset);
      SumAppend(PaymentDays(payments[..n], offset),
        Entry(LocalDay(payments[n].paidAt, offset), Totals(0, 1, 0, payments[n].amount, 0)));
    }
  }

  lemma {:induction false} AuditDaysSum(audits: seq<Audit>, offset: int)
    ensures Sum(AuditDays(audits, offset)) == Totals(0, 0, |audits|, 0.0, 0)
  {
    if audits != [] {
      var n := |audits| - 1;
      AuditDaysSum(audits[..n], offset);
      SumAppend(AuditDays(audits[..n], offset), Entry(LocalDay(audits[n].timestamp, offset), Totals(0, 0, 1, 0.0, 0)));
    }
  }

  lemma DayEntriesSum(stays: seq<Stay>, payments: seq<Payment>, audits: seq<Audit>, offset: int)
    ensures Sum(DayEntries(stays, payments, audits, offset)) ==
      Totals(|stays|, |payments|, |audits|, Taken(payments), 0)
  {
    var a, b, c := StayDays(stays, offset), PaymentDays(payments, offset), AuditDays(audits, offset);
    SumConcat(a + b, c);
    SumConcat(a, b);
    StayDaysSum(stays, offset);
    PaymentDaysSum(payments, offset);
    AuditDaysSum(audits, offset);
  }

  /** The day rows count every stay, payment and audit entry exactly once, and their amounts make up the takings. */
  lemma DaySheetAddsUp(stays: seq<Stay>, payments: seq<Payment>, audits: seq<Audit>, offset: int, keys: seq<int>)
    requires Distinct(keys) && forall e :: e in DayEntries(stays, payments, audits, offset) ==> e.key in keys
    ensures RowsSum(DayEntries(stays, payments, audits, offset), keys) ==
      Totals(|stays|, |payments|, |audits|, Taken(payments), 0)
  {
    RowsAddUp(DayEntries(stays, payments, audits, offset), keys);
    DayEntriesSum(stays, payments, audits, offset);
  }

  lemma {:induction false} RoomEntriesSum(stays: seq<Stay>, missing: string)
    ensures Sum(RoomEntries(stays, missing)) == StayTotals(stays)
  {
    if stays != [] {
      var n := |stays| - 1;
      RoomEntriesSum(stays[..n], missing);
      SumAppend(RoomEntries(stays[..n], missing),
        Entry(OrElse(stays[n].roomId, missing), Totals(1, 0, 0, stays[n].paymentAmount, stays[n].usedMinutes)));
    }
  }

  /** The room rows add up to all stays, their minutes and their amounts. */
  lemma RoomSheetAddsUp(stays: seq<Stay>, missing: string, keys: seq<string>)
    requires Distinct(keys) && forall e :: e in RoomEntries(stays, missing) ==> e.key in keys
    ensures RowsSum(RoomEntries(stays, missing), keys) == StayTotals(stays)
  {
    RowsAddUp(RoomEntries(stays, missing), keys);
    RoomEntriesSum(stays, missing);
  }

  lemma {:induction false} MethodEntriesSum(payments: seq<Payment>, missing: string)
    ensures Sum(MethodEntries(payments, missing)) == Totals(0, |payments|, 0, Taken(payments), 0)
  {
    if payments != [] {
      var n := |payments| - 1;
      MethodEntriesSum(payments[..n], missing);
      SumAppend(MethodEntries(payments[..n], missing),
        Entry(OrElse(payments[n].paidBy, missing), Totals(0, 1, 0, payments[n].amount, 0)));
    }
  }

  /** The payment-method rows add up to all payments. */
  lemma MethodSheetAddsUp(payments: seq<Payment>, missing: string, keys: seq<string>)
    requires Distinct(keys) && forall e :: e in MethodEntries(payments, missing) ==> e.key in keys
    ensures RowsSum(MethodEntries(payments, missing), keys) == Totals(0, |payments|, 0, Taken(payments), 0)
  {
    RowsAddUp(MethodEntries(payments, missing), keys);
    MethodEntriesSum(payments, missing);
  }

  lemma {:induction false} StayModeEntriesSum(stays: seq<Stay>)
    ensures Sum(StayModeEntries(stays)) == StayTotals(stays).(minutes := 0)
  {
    if stays != [] {
      var n := |stays| - 1;
      StayModeEntriesSum(stays[..n]);
      SumAppend(StayModeEntries(stays[..n]),
        Entry(OrElse(stays[n].stayMode, "unknown"), Totals(1, 0, 0, stays[n].paymentAmount, 0)));
    }
  }

  /** The stay-mode rows add up to all stays and their amounts. */
  lemma StayModeSheetAddsUp(stays: seq<Stay>, keys: seq<string>)
    requires Distinct(keys) && forall e :: e in StayModeEntries(stays) ==> e.key in keys
    ensures RowsSum(StayModeEntries(stays), keys) == StayTotals(stays).(minutes := 0)
  {
    RowsAddUp(StayModeEntries(stays), keys);
    StayModeEntriesSum(stays);
  }

  // ----- what a row holds, told from the rows it is made of -----

  /** The rows that meet a condition, in order. */
  function Where<T>(rows: seq<T>, holds: T -> bool): seq<T> {
    if rows == [] then []
    else
      var last := rows[|rows| - 1];
      if holds(last) then Where(rows[..|rows| - 1], holds) + [last] else Where(rows[..|rows| - 1], holds)
  }

  /** This name, or none when `key` is the word for a missing one. */
  predicate Named(name: string, key: string, missing: string) {
    (name != "" && name == key) || (name == "" && key == missing)
  }

  function InRoom(key: string, missing: string): Stay -> bool {
    (s: Stay) => Named(s.roomId, key, missing)
  }

  function InMode(key: string): Stay -> bool {
    (s: Stay) => Named(s.stayMode, key, "unknown")
  }

  function ByMethod(key: string, missing: string): Payment -> bool {
    (p: Payment) => Named(p.paidBy, key, missing)
  }

  /** The day number of a second of UTC, on clocks `offset` ahead. */
  function CameOn(day: int, offset: int): Stay -> bool {
    (s: Stay) => LocalDay(s.guestIn, offset) == day
  }

  function PaidOn(day: int, offset: int): Payment -> bool {
    (p: Payment) => LocalDay(p.paidAt, offset) == day
  }

  function NotedOn(day: int, offset: int): Audit -> bool {
    (a: Audit) => LocalDay(a.timestamp, offset) == day
  }

  ghost predicate Any<T(!new)>(rows: seq<T>, holds: T -> bool) {
    exists r :: r in rows && holds(r)
  }

  ghost predicate Occurs<K(!new)>(entries: seq<Entry<K>>, key: K) {
    exists e :: e in entries && e.key == key
  }

  lemma AnyAppend<T(!new)>(rows: seq<T>, holds: T -> bool)
    requires rows != []
    ensures Any(rows, holds) <==> Any(rows[..|rows| - 1], holds) || holds(rows[|rows| - 1])
  {
    assert rows == rows[..|rows| - 1] + [rows[|rows| - 1]];
  }

  lemma OccursAppend<K(!new)>(entries: seq<Entry<K>>, e: Entry<K>, key: K)
    ensures Occurs(entries + [e], key) <==> Occurs(entries, key) || e.key == key
    ensures SumOf(entries + [e], key) ==
      if e.key == key then Plus(SumOf(entries, key), e.adds) else SumOf(entries, key)
  {
    SumOfAppend(entries, e, key);
    assert e in entries + [e];
  }

  lemma {:induction false} RoomRow(stays: seq<Stay>, missing: string, key: string)
    ensures Occurs(RoomEntries(stays, missing), key) <==> Any(stays, InRoom(key, missing))
    ensures var own := Where(stays, InRoom(key, missing));
      SumOf(RoomEntries(stays, missing), key) == Totals(|own|, 0, 0, Amounts(own), UsedMinutes(own))
  {
    if stays != [] {
      var n := |stays| - 1;
      RoomRow(stays[..n], missing, key);
      AnyAppend(stays, InRoom(key, missing));
      OccursAppend(RoomEntries(stays[..n], missing),
        Entry(OrElse(stays[n].roomId, missing), Totals(1, 0, 0, stays[n].paymentAmount, stays[n].usedMinutes)), key);
    }
  }

  lemma {:induction false} StayModeRow(stays: seq<Stay>, key: string)
    ensures Occurs(StayModeEntries(stays), key) <==> Any(stays, InMode(key))
    ensures var own := Where(stays, InMode(key));
      SumOf(StayModeEntries(stays), key) == Totals(|own|, 0, 0, Amounts(own), 0)
  {
    if stays != [] {
      var n := |stays| - 1;
      StayModeRow(stays[..n], key);
      AnyAppend(stays, InMode(key));
      OccursAppend(StayModeEntries(stays[..n]),
        Entry(OrElse(stays[n].stayMode, "unknown"), Totals(1, 0, 0, stays[n].paymentAmount, 0)), key);
    }
  }

  lemma {:induction false} MethodRow(payments: seq<Payment>, missing: string, key: string)
    ensures Occurs(MethodEntries(payments, missing), key) <==> Any(payments, ByMethod(key, missing))
    ensures var own := Where(payments, ByMethod(key, missing));
      SumOf(MethodEntries(payments, missing), key) == Totals(0, |own|, 0, Taken(own), 0)
  {
    if payments != [] {
      var n := |payments| - 1;
      MethodRow(payments[..n], missing, key);
      AnyAppend(payments, ByMethod(key, missing));
      OccursAppend(MethodEntries(payments[..n], missing),
        Entry(OrElse(payments[n].paidBy, missing), Totals(0, 1, 0, payments[n].amount, 0)), key);
    }
  }

  lemma {:induction false} StayDayRow(stays: seq<Stay>, offset: int, day: int)
    ensures Occurs(StayDays(stays, offset), day) <==> Any(stays, CameOn(day, offset))
    ensures SumOf(StayDays(stays, offset), day) == Totals(|Where(stays, CameOn(day, offset))|, 0, 0, 0.0, 0)
  {
    if stays != [] {
      var n := |stays| - 1;
      StayDayRow(stays[..n], offset, day);
      AnyAppend(stays, CameOn(day, offset));
      OccursAppend(StayDays(stays[..n], offset), Entry(StayDay(stays[n], offset), Totals(1, 0, 0, 0.0, 0)), day);
    }
  }

  lemma {:induction false} PaymentDayRow(payments: seq<Payment>, offset: int, day: int)
    ensures Occurs(PaymentDays(payments, offset), day) <==> Any(payments, PaidOn(day, offset))
    ensures var own := Where(payments, PaidOn(day, offset));
      SumOf(PaymentDays(payments, offset), day) == Totals(0, |own|, 0, Taken(own), 0)
  {
    if payments != [] {
      var n := |payments| - 1;
      PaymentDayRow(payments[..n], offset, day);
      AnyAppend(payments, PaidOn(day, offset));
      OccursAppend(PaymentDays(payments[..n], offset),
        Entry(LocalDay(payments[n].paidAt, offset), Totals(0, 1, 0, payments[n].amount, 0)), day);
    }
  }

  lemma {:induction false} AuditDayRow(audits: seq<Audit>, offset: int, day: int)
    ensures Occurs(AuditDays(audits, offset), day) <==> Any(audits, NotedOn(day, offset))
    ensures SumOf(AuditDays(audits, offset), day) == Totals(0, 0, |Where(audits, NotedOn(day, offset))|, 0.0, 0)
  {
    if audits != [] {
      var n := |audits| - 1;
      AuditDayRow(audits[..n], offset, day);
      AnyAppend(audits, NotedOn(day, offset));
      OccursAppend(AuditDays(audits[..n], offset),
        Entry(LocalDay(audits[n].timestamp, offset), Totals(0, 0, 1, 0.0, 0)), day);
    }
  }

  lemma SumOfAppend<K>(entries: seq<Entry<K>>, e: Entry<K>, key: K)
    ensures SumOf(entries + [e], key) ==
      if e.key == key then Plus(SumOf(entries, key), e.adds) else SumOf(entries, key)
  {
    assert (entries + [e])[..|entries|] == entries;
  }

  lemma PlusAssociates(a: Totals, b: Totals, c: Totals)
    ensures Plus(Plus(a, b), c) == Plus(a, Plus(b, c))
  {
  }

  /** The sums of two lists are those of the two together. */
  predicate Splits<K(==)>(a: seq<Entry<K>>, b: seq<Entry<K>>, key: K) {
    SumOf(a + b, key) == Plus(SumOf(a, key), SumOf(b, key))
  }

  lemma SplitsNothing<K>(a: seq<Entry<K>>, key: K)
    ensures Splits(a, [], key)
  {
    assert a + [] == a;
  }

  lemma SplitsStep<K>(a: seq<Entry<K>>, b: seq<Entry<K>>, e: Entry<K>, key: K)
    requires Splits(a, b, key)
    ensures Splits(a, b + [e], key)
  {
    SumOfAppend(a + b, e, key);
    SumOfAppend(b, e, key);
    PlusAssociates(SumOf(a, key), SumOf(b, key), e.adds);
    assert (a + b) + [e] == a + (b + [e]);
  }

  lemma {:induction false} SumsSplit<K>(a: seq<Entry<K>>, b: seq<Entry<K>>, key: K)
    ensures Splits(a, b, key)
  {
    if b == [] {
      SplitsNothing(a, key);
    } else {
      var n := |b| - 1;
      SumsSplit(a, b[..n], key);
      SplitsStep(a, b[..n], b[n], key);
      assert b[..n] + [b[n]] == b;
    }
  }

  /** The stays that came on the day, the payments made and the entries noted on it, and what was paid. */
  function DayTotals(stays: seq<Stay>, payments: seq<Payment>, audits: seq<Audit>, offset: int, day: int): Totals {
    var paid := Where(payments, PaidOn(day, offset));
    Totals(|Where(stays, CameOn(day, offset))|, |paid|, |Where(audits, NotedOn(day, offset))|, Taken(paid), 0)
  }

  lemma PartSums(a: seq<Entry<int>>, b: seq<Entry<int>>, c: seq<Entry<int>>, day: int)
    ensures SumOf(a + b + c, day) == Plus(Plus(SumOf(a, day), SumOf(b, day)), SumOf(c, day))
  {
    SumsSplit(a + b, c, day);
    SumsSplit(a, b, day);
  }

  lemma PlusParts(stays: int, payments: int, audits: int, paid: real)
    ensures Plus(Plus(Totals(stays, 0, 0, 0.0, 0), Totals(0, payments, 0, paid, 0)), Totals(0, 0, audits, 0.0, 0)) ==
      Totals(stays, payments, audits, paid, 0)
  {
  }

  lemma PartKeys(a: seq<Entry<int>>, b: seq<Entry<int>>, c: seq<Entry<int>>, day: int)
    ensures Occurs(a + b + c, day) <==> Occurs(a, day) || Occurs(b, day) || Occurs(c, day)
  {
    OccursConcat(a + b, c, day);
    OccursConcat(a, b, day);
  }

  lemma OccursConcat<K(!new)>(a: seq<Entry<K>>, b: seq<Entry<K>>, key: K)
    ensures Occurs(a + b, key) <==> Occurs(a, key) || Occurs(b, key)
  {
    forall e ensures e in a + b <==> e in a || e in b {
    }
  }

  lemma DayRow(stays: seq<Stay>, payments: seq<Payment>, audits: seq<Audit>, offset: int, day: int)
    ensures SumOf(DayEntries(stays, payments, audits, offset), day) == DayTotals(stays, payments, audits, offset, day)
  {
    StayDayRow(stays, offset, day);
    PaymentDayRow(payments, offset, day);
    AuditDayRow(audits, offset, day);
    var t := DayTotals(stays, payments, audits, offset, day);
    PartSums(StayDays(stays, offset), PaymentDays(payments, offset), AuditDays(audits, offset), day);
    PlusParts(t.stays, t.payments, t.audits, t.amount);
  }

  lemma DayOccurs(stays: seq<Stay>, payments: seq<Payment>, audits: seq<Audit>, offset: int, day: int)
    ensures Occurs(DayEntries(stays, payments, audits, offset), day) <==>
      Any(stays, CameOn(day, offset)) || Any(payments, PaidOn(day, offset)) || Any(audits, NotedOn(day, offset))
  {
    PartKeys(StayDays(stays, offset), PaymentDays(payments, offset), AuditDays(audits, offset), day);
    StayDayRow(stays, offset, day);
    PaymentDayRow(payments, offset, day);
    AuditDayRow(audits, offset, day);
  }

  // ----- the three sheets in the order of their keys -----

  /** Sum of the rows of a sheet. */
  function SheetSum<K(==)>(table: map<K, Totals>, keys: seq<K>): Totals
    requires forall k :: k in keys ==> k in table
  {
    if keys == [] then ZERO else Plus(SheetSum(table, keys[..|keys| - 1]), table[keys[|keys| - 1]])
  }

  lemma {:induction false} SheetSumIs<K>(entries: seq<Entry<K>>, table: map<K, Totals>, keys: seq<K>)
    requires forall k :: k in keys ==> k in table && table[k] == SumOf(entries, k)
    ensures SheetSum(table, keys) == RowsSum(entries, keys)
  {
    if keys != [] {
      var n := |keys| - 1;
      assert keys[n] in keys;
      SheetSumIs(entries, table, keys[..n]);
    }
  }

  /** sort.Strings over the keys of a map. */
  method SortNames(keys: seq<string>) returns (sorted: seq<string>)
    requires Distinct(keys)
    ensures Sorted(sorted) && Distinct(sorted) && forall k :: k in sorted <==> k in keys
  {
    sorted := [];
    for i := 0 to |keys|
      invariant Sorted(sorted) && forall k :: k in sorted <==> k in keys[..i]
    {
      assert keys[..i + 1] == keys[..i] + [keys[i]];
      InsertStringSorts(sorted, keys[i]);
      sorted := InsertString(sorted, keys[i]);
    }
    assert keys[..|keys|] == keys;
    SortedIsDistinct(sorted);
  }

  lemma SortedIsDistinct(names: seq<string>)
    requires Sorted(names)
    ensures Distinct(names)
  {
    forall i, j | 0 <= i < j < |names| ensures names[i] != names[j] {
      Trichotomy(names[i], names[j]);
    }
  }

  /** writeMonthlyDailySummarySheet: a row for every day with a stay, a payment or an entry, in the order of days. */
  method DaySheet(stays: seq<Stay>, payments: seq<Payment>, audits: seq<Audit>, offset: int)
    returns (table: map<int, Totals>, days: seq<int>)
    ensures Export.Ascending(days) && forall day :: day in days <==> day in table
    ensures forall day :: day in table <==>
      Any(stays, CameOn(day, offset)) || Any(payments, PaidOn(day, offset)) || Any(audits, NotedOn(day, offset))
    ensures forall day :: day in table ==> table[day] == DayTotals(stays, payments, audits, offset, day)
    ensures SheetSum(table, days) == Totals(|stays|, |payments|, |audits|, Taken(payments), 0)
  {
    var entries := DayEntries(stays, payments, audits, offset);
    var keys;
    table, keys := Group(entries);
    days := Export.SortKeys(keys);
    AscendingIsDistinct(days);
    forall day ensures day in days <==> day in table {
      assert day in days <==> day in keys;
    }
    GroupsAddUp(entries, table, days);
    DayEntriesSum(stays, payments, audits, offset);
    forall day
      ensures day in table <==>
        Any(stays, CameOn(day, offset)) || Any(payments, PaidOn(day, offset)) || Any(audits, NotedOn(day, offset))
    {
      DayRowIn(stays, payments, audits, offset, table, day);
    }
    forall day | day in table ensures table[day] == DayTotals(stays, payments, audits, offset, day) {
      DayRowIn(stays, payments, audits, offset, table, day);
    }
  }

  lemma AscendingIsDistinct(days: seq<int>)
    requires Export.Ascending(days)
    ensures Distinct(days)
  {
  }

  /** A table that groups these entries. */
  ghost predicate Groups<K(!new)>(entries: seq<Entry<K>>, table: map<K, Totals>) {
    && (forall k :: k in table <==> Occurs(entries, k))
    && (forall k :: k in table ==> table[k] == SumOf(entries, k))
  }

  /** The rows of a table that groups entries, in whatever order, add up to the entries. */
  lemma GroupsAddUp<K(!new)>(entries: seq<Entry<K>>, table: map<K, Totals>, keys: seq<K>)
    requires Groups(entries, table) && Distinct(keys) && forall k :: k in keys <==> k in table
    ensures SheetSum(table, keys) == Sum(entries)
  {
    forall e | e in entries ensures e.key in keys {
      assert Occurs(entries, e.key);
    }
    SheetSumIs(entries, table, keys);
    RowsAddUp(entries, keys);
  }

  lemma DayRowIn(stays: seq<Stay>, payments: seq<Payment>, audits: seq<Audit>, offset: int, table: map<int, Totals>,
                 day: int)
    requires Groups(DayEntries(stays, payments, audits, offset), table)
    ensures day in table <==>
      Any(stays, CameOn(day, offset)) || Any(payments, PaidOn(day, offset)) || Any(audits, NotedOn(day, offset))
    ensures day in table ==> table[day] == DayTotals(stays, payments, audits, offset, day)
  {
    DayRow(stays, payments, audits, offset, day);
    DayOccurs(stays, payments, audits, offset, day);
  }

  /** writeMonthlyStayModeSheet: a row for every stay mode of the stays, in the order of their names. */
  method StayModeSheet(stays: seq<Stay>) returns (table: map<string, Totals>, modes: seq<string>)
    ensures Sorted(modes) && forall k :: k in modes <==> k in table
    ensures forall k :: k in table <==> Any(stays, InMode(k))
    ensures forall k :: k in table ==>
      var own := Where(stays, InMode(k)); table[k] == Totals(|own|, 0, 0, Amounts(own), 0)
    ensures SheetSum(table, modes) == StayTotals(stays).(minutes := 0)
  {
    var keys;
    table, keys := Group(StayModeEntries(stays));
    modes := SortNames(keys);
    GroupsAddUp(StayModeEntries(stays), table, modes);
    StayModeEntriesSum(stays);
    forall k ensures k in table <==> Any(stays, InMode(k)) {
      StayModeRow(stays, k);
      assert k in table <==> Occurs(StayModeEntries(stays), k);
    }
    forall k | k in table ensures var own := Where(stays, InMode(k)); table[k] == Totals(|own|, 0, 0, Amounts(own), 0) {
      StayModeRow(stays, k);
    }
  }

  /** writePaymentMethodSheet: a row for every method of the payments, in the order of their names. */
  method MethodSheet(payments: seq<Payment>, missing: string)
    returns (table: map<string, Totals>, methods: seq<string>)
    ensures Sorted(methods) && forall k :: k in methods <==> k in table
    ensures forall k :: k in table <==> Any(payments, ByMethod(k, missing))
    ensures forall k :: k in table ==>
      var own := Where(payments, ByMethod(k, missing)); table[k] == Totals(0, |own|, 0, Taken(own), 0)
    ensures SheetSum(table, methods) == Totals(0, |payments|, 0, Taken(payments), 0)
  {
    var keys;
    table, keys := Group(MethodEntries(payments, missing));
    methods := SortNames(keys);
    GroupsAddUp(MethodEntries(payments, missing), table, methods);
    MethodEntriesSum(payments, missing);
    forall k ensures k in table <==> Any(payments, ByMethod(k, missing)) {
      MethodRow(payments, missing, k);
      assert k in table <==> Occurs(MethodEntries(payments, missing), k);
    }
    forall k | k in table
      ensures var own := Where(payments, ByMethod(k, missing)); table[k] == Totals(0, |own|, 0, Taken(own), 0) {
      MethodRow(payments, missing, k);
    }
  }

  // ----- the order of the top-rooms sheet -----

  /** More stays first, then the smaller id. */
  predicate Above(table: map<string, Totals>, a: string, b: string)
    requires a in table && b in table
  {
    if table[a].stays == table[b].stays then Less(a, b) else table[a].stays > table[b].stays
  }

  predicate Ranked(table: map<string, Totals>, keys: seq<string>)
    requires forall k :: k in keys ==> k in table
  {
    forall i, j :: 0 <= i < j < |keys| ==> Above(table, keys[i], keys[j])
  }

  lemma AboveOrder(table: map<string, Totals>, a: string, b: string, c: string)
    requires a in table && b in table && c in table
    ensures a == b || Above(table, a, b) || Above(table, b, a)
    ensures Above(table, a, b) && Above(table, b, c) ==> Above(table, a, c)
  {
    Trichotomy(a, b);
    if Less(a, b) && Less(b, c) {
      Transitive(a, b, c);
    }
  }

  function InsertRanked(table: map<string, Totals>, ranked: seq<string>, key: string): (r: seq<string>)
    requires key in table && forall k :: k in ranked ==> k in table
    ensures forall k :: k in r <==> k in ranked || k == key
    ensures |r| == |ranked| + 1
  {
    if ranked == [] || Above(table, ranked[|ranked| - 1], key) then ranked + [key]
    else
      var n := |ranked| - 1;
      assert ranked == ranked[..n] + [ranked[n]];
      InsertRanked(table, ranked[..n], key) + [ranked[n]]
  }

  lemma {:induction false} InsertKeepsRank(table: map<string, Totals>, ranked: seq<string>, key: string)
    requires key in table && key !in ranked && (forall k :: k in ranked ==> k in table) && Ranked(table, ranked)
    ensures Ranked(table, InsertRanked(table, ranked, key))
  {
    if ranked != [] {
      var n := |ranked| - 1;
      assert ranked == ranked[..n] + [ranked[n]];
      AboveOrder(table, ranked[n], key, key);
      if Above(table, ranked[n], key) {
        forall i | 0 <= i < n ensures Above(table, ranked[i], key) {
          AboveOrder(table, ranked[i], ranked[n], key);
        }
      } else {
        InsertKeepsRank(table, ranked[..n], key);
        var shorter := InsertRanked(table, ranked[..n], key);
        forall i | 0 <= i < |shorter| ensures Above(table, shorter[i], ranked[n]) {
          assert shorter[i] in shorter;
        }
      }
    }
  }

  lemma RankedIsDistinct(table: map<string, Totals>, keys: seq<string>)
    requires (forall k :: k in keys ==> k in table) && Ranked(table, keys)
    ensures Distinct(keys)
  {
    forall i, j | 0 <= i < j < |keys| ensures keys[i] != keys[j] {
      assert Above(table, keys[i], keys[j]);
      Trichotomy(keys[i], keys[j]);
    }
  }

  /** sort.Slice over the keys of the map, most stays first. */
  method Rank(table: map<string, Totals>, keys: seq<string>) returns (ranked: seq<string>)
    requires Distinct(keys) && forall k :: k in keys <==> k in table
    ensures Distinct(ranked) && forall k :: k in ranked <==> k in table
    ensures Ranked(table, ranked)
  {
    ranked := [];
    for i := 0 to |keys|
      invariant forall k :: k in ranked <==> k in keys[..i]
      invariant Ranked(table, ranked)
    {
      assert keys[..i + 1] == keys[..i] + [keys[i]];
      InsertKeepsRank(table, ranked, keys[i]);
      ranked := InsertRanked(table, ranked, keys[i]);
    }
    assert keys[..|keys|] == keys;
    RankedIsDistinct(table, ranked);
  }

  lemma RoomTable(stays: seq<Stay>, missing: string, table: map<string, Totals>)
    requires Groups(RoomEntries(stays, missing), table)
    ensures forall k :: k in table <==> Any(stays, InRoom(k, missing))
    ensures forall k :: k in table ==>
      var own := Where(stays, InRoom(k, missing)); table[k] == Totals(|own|, 0, 0, Amounts(own), UsedMinutes(own))
  {
    forall k
      ensures k in table <==> Any(stays, InRoom(k, missing))
      ensures k in table ==>
        var own := Where(stays, InRoom(k, missing)); table[k] == Totals(|own|, 0, 0, Amounts(own), UsedMinutes(own))
    {
      RoomRow(stays, missing, k);
    }
  }

  /** writeTopRoomsSheet: the rooms of the stays and no others, each once, most stays first, each with the count, the
      amounts and the minutes of its own stays; the rows add up to all stays. */
  method TopRooms(stays: seq<Stay>, missing: string) returns (table: map<string, Totals>, ranked: seq<string>)
    ensures Distinct(ranked) && forall k :: k in ranked <==> k in table
    ensures forall i, j :: 0 <= i < j < |ranked| ==>
      var a, b := table[ranked[i]].stays, table[ranked[j]].stays; a > b || (a == b && Less(ranked[i], ranked[j]))
    ensures forall k :: k in table <==> Any(stays, InRoom(k, missing))
    ensures forall k :: k in table ==>
      var own := Where(stays, InRoom(k, missing)); table[k] == Totals(|own|, 0, 0, Amounts(own), UsedMinutes(own))
    ensures SheetSum(table, ranked) == StayTotals(stays)
  {
    var keys;
    table, keys := Group(RoomEntries(stays, missing));
    ranked := Rank(table, keys);
    assert forall i, j :: 0 <= i < j < |ranked| ==> Above(table, ranked[i], ranked[j]);
    GroupsAddUp(RoomEntries(stays, missing), table, ranked);
    RoomEntriesSum(stays, missing);
    RoomTable(stays, missing, table);
  }
}
