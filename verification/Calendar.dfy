/** Local days and months of a fixed-offset zone, in the proleptic Gregorian calendar. A day is its number since
    1 January of year 1; a month is 12 * year + month - 1. Two dates print alike as "2006-01-02" exactly when their
    day numbers are equal, and as "2006-01" exactly when their months are. */
module Calendar {
  const DAY_SECONDS := 86400

  predicate Leap(year: int) {
    year % 4 == 0 && (year % 100 != 0 || year % 400 == 0)
  }

  function MonthDays(month: int): (n: int)
    ensures 28 <= n <= 31
  {
    var m := month % 12;
    if m == 1 then (if Leap(month / 12) then 29 else 28)
    else if m == 3 || m == 5 || m == 8 || m == 10 then 30
    else 31
  }

  const EPOCH_MONTH := 12

  /** First day of the month, counted month by month from January of year 1. */
  function MonthStart(month: int): int
    decreases if month < EPOCH_MONTH then EPOCH_MONTH - month else month - EPOCH_MONTH
  {
    if month == EPOCH_MONTH then 0
    else if month > EPOCH_MONTH then MonthStart(month - 1) + MonthDays(month - 1)
    else MonthStart(month + 1) - MonthDays(month)
  }

  /** A month ends where the next one starts. */
  lemma MonthLength(month: int)
    ensures MonthStart(month + 1) == MonthStart(month) + MonthDays(month)
  {
  }

  // ----- the calendar against its closed form -----

  /** Days before 1 January, by the leap-year rule. */
  function DaysBeforeYear(year: int): int {
    365 * (year - 1) + (year - 1) / 4 - (year - 1) / 100 + (year - 1) / 400
  }

  lemma Quotients(a: int)
    ensures a / 4 - (a - 1) / 4 == if a % 4 == 0 then 1 else 0
    ensures a / 100 - (a - 1) / 100 == if a % 100 == 0 then 1 else 0
    ensures a / 400 - (a - 1) / 400 == if a % 400 == 0 then 1 else 0
  {
  }

  lemma HundredsAndFours(year: int)
    ensures year % 400 == 0 ==> year % 100 == 0
    ensures year % 100 == 0 ==> year % 4 == 0
  {
  }

  lemma YearLength(year: int)
    ensures DaysBeforeYear(year + 1) - DaysBeforeYear(year) == if Leap(year) then 366 else 365
  {
    Quotients(year);
    HundredsAndFours(year);
  }

  lemma MonthOfYear(year: int, m: int)
    requires 0 <= m < 12
    ensures (12 * year + m) / 12 == year && (12 * year + m) % 12 == m
  {
  }

  lemma MonthStep(year: int, m: int)
    requires 0 <= m < 12
    ensures MonthStart(12 * year + m + 1) - MonthStart(12 * year + m) ==
      if m == 1 then (if Leap(year) then 29 else 28) else if m == 3 || m == 5 || m == 8 || m == 10 then 30 else 31
  {
    MonthOfYear(year, m);
    MonthLength(12 * year + m);
  }

  lemma TwelveMonths(year: int)
    ensures MonthStart(12 * year + 12) - MonthStart(12 * year) == if Leap(year) then 366 else 365
  {
    FirstHalf(year);
    SecondHalf(year);
  }

  lemma FirstHalf(year: int)
    ensures MonthStart(12 * year + 6) - MonthStart(12 * year) == if Leap(year) then 182 else 181
  {
    MonthStep(year, 0);
    MonthStep(year, 1);
    MonthStep(year, 2);
    MonthStep(year, 3);
    MonthStep(year, 4);
    MonthStep(year, 5);
  }

  lemma SecondHalf(year: int)
    ensures MonthStart(12 * year + 12) - MonthStart(12 * year + 6) == 184
  {
    MonthStep(year, 6);
    MonthStep(year, 7);
    MonthStep(year, 8);
    MonthStep(year, 9);
    MonthStep(year, 10);
    MonthStep(year, 11);
  }

  /** Counting month by month reaches each new year where the leap-year rule puts it. */
  lemma {:induction false} YearsAgree(year: int)
    ensures MonthStart(12 * year) == DaysBeforeYear(year)
    decreases if year < 1 then 1 - year else year - 1
  {
    if year > 1 {
      YearsAgree(year - 1);
      TwelveMonths(year - 1);
      YearLength(year - 1);
    } else if year < 1 {
      YearsAgree(year + 1);
      TwelveMonths(year);
      YearLength(year);
    }
  }

  lemma {:induction false} MonthsAscend(a: int, b: int)
    requires a <= b
    ensures MonthStart(a) + 28 * (b - a) <= MonthStart(b)
    decreases b - a
  {
    if a < b {
      MonthsAscend(a, b - 1);
      MonthLength(b - 1);
    }
  }

  predicate InMonth(day: int, month: int) {
    MonthStart(month) <= day < MonthStart(month + 1)
  }

  /** The month of a day, looked for from `month` outwards. */
  function MonthFrom(day: int, month: int): (m: int)
    ensures InMonth(day, m)
    decreases if day < MonthStart(month) then MonthStart(month) - day else day - MonthStart(month)
  {
    MonthLength(month);
    MonthLength(month - 1);
    if day < MonthStart(month - 1) then MonthFrom(day, month - 1)
    else if day < MonthStart(month) then month - 1
    else if day >= MonthStart(month + 1) then MonthFrom(day, month + 1)
    else month
  }

  function MonthOf(day: int): (m: int)
    ensures InMonth(day, m)
  {
    MonthFrom(day, 0)
  }

  lemma MonthIsUnique(day: int, month: int)
    ensures InMonth(day, month) <==> MonthOf(day) == month
  {
    var m := MonthOf(day);
    if m < month {
      MonthsAscend(m + 1, month);
    } else if month < m {
      MonthsAscend(month + 1, m);
    }
  }

  /** Months follow days. */
  lemma MonthOfIsMonotone(a: int, b: int)
    requires a <= b
    ensures MonthOf(a) <= MonthOf(b)
  {
    var m, n := MonthOf(a), MonthOf(b);
    if n < m {
      MonthsAscend(n + 1, m);
      assert false;
    }
  }

  /** The local day of a second of UTC. */
  function LocalDay(at: int, offset: int): int {
    (at + offset) / DAY_SECONDS
  }

  function LocalMonth(at: int, offset: int): int {
    MonthOf(LocalDay(at, offset))
  }

  /** A local day is 24 hours that begin at local midnight. */
  lemma DayIs24Hours(at: int, offset: int, day: int)
    ensures LocalDay(at, offset) == day <==> day * 24 * 3600 <= at + offset < (day + 1) * 24 * 3600
  {
  }

  lemma DaysAscend(a: int, b: int, offset: int)
    requires a <= b
    ensures LocalDay(a, offset) <= LocalDay(b, offset)
  {
  }
}

/** The day and month lists of the reports (`store/store.go`): what a month's report holds against its days'. */
module ReportLists {
  import opened Calendar
  import opened Core
  import opened Database

  /** A row with the time it is listed by: a payment with paid_at, an audit row with event_time. */
  datatype Timed<T> = Timed(at: int, row: T)

  /** listPaymentsByDate, listAuditByDate */
  function OnDay<T>(rows: seq<Timed<T>>, day: int, offset: int): seq<Timed<T>> {
    if rows == [] then []
    else
      var last := rows[|rows| - 1];
      OnDay(rows[..|rows| - 1], day, offset) + if LocalDay(last.at, offset) == day then [last] else []
  }

  /** listPaymentsByMonth, listAuditByMonth */
  function OfMonth<T>(rows: seq<Timed<T>>, month: int, offset: int): seq<Timed<T>> {
    if rows == [] then []
    else
      var last := rows[|rows| - 1];
      OfMonth(rows[..|rows| - 1], month, offset) + if LocalMonth(last.at, offset) == month then [last] else []
  }

  /** The loop of the day queries over the ordered rows. */
  method ListOnDay<T>(rows: seq<Timed<T>>, day: int, offset: int) returns (items: seq<Timed<T>>)
    ensures items == OnDay(rows, day, offset)
  {
    items := [];
    for i := 0 to |rows|
      invariant items == OnDay(rows[..i], day, offset)
    {
      assert rows[..i + 1][..i] == rows[..i];
      if LocalDay(rows[i].at, offset) == day {
        items := items + [rows[i]];
      }
    }
    assert rows[..|rows|] == rows;
  }

  /** The loop of the month queries. */
  method ListOfMonth<T>(rows: seq<Timed<T>>, month: int, offset: int) returns (result: seq<Timed<T>>)
    ensures result == OfMonth(rows, month, offset)
  {
    result := [];
    for i := 0 to |rows|
      invariant result == OfMonth(rows[..i], month, offset)
    {
      assert rows[..i + 1][..i] == rows[..i];
      if LocalMonth(rows[i].at, offset) == month {
        result := result + [rows[i]];
      }
    }
    assert rows[..|rows|] == rows;
  }

  /** The lists of the days `from` up to, not including, `until`, one after the other. */
  function DaysTogether<T>(rows: seq<Timed<T>>, from: int, until: int, offset: int): seq<Timed<T>>
    requires from <= until
    decreases until - from
  {
    if from == until then [] else DaysTogether(rows, from, until - 1, offset) + OnDay(rows, until - 1, offset)
  }

  /** Rows come ordered by time. */
  ghost predicate ByTime<T>(rows: seq<Timed<T>>) {
    forall i, j :: 0 <= i < j < |rows| ==> rows[i].at <= rows[j].at
  }

  lemma {:induction false} LateDaysAreEmpty<T>(rows: seq<Timed<T>>, day: int, offset: int)
    requires forall r :: r in rows ==> LocalDay(r.at, offset) < day
    ensures OnDay(rows, day, offset) == []
  {
    if rows != [] {
      assert rows[|rows| - 1] in rows;
      LateDaysAreEmpty(rows[..|rows| - 1], day, offset);
    }
  }

  lemma OnDayAppend<T>(rows: seq<Timed<T>>, last: Timed<T>, day: int, offset: int)
    ensures OnDay(rows + [last], day, offset) == OnDay(rows, day, offset)
      + if LocalDay(last.at, offset) == day then [last] else []
  {
    assert (rows + [last])[..|rows|] == rows;
  }

  /** One more row, on a day no earlier than any before it, goes to the end of the days together. */
  lemma {:induction false} DaysTogetherAppend<T>(rows: seq<Timed<T>>, last: Timed<T>, from: int, until: int,
                                                 offset: int)
    requires from <= until
    requires forall r :: r in rows ==> LocalDay(r.at, offset) <= LocalDay(last.at, offset)
    ensures DaysTogether(rows + [last], from, until, offset) ==
      DaysTogether(rows, from, until, offset) + if from <= LocalDay(last.at, offset) < until then [last] else []
    decreases until - from
  {
    if from < until {
      var d := LocalDay(last.at, offset);
      DaysTogetherAppend(rows, last, from, until - 1, offset);
      OnDayAppend(rows, last, until - 1, offset);
      var days, final := DaysTogether(rows, from, until - 1, offset), OnDay(rows, until - 1, offset);
      if d < until - 1 {
        LateDaysAreEmpty(rows, until - 1, offset);
        assert final == [];
      }
      LastOfTwo(days, final, last, from <= d < until - 1, d == until - 1);
    }
  }

  lemma LastOfTwo<T>(a: seq<T>, b: seq<T>, last: T, inFirst: bool, inSecond: bool)
    requires inFirst ==> b == [] && !inSecond
    ensures (a + if inFirst then [last] else []) + (b + if inSecond then [last] else [])
         == (a + b) + if inFirst || inSecond then [last] else []
  {
  }

  lemma {:induction false} NoDaysNoRows<T>(from: int, until: int, offset: int)
    requires from <= until
    ensures DaysTogether<T>([], from, until, offset) == []
    decreases until - from
  {
    if from < until {
      NoDaysNoRows<T>(from, until - 1, offset);
    }
  }

  lemma EarlierDays<T>(rows: seq<Timed<T>>, offset: int)
    requires ByTime(rows) && rows != []
    ensures forall r :: r in rows[..|rows| - 1] ==> LocalDay(r.at, offset) <= LocalDay(rows[|rows| - 1].at, offset)
  {
    forall r | r in rows[..|rows| - 1] ensures LocalDay(r.at, offset) <= LocalDay(rows[|rows| - 1].at, offset) {
      var i :| 0 <= i < |rows| - 1 && rows[i] == r;
      DaysAscend(r.at, rows[|rows| - 1].at, offset);
    }
  }

  function Between<T>(rows: seq<Timed<T>>, from: int, until: int, offset: int): seq<Timed<T>> {
    if rows == [] then []
    else
      var last := rows[|rows| - 1];
      Between(rows[..|rows| - 1], from, until, offset)
      + if from <= LocalDay(last.at, offset) < until then [last] else []
  }

  lemma {:induction false} DaysTogetherAre<T>(rows: seq<Timed<T>>, from: int, until: int, offset: int)
    requires ByTime(rows) && from <= until
    ensures DaysTogether(rows, from, until, offset) == Between(rows, from, until, offset)
  {
    if rows == [] {
      NoDaysNoRows<T>(from, until, offset);
    } else {
      var n := |rows| - 1;
      DaysTogetherAre(rows[..n], from, until, offset);
      EarlierDays(rows, offset);
      DaysTogetherAppend(rows[..n], rows[n], from, until, offset);
      assert rows == rows[..n] + [rows[n]];
    }
  }

  lemma {:induction false} MonthIsBetween<T>(rows: seq<Timed<T>>, month: int, offset: int)
    ensures OfMonth(rows, month, offset) == Between(rows, MonthStart(month), MonthStart(month + 1), offset)
  {
    if rows != [] {
      MonthIsBetween(rows[..|rows| - 1], month, offset);
      MonthIsUnique(LocalDay(rows[|rows| - 1].at, offset), month);
    }
  }

  /** A month's list is its days' lists, one after the other: nothing missing, nothing twice. */
  lemma MonthIsItsDays<T>(rows: seq<Timed<T>>, month: int, offset: int)
    requires ByTime(rows)
    ensures MonthStart(month) <= MonthStart(month + 1)
    ensures OfMonth(rows, month, offset) == DaysTogether(rows, MonthStart(month), MonthStart(month + 1), offset)
  {
    MonthLength(month);
    MonthIsBetween(rows, month, offset);
    DaysTogetherAre(rows, MonthStart(month), MonthStart(month + 1), offset);
  }

  // ----- totals -----

  function Total(rows: seq<Timed<Payment>>): real {
    if rows == [] then 0.0 else Total(rows[..|rows| - 1]) + rows[|rows| - 1].row.amount
  }

  lemma {:induction false} TotalConcat(a: seq<Timed<Payment>>, b: seq<Timed<Payment>>)
    ensures Total(a + b) == Total(a) + Total(b)
  {
    if b == [] {
      assert a + b == a;
    } else {
      TotalConcat(a, b[..|b| - 1]);
      assert (a + b)[..|a + b| - 1] == a + b[..|b| - 1];
    }
  }

  /** Sum of the daily totals. */
  function DailyTotals(rows: seq<Timed<Payment>>, from: int, until: int, offset: int): real
    requires from <= until
    decreases until - from
  {
    if from == until then 0.0 else DailyTotals(rows, from, until - 1, offset) + Total(OnDay(rows, until - 1, offset))
  }

  lemma {:induction false} DailyTotalsAre(rows: seq<Timed<Payment>>, from: int, until: int, offset: int)
    requires from <= until
    ensures DailyTotals(rows, from, until, offset) == Total(DaysTogether(rows, from, until, offset))
    decreases until - from
  {
    if from < until {
      DailyTotalsAre(rows, from, until - 1, offset);
      TotalConcat(DaysTogether(rows, from, until - 1, offset), OnDay(rows, until - 1, offset));
    }
  }

  /** A month's takings are the sum of its days' takings. */
  lemma MonthTotalIsSumOfDays(rows: seq<Timed<Payment>>, month: int, offset: int)
    requires ByTime(rows)
    ensures MonthStart(month) <= MonthStart(month + 1)
    ensures Total(OfMonth(rows, month, offset)) == DailyTotals(rows, MonthStart(month), MonthStart(month + 1), offset)
  {
    MonthIsItsDays(rows, month, offset);
    DailyTotalsAre(rows, MonthStart(month), MonthStart(month + 1), offset);
  }

  // ----- stays -----

  const NANOS := 1_000_000_000

  function TimesOf(s: Stay): seq<int> {
    [s.guestIn] + (if s.guestOut.Some? then [s.guestOut.value] else [])
    + (if s.cleanUp.Some? then [s.cleanUp.value] else []) + [s.lastUpdated]
  }

  /** stayMatchesDate */
  predicate MatchesDay(s: Stay, day: int, offset: int) {
    exists t | t in TimesOf(s) :: LocalDay(t, offset) == day
  }

  /** A stay is in the list of a day when the guest came or left, its room was cleaned, or its record was last touched
      on that day. */
  lemma StayOnDayExactlyWhen(s: Stay, day: int, offset: int)
    ensures MatchesDay(s, day, offset) <==>
      || LocalDay(s.guestIn, offset) == day
      || (s.guestOut.Some? && LocalDay(s.guestOut.value, offset) == day)
      || (s.cleanUp.Some? && LocalDay(s.cleanUp.value, offset) == day)
      || LocalDay(s.lastUpdated, offset) == day
  {
    var times := TimesOf(s);
    assert s.guestIn in times && s.lastUpdated in times;
    assert s.guestOut.Some? ==> s.guestOut.value in times;
    assert s.cleanUp.Some? ==> s.cleanUp.value in times;
  }

  /** The first instant of the month and the last, one nanosecond before the next month, in nanoseconds of UTC. */
  function MonthFirst(month: int, offset: int): int {
    (MonthStart(month) * DAY_SECONDS - offset) * NANOS
  }

  function MonthLast(month: int, offset: int): int {
    MonthFirst(month + 1, offset) - 1
  }

  predicate WithinMonth(t: int, month: int, offset: int) {
    MonthFirst(month, offset) <= t * NANOS <= MonthLast(month, offset)
  }

  /** stayMatchesDateRange over a month */
  predicate MatchesMonth(s: Stay, month: int, offset: int) {
    exists t | t in TimesOf(s) :: WithinMonth(t, month, offset)
  }

  lemma DayBounds(t: int, day: int, offset: int)
    ensures (day * DAY_SECONDS - offset) * NANOS <= t * NANOS <==> day <= LocalDay(t, offset)
  {
  }

  lemma InstantInMonth(t: int, month: int, offset: int)
    ensures WithinMonth(t, month, offset) <==> InMonth(LocalDay(t, offset), month)
  {
    DayBounds(t, MonthStart(month), offset);
    DayBounds(t, MonthStart(month + 1), offset);
  }

  /** A stay is in the month's report exactly when it is in the report of some day of the month. */
  lemma StayInMonthIffInSomeDay(s: Stay, month: int, offset: int)
    ensures MatchesMonth(s, month, offset) <==> exists day :: InMonth(day, month) && MatchesDay(s, day, offset)
  {
    if MatchesMonth(s, month, offset) {
      var t :| t in TimesOf(s) && WithinMonth(t, month, offset);
      InstantInMonth(t, month, offset);
      assert MatchesDay(s, LocalDay(t, offset), offset);
    }
    if day :| InMonth(day, month) && MatchesDay(s, day, offset) {
      var t :| t in TimesOf(s) && LocalDay(t, offset) == day;
      InstantInMonth(t, month, offset);
    }
  }
}
