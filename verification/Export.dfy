/** Which days and months the exporter takes up, and what it records (`CandidateDailyExportDates`,
    `CandidateMonthlyExportMonths`, `MarkReportRun`, `runPending`, `ExportDate`, `ExportMonth`). Keys are day
    numbers and months; printed as "2006-01-02" and "2006-01" they sort alike for years of four digits. */
module Export {
  import opened Calendar
  import opened Core

  datatype RunStatus = RunFailed | ExportedLocal | Uploaded

  /** report_runs: the status of the latest run of each day and of each month. */
  datatype Book = Book(daily: map<int, RunStatus>, monthly: map<int, RunStatus>)

  /** The uploader an export finds: configured and usable, configured and broken, or none. */
  datatype Uploader = Ready | Broken | Absent

  /** How the steps of one export go: the directory, the data, the workbook, the uploader, the upload, and the
      writing of the run's status. */
  datatype Plan = Plan(directory: bool, loaded: bool, written: bool, uploader: Uploader, uploads: bool, marked: bool)

  /** The status ExportDate and ExportMonth try to record; without a directory they record nothing. */
  function Recorded(w: Plan): Option<RunStatus> {
    if !w.directory then None
    else if !w.loaded || !w.written || w.uploader == Broken then Some(RunFailed)
    else if w.uploader == Absent then Some(ExportedLocal)
    else if !w.uploads then Some(RunFailed)
    else Some(Uploaded)
  }

  /** Every step of the export goes well, up to the record of it. */
  predicate Succeeds(w: Plan) {
    w.directory && w.loaded && w.written && w.uploader == Ready && w.uploads && w.marked
  }

  function StatusOf(runs: map<int, RunStatus>, key: int): Option<RunStatus> {
    if key in runs then Some(runs[key]) else None
  }

  function StatusAfter(previous: Option<RunStatus>, plan: Plan): Option<RunStatus> {
    if plan.marked && Recorded(plan).Some? then Recorded(plan) else previous
  }

  function Mark(runs: map<int, RunStatus>, key: int, plan: Plan): map<int, RunStatus> {
    match StatusAfter(StatusOf(runs, key), plan)
    case None => runs
    case Some(status) => runs[key := status]
  }

  function MarkAll(runs: map<int, RunStatus>, keys: seq<int>, plan: int -> Plan): map<int, RunStatus> {
    if keys == [] then runs
    else Mark(MarkAll(runs, keys[..|keys| - 1], plan), keys[|keys| - 1], plan(keys[|keys| - 1]))
  }

  predicate IsUploaded(runs: map<int, RunStatus>, key: int) {
    StatusOf(runs, key) == Some(Uploaded)
  }

  predicate Ascending(keys: seq<int>) {
    forall i, j :: 0 <= i < j < |keys| ==> keys[i] < keys[j]
  }

  /** A past local day with an event, and not uploaded. An event time that does not parse is None. */
  predicate DueDay(events: seq<Option<int>>, daily: map<int, RunStatus>, now: int, offset: int, day: int) {
    && (exists t | t in events :: t.Some? && LocalDay(t.value, offset) == day)
    && day < LocalDay(now, offset)
    && !IsUploaded(daily, day)
  }

  predicate HasDueDay(events: seq<Option<int>>, daily: map<int, RunStatus>, now: int, offset: int, month: int) {
    exists t | t in events ::
      t.Some? && LocalMonth(t.value, offset) == month && DueDay(events, daily, now, offset, LocalDay(t.value, offset))
  }

  predicate MonthAmong(days: seq<int>, month: int) {
    exists j | 0 <= j < |days| :: MonthOf(days[j]) == month
  }

  /** A past, not uploaded month of a day that is due. */
  predicate DueMonth(events: seq<Option<int>>, book: Book, now: int, offset: int, month: int) {
    && HasDueDay(events, book.daily, now, offset, month)
    && month < LocalMonth(now, offset)
    && !IsUploaded(book.monthly, month)
  }

  /** sort.Strings over the keys of a map. */
  method SortKeys(keys: seq<int>) returns (sorted: seq<int>)
    requires Distinct(keys)
    ensures Ascending(sorted) && forall k :: k in sorted <==> k in keys
  {
    sorted := [];
    for i := 0 to |keys|
      invariant Ascending(sorted) && forall k :: k in sorted <==> k in keys[..i]
    {
      assert keys[..i + 1] == keys[..i] + [keys[i]];
      sorted := Insert(sorted, keys[i]);
    }
    assert keys[..|keys|] == keys;
  }

  function Insert(sorted: seq<int>, k: int): (r: seq<int>)
    requires Ascending(sorted) && k !in sorted
    ensures Ascending(r) && forall x :: x in r <==> x in sorted || x == k
  {
    if sorted == [] || sorted[|sorted| - 1] < k then sorted + [k]
    else
      var n := |sorted| - 1;
      assert sorted == sorted[..n] + [sorted[n]];
      assert sorted[n] in sorted;
      var shorter := Insert(sorted[..n], k);
      assert forall i :: 0 <= i < |shorter| ==> shorter[i] in shorter;
      shorter + [sorted[n]]
  }

  method CandidateDays(events: seq<Option<int>>, daily: map<int, RunStatus>, now: int, offset: int)
    returns (result: seq<int>)
    ensures Ascending(result)
    ensures forall day :: day in result <==> DueDay(events, daily, now, offset, day)
  {
    var cutoff := LocalDay(now, offset);
    var seen: seq<int> := [];
    for i := 0 to |events|
      invariant Distinct(seen)
      invariant forall day :: day in seen <==> DueDay(events[..i], daily, now, offset, day)
    {
      assert events[..i + 1] == events[..i] + [events[i]];
      if events[i].Some? {
        var day := LocalDay(events[i].value, offset);
        if day < cutoff && !IsUploaded(daily, day) && day !in seen {
          seen := seen + [day];
        }
      }
    }
    assert events[..|events|] == events;
    result := SortKeys(seen);
  }

  method CandidateMonths(events: seq<Option<int>>, book: Book, now: int, offset: int) returns (result: seq<int>)
    ensures Ascending(result)
    ensures forall month :: month in result <==> DueMonth(events, book, now, offset, month)
  {
    var days := CandidateDays(events, book.daily, now, offset);
    var currentMonth := LocalMonth(now, offset);
    var seen: seq<int> := [];
    for i := 0 to |days|
      invariant Distinct(seen)
      invariant forall month :: month in seen <==>
        MonthAmong(days[..i], month) && month < currentMonth && !IsUploaded(book.monthly, month)
    {
      var month := MonthOf(days[i]);
      AmongAppend(days[..i], days[i]);
      assert days[..i + 1] == days[..i] + [days[i]];
      if month < currentMonth && !IsUploaded(book.monthly, month) && month !in seen {
        seen := seen + [month];
      }
    }
    assert days[..|days|] == days;
    MonthsOfDays(events, book.daily, now, offset, days);
    result := SortKeys(seen);
  }

  lemma AmongAppend(days: seq<int>, day: int)
    ensures forall month :: MonthAmong(days + [day], month) <==> MonthAmong(days, month) || MonthOf(day) == month
  {
    forall month ensures MonthAmong(days + [day], month) <==> MonthAmong(days, month) || MonthOf(day) == month {
      assert (days + [day])[|days|] == day;
      if j :| 0 <= j < |days| && MonthOf(days[j]) == month {
        assert (days + [day])[j] == days[j];
      }
    }
  }

  lemma MonthsOfDays(events: seq<Option<int>>, daily: map<int, RunStatus>, now: int, offset: int, days: seq<int>)
    requires forall day :: day in days <==> DueDay(events, daily, now, offset, day)
    ensures forall month :: MonthAmong(days, month) <==> HasDueDay(events, daily, now, offset, month)
  {
    forall month ensures MonthAmong(days, month) <==> HasDueDay(events, daily, now, offset, month) {
      if j :| 0 <= j < |days| && MonthOf(days[j]) == month {
        assert days[j] in days;
        var t :| t in events && t.Some? && LocalDay(t.value, offset) == days[j];
      }
      if t :| t in events && t.Some? && LocalMonth(t.value, offset) == month &&
              DueDay(events, daily, now, offset, LocalDay(t.value, offset)) {
        assert LocalDay(t.value, offset) in days;
      }
    }
  }

  /** The exporter and its table of runs. */
  class DailyExporter {
    const offset: int
    var book: Book

    constructor (offset: int, book: Book)
      ensures this.offset == offset && this.book == book
    {
      this.offset, this.book := offset, book;
    }

    /** MarkReportRun for a day; a failing write changes nothing. */
    method MarkDay(day: int, status: RunStatus, marked: bool)
      modifies this`book
      ensures book == if marked then old(book).(daily := old(book).daily[day := status]) else old(book)
    {
      if marked {
        book := book.(daily := book.daily[day := status]);
      }
    }

    method ExportDate(day: int, w: Plan)
      modifies this`book
      ensures book == Book(Mark(old(book).daily, day, w), old(book).monthly)
    {
      Remark(book.daily, day);
      if !w.directory { return; }
      if !w.loaded { MarkDay(day, RunFailed, w.marked); return; }
      if !w.written { MarkDay(day, RunFailed, w.marked); return; }
      if w.uploader == Broken { MarkDay(day, RunFailed, w.marked); return; }
      if w.uploader == Absent { MarkDay(day, ExportedLocal, w.marked); return; }
      if !w.uploads { MarkDay(day, RunFailed, w.marked); return; }
      MarkDay(day, Uploaded, w.marked);
    }

    method MarkMonth(month: int, status: RunStatus, marked: bool)
      modifies this`book
      ensures book == if marked then old(book).(monthly := old(book).monthly[month := status]) else old(book)
    {
      if marked {
        book := book.(monthly := book.monthly[month := status]);
      }
    }

    method ExportMonth(month: int, w: Plan)
      modifies this`book
      ensures book == Book(old(book).daily, Mark(old(book).monthly, month, w))
    {
      Remark(book.monthly, month);
      if !w.directory { return; }
      if !w.loaded { MarkMonth(month, RunFailed, w.marked); return; }
      if !w.written { MarkMonth(month, RunFailed, w.marked); return; }
      if w.uploader == Broken { MarkMonth(month, RunFailed, w.marked); return; }
      if w.uploader == Absent { MarkMonth(month, ExportedLocal, w.marked); return; }
      if !w.uploads { MarkMonth(month, RunFailed, w.marked); return; }
      MarkMonth(month, Uploaded, w.marked);
    }

    method ExportDays(days: seq<int>, plan: int -> Plan)
      modifies this`book
      ensures book == Book(MarkAll(old(book).daily, days, plan), old(book).monthly)
    {
      for i := 0 to |days|
        invariant book == Book(MarkAll(old(book).daily, days[..i], plan), old(book).monthly)
      {
        assert days[..i + 1][..i] == days[..i];
        ExportDate(days[i], plan(days[i]));
      }
      assert days[..|days|] == days;
    }

    method ExportMonths(months: seq<int>, plan: int -> Plan)
      modifies this`book
      ensures book == Book(old(book).daily, MarkAll(old(book).monthly, months, plan))
    {
      for i := 0 to |months|
        invariant book == Book(old(book).daily, MarkAll(old(book).monthly, months[..i], plan))
      {
        assert months[..i + 1][..i] == months[..i];
        ExportMonth(months[i], plan(months[i]));
      }
      assert months[..|months|] == months;
    }

    /** runPending; the clock is read again for the months. */
    method RunPending(events: seq<Option<int>>, now: int, later: int, dayPlan: int -> Plan, monthPlan: int -> Plan)
      modifies this`book
      ensures Pass(events, now, later, offset, dayPlan, monthPlan, old(book), book)
    {
      var days := CandidateDays(events, book.daily, now, offset);
      ExportDays(days, dayPlan);
      ghost var between := book;
      var months := CandidateMonths(events, book, later, offset);
      ExportMonths(months, monthPlan);
      DaysEffect(events, now, offset, dayPlan, old(book), between, days);
      MonthsEffect(events, later, offset, monthPlan, between, book, months);
    }
  }

  /** Writing a status that is there already changes nothing. */
  lemma Remark(runs: map<int, RunStatus>, key: int)
    ensures key in runs ==> runs[key := runs[key]] == runs
  {
  }

  // ----- what a pass does -----

  /** A due key gets the status of its own attempt; any other key keeps its own. */
  predicate KeyAfter(before: map<int, RunStatus>, after: map<int, RunStatus>, key: int, due: bool, plan: Plan) {
    StatusOf(after, key) == if due then StatusAfter(StatusOf(before, key), plan) else StatusOf(before, key)
  }

  ghost predicate Pass(events: seq<Option<int>>, now: int, later: int, offset: int, dayPlan: int -> Plan,
                       monthPlan: int -> Plan, before: Book, after: Book) {
    && (forall day ::
       KeyAfter(before.daily, after.daily, day, DueDay(events, before.daily, now, offset, day), dayPlan(day)))
    && (forall month :: KeyAfter(before.monthly, after.monthly, month,
          DueMonth(events, Book(after.daily, before.monthly), later, offset, month), monthPlan(month)))
  }

  lemma {:induction false} MarkAllAt(runs: map<int, RunStatus>, keys: seq<int>, plan: int -> Plan, k: int)
    requires Ascending(keys)
    ensures KeyAfter(runs, MarkAll(runs, keys, plan), k, k in keys, plan(k))
  {
    if keys != [] {
      var n := |keys| - 1;
      MarkAllAt(runs, keys[..n], plan, k);
      assert keys == keys[..n] + [keys[n]];
    }
  }

  lemma DaysEffect(events: seq<Option<int>>, now: int, offset: int, plan: int -> Plan, before: Book, after: Book,
                   days: seq<int>)
    requires Ascending(days) && forall day :: day in days <==> DueDay(events, before.daily, now, offset, day)
    requires after == Book(MarkAll(before.daily, days, plan), before.monthly)
    ensures forall day ::
      KeyAfter(before.daily, after.daily, day, DueDay(events, before.daily, now, offset, day), plan(day))
  {
    forall day
      ensures KeyAfter(before.daily, after.daily, day, DueDay(events, before.daily, now, offset, day), plan(day)) {
      MarkAllAt(before.daily, days, plan, day);
    }
  }

  lemma MonthsEffect(events: seq<Option<int>>, now: int, offset: int, plan: int -> Plan, before: Book, after: Book,
                     months: seq<int>)
    requires Ascending(months) && forall month :: month in months <==> DueMonth(events, before, now, offset, month)
    requires after == Book(before.daily, MarkAll(before.monthly, months, plan))
    ensures forall month :: KeyAfter(before.monthly, after.monthly, month,
      DueMonth(events, Book(after.daily, before.monthly), now, offset, month), plan(month))
  {
    forall month ensures KeyAfter(before.monthly, after.monthly, month,
      DueMonth(events, Book(after.daily, before.monthly), now, offset, month), plan(month))
    {
      MarkAllAt(before.monthly, months, plan, month);
    }
  }

  // ----- runs of passes -----

  /** Everything one pass depends on. */
  datatype Inputs = Inputs(events: seq<Option<int>>, now: int, later: int, dayPlan: int -> Plan, monthPlan: int -> Plan)

  ghost predicate PassOf(i: Inputs, offset: int, before: Book, after: Book) {
    Pass(i.events, i.now, i.later, offset, i.dayPlan, i.monthPlan, before, after)
  }

  /** A run of the exporter: the book before each pass and after the last. */
  ghost predicate ExporterRun(inputs: seq<Inputs>, books: seq<Book>, offset: int) {
    |books| == |inputs| + 1 && forall i :: 0 <= i < |inputs| ==> PassOf(inputs[i], offset, books[i], books[i + 1])
  }

  lemma PassKeepsUploads(i: Inputs, offset: int, before: Book, after: Book, key: int)
    requires PassOf(i, offset, before, after)
    ensures IsUploaded(before.daily, key) ==> IsUploaded(after.daily, key)
    ensures IsUploaded(before.monthly, key) ==> IsUploaded(after.monthly, key)
  {
    assert KeyAfter(before.daily, after.daily, key, DueDay(i.events, before.daily, i.now, offset, key), i.dayPlan(key));
    assert KeyAfter(before.monthly, after.monthly, key,
      DueMonth(i.events, Book(after.daily, before.monthly), i.later, offset, key), i.monthPlan(key));
  }

  /** One pass marks a day uploaded only when every step of its export goes well, and then always. */
  lemma PassUploads(i: Inputs, offset: int, before: Book, after: Book, day: int)
    requires PassOf(i, offset, before, after)
    ensures IsUploaded(after.daily, day) <==>
      IsUploaded(before.daily, day) || (DueDay(i.events, before.daily, i.now, offset, day) && Succeeds(i.dayPlan(day)))
  {
    assert KeyAfter(before.daily, after.daily, day, DueDay(i.events, before.daily, i.now, offset, day), i.dayPlan(day));
  }

  /** A pass in which the day is past, has an event, and is exported without a failing step. */
  predicate Completes(i: Inputs, offset: int, day: int) {
    Succeeds(i.dayPlan(day)) && DueDay(i.events, map[], i.now, offset, day)
  }

  /** After any number of passes a day is uploaded exactly when it was at the start or some pass completed it: no
      failure of that day or of another keeps a later pass from making it good. */
  lemma {:induction false} UploadedExactlyWhen(inputs: seq<Inputs>, books: seq<Book>, offset: int, n: nat, day: int)
    requires ExporterRun(inputs, books, offset) && n <= |inputs|
    ensures IsUploaded(books[n].daily, day) <==>
      IsUploaded(books[0].daily, day) || exists i :: 0 <= i < n && Completes(inputs[i], offset, day)
  {
    if n > 0 {
      var last := inputs[n - 1];
      UploadedExactlyWhen(inputs, books, offset, n - 1, day);
      PassUploads(last, offset, books[n - 1], books[n], day);
      assert DueDay(last.events, books[n - 1].daily, last.now, offset, day) <==>
        DueDay(last.events, map[], last.now, offset, day) && !IsUploaded(books[n - 1].daily, day);
      if Completes(last, offset, day) {
        assert exists i :: 0 <= i < n && Completes(inputs[i], offset, day);
      }
    }
  }

  /** The pass exports the day and records how that went: the day is past, has an event, is not uploaded yet, and
      neither the directory nor the record fails. */
  ghost predicate Records(i: Inputs, book: Book, offset: int, day: int) {
    && (exists t :: t in i.events && t.Some? && LocalDay(t.value, offset) == day)
    && day < LocalDay(i.now, offset) && !(day in book.daily && book.daily[day] == Uploaded)
    && i.dayPlan(day).directory && i.dayPlan(day).marked
  }

  /** How the latest recorded export of the day, among the first `n` passes, went. */
  ghost function LatestRecord(inputs: seq<Inputs>, books: seq<Book>, offset: int, n: nat, day: int): Option<Plan>
    requires n <= |inputs| && n <= |books|
  {
    if n == 0 then None
    else if Records(inputs[n - 1], books[n - 1], offset, day) then Some(inputs[n - 1].dayPlan(day))
    else LatestRecord(inputs, books, offset, n - 1, day)
  }

  lemma PassRecords(i: Inputs, offset: int, before: Book, after: Book, day: int)
    requires PassOf(i, offset, before, after)
    ensures StatusOf(after.daily, day) ==
      if Records(i, before, offset, day) then Recorded(i.dayPlan(day)) else StatusOf(before.daily, day)
  {
    assert KeyAfter(before.daily, after.daily, day, DueDay(i.events, before.daily, i.now, offset, day), i.dayPlan(day));
  }

  /** After any number of passes the status of a day is that of its latest recorded export - uploaded when the data, the
      workbook, the uploader and the upload all went well, exported locally when there was no uploader to send a
      finished workbook to, failed otherwise - and the one it had at the start while there has been none. */
  lemma {:induction false} StatusIsLatestRecord(inputs: seq<Inputs>, books: seq<Book>, offset: int, n: nat, day: int)
    requires ExporterRun(inputs, books, offset) && n <= |inputs|
    ensures match LatestRecord(inputs, books, offset, n, day)
      case None => StatusOf(books[n].daily, day) == StatusOf(books[0].daily, day)
      case Some(w) =>
        && day in books[n].daily
        && (books[n].daily[day] == Uploaded <==> w.loaded && w.written && w.uploader == Ready && w.uploads)
        && (books[n].daily[day] == ExportedLocal <==> w.loaded && w.written && w.uploader == Absent)
  {
    if n > 0 {
      StatusIsLatestRecord(inputs, books, offset, n - 1, day);
      PassRecords(inputs[n - 1], offset, books[n - 1], books[n], day);
    }
  }

  /** What has been uploaded stays uploaded, through any number of passes. */
  lemma {:induction false} UploadedForEver(inputs: seq<Inputs>, books: seq<Book>, offset: int, i: nat, j: nat, key: int)
    requires ExporterRun(inputs, books, offset) && i <= j <= |inputs|
    ensures IsUploaded(books[i].daily, key) ==> IsUploaded(books[j].daily, key)
    ensures IsUploaded(books[i].monthly, key) ==> IsUploaded(books[j].monthly, key)
    decreases j
  {
    if i < j {
      UploadedForEver(inputs, books, offset, i, j - 1, key);
      PassKeepsUploads(inputs[j - 1], offset, books[j - 1], books[j], key);
    }
  }

  /** What becomes of a day depends on its own attempt alone: no other day's failure blocks it. */
  lemma DaysAreIndependent(a: Inputs, b: Inputs, offset: int, before: Book, afterA: Book, afterB: Book, day: int)
    requires PassOf(a, offset, before, afterA) && PassOf(b, offset, before, afterB)
    requires a.events == b.events && a.now == b.now && a.dayPlan(day) == b.dayPlan(day)
    ensures StatusOf(afterA.daily, day) == StatusOf(afterB.daily, day)
  {
    assert KeyAfter(before.daily, afterA.daily, day, DueDay(a.events, before.daily, a.now, offset, day),
      a.dayPlan(day));
    assert KeyAfter(before.daily, afterB.daily, day, DueDay(b.events, before.daily, b.now, offset, day),
      b.dayPlan(day));
  }

  /** Every event of the month falls on a day that has been uploaded. */
  ghost predicate AllDaysUploaded(events: seq<Option<int>>, daily: map<int, RunStatus>, offset: int, month: int) {
    forall t :: t in events && t.Some? && LocalMonth(t.value, offset) == month ==>
      IsUploaded(daily, LocalDay(t.value, offset))
  }

  lemma PastMonthPastDay(t: int, now: int, offset: int)
    requires LocalMonth(t, offset) < LocalMonth(now, offset)
    ensures LocalDay(t, offset) < LocalDay(now, offset)
  {
    if LocalDay(t, offset) >= LocalDay(now, offset) {
      MonthOfIsMonotone(LocalDay(now, offset), LocalDay(t, offset));
    }
  }

  /** A month is due exactly when it is past, it is not uploaded and one of its days with an event is not: a month
      whose days have all been uploaded gets no report of its own. */
  lemma MonthDueExactlyWhen(events: seq<Option<int>>, book: Book, now: int, offset: int, month: int)
    ensures DueMonth(events, book, now, offset, month) <==>
      month < LocalMonth(now, offset) && !IsUploaded(book.monthly, month) &&
      !AllDaysUploaded(events, book.daily, offset, month)
  {
    if t :| t in events && t.Some? && LocalMonth(t.value, offset) == month &&
            !IsUploaded(book.daily, LocalDay(t.value, offset)) && month < LocalMonth(now, offset) {
      PastMonthPastDay(t.value, now, offset);
      assert DueDay(events, book.daily, now, offset, LocalDay(t.value, offset));
    }
  }

  /** Once all days of a past month are uploaded before its report is, later passes over the same events never
      report the month. */
  lemma {:induction false} MonthIsStarved(inputs: seq<Inputs>, books: seq<Book>, offset: int, events: seq<Option<int>>,
                                          month: int, n: nat)
    requires ExporterRun(inputs, books, offset) && n <= |inputs|
    requires AllDaysUploaded(events, books[0].daily, offset, month)
    requires forall i :: 0 <= i < |inputs| ==> inputs[i].events == events
    ensures StatusOf(books[n].monthly, month) == StatusOf(books[0].monthly, month)
    decreases n
  {
    if n > 0 {
      var i := inputs[n - 1];
      MonthIsStarved(inputs, books, offset, events, month, n - 1);
      forall t | t in events && t.Some? && LocalMonth(t.value, offset) == month
        ensures IsUploaded(books[n].daily, LocalDay(t.value, offset))
      {
        UploadedForEver(inputs, books, offset, 0, n, LocalDay(t.value, offset));
      }
      assert KeyAfter(books[n - 1].monthly, books[n].monthly, month,
        DueMonth(i.events, Book(books[n].daily, books[n - 1].monthly), i.later, offset, month), i.monthPlan(month));
    }
  }

  /** A pass in which every due day of a past month goes up skips the month, however its own export would have gone. */
  lemma SuccessfulDaysSkipTheMonth(i: Inputs, offset: int, before: Book, after: Book, month: int)
    requires PassOf(i, offset, before, after) && i.now <= i.later && month < LocalMonth(i.now, offset)
    requires forall day :: DueDay(i.events, before.daily, i.now, offset, day) ==> Succeeds(i.dayPlan(day))
    ensures StatusOf(after.monthly, month) == StatusOf(before.monthly, month)
  {
    forall t | t in i.events && t.Some? && LocalMonth(t.value, offset) == month
      ensures IsUploaded(after.daily, LocalDay(t.value, offset))
    {
      var day := LocalDay(t.value, offset);
      PastMonthPastDay(t.value, i.now, offset);
      assert KeyAfter(before.daily, after.daily, day, DueDay(i.events, before.daily, i.now, offset, day),
        i.dayPlan(day));
    }
    DaysAscend(i.now, i.later, offset);
    MonthOfIsMonotone(LocalDay(i.now, offset), LocalDay(i.later, offset));
    MonthDueExactlyWhen(i.events, Book(after.daily, before.monthly), i.later, offset, month);
    assert KeyAfter(before.monthly, after.monthly, month,
      DueMonth(i.events, Book(after.daily, before.monthly), i.later, offset, month), i.monthPlan(month));
  }
}
