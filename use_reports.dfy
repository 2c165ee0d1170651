/// The report period, its window, the period filter and the counts of
/// app/hooks/useReports.js.
///
/// The hook reads the clock twice: once per render for the overdue rule (`currentTime`)
/// and once inside `getReportData` for the window (`now`). Both are parameters here.
module Reports {
  import opened DateUtils
  import opened Sequences

  const DAILY: string := "daily"
  const WEEKLY: string := "weekly"
  const MONTHLY: string := "monthly"

  /** A checked-out item as the pages hold it: a document id merged with the document's fields. */
  datatype Item = Item(id: string, name: Option<string>, lastCheckedOutBy: Option<string>, timestamp: Timestamp)

  /** The `{ items, total, overdue }` object `getReportData` returns. */
  datatype ReportData = ReportData(items: seq<Item>, total: nat, overdue: nat)

  /** The three period values the selector offers; any other string falls to the `default` arms. */
  predicate Recognised(period: string)
  {
    period == DAILY || period == WEEKLY || period == MONTHLY
  }

  /** `startDate` in `getReportData`: the first instant of the report window. */
  function WindowStart(period: string, now: int, rt: Runtime): (start: int)
    ensures start <= now
    ensures now - start <= 31 * MS_PER_DAY
    ensures period != WEEKLY && period != MONTHLY ==> start == StartOfDay(now)
  {
    if period == DAILY then StartOfDay(now)
    else if period == WEEKLY then now - 7 * MS_PER_DAY
    else if period == MONTHLY then rt.monthBack(now)
    else StartOfDay(now)
  }

  /** The period filter's callback: a truthy timestamp whose Date is at or after `start`;
      a missing timestamp and an Invalid Date are outside every window. */
  predicate InWindow(item: Item, start: int, rt: Runtime)
    ensures InWindow(item, start, rt) <==> NotBefore(CheckoutTime(item.timestamp, rt), start)
  {
    if Falsy(item.timestamp) then false
    else NotBefore(ToDate(item.timestamp, rt), start)
  }

  function InWindowOf(start: int, rt: Runtime): Item -> bool
  {
    (item: Item) => InWindow(item, start, rt)
  }

  /** The overdue filter's callback, `isItemOverdue(item.timestamp, currentTime)`. */
  function OverdueAt(currentTime: int, rt: Runtime): Item -> bool
  {
    (item: Item) => IsItemOverdue(item.timestamp, currentTime, rt)
  }

  /** `getReportData()` with the hook's `reportPeriod`, its two clock readings and its items. */
  function GetReportData(items: seq<Item>, period: string, now: int, currentTime: int, rt: Runtime): (r: ReportData)
    ensures r.total == |r.items|
    ensures r.overdue <= r.total
    ensures IsSubsequence(r.items, items)
    ensures forall x :: x in r.items <==> x in items && InWindow(x, WindowStart(period, now, rt), rt)
    ensures r.overdue == Count(r.items, OverdueAt(currentTime, rt))
  {
    if |items| == 0 then
      ReportData([], 0, 0)
    else
      var startDate := WindowStart(period, now, rt);
      var periodItems := Filter(items, InWindowOf(startDate, rt));
      var overdueInPeriod := Filter(periodItems, OverdueAt(currentTime, rt));
      FilterIsSubsequence(items, InWindowOf(startDate, rt));
      FilterLengthIsCount(periodItems, OverdueAt(currentTime, rt));
      ReportData(periodItems, |periodItems|, |overdueInPeriod|)
  }

  /** `getReportTitle()`. */
  function GetReportTitle(period: string): (title: string)
    ensures title == "Inventory Report" <==> !Recognised(period)
  {
    if period == DAILY then "Today's Report"
    else if period == WEEKLY then "Weekly Report (Last 7 Days)"
    else if period == MONTHLY then "Monthly Report (Last 30 Days)"
    else "Inventory Report"
  }

  /** The hook's state: the selected period, 'daily' at first, changed by `setReportPeriod`. */
  class ReportsHook {
    var reportPeriod: string

    constructor ()
      ensures reportPeriod == DAILY
    {
      reportPeriod := DAILY;
    }

    method SetReportPeriod(period: string)
      modifies this
      ensures reportPeriod == period
    {
      reportPeriod := period;
    }
  }

  // ---------------------------------------------------------------------------
  // Properties

  /** No items: an empty report, whatever the period and the clock. */
  lemma EmptyInputEmptyReport(period: string, now: int, currentTime: int, rt: Runtime)
    ensures GetReportData([], period, now, currentTime, rt) == ReportData([], 0, 0)
  {
  }

  /** Each item appears in the report as often as in the input when it is in the window, else never. */
  lemma {:induction false} ReportKeepsMultiplicity(items: seq<Item>, period: string, now: int, currentTime: int, rt: Runtime, x: Item)
    ensures multiset(GetReportData(items, period, now, currentTime, rt).items)[x]
         == if InWindow(x, WindowStart(period, now, rt), rt) then multiset(items)[x] else 0
  {
    if items != [] {
      FilterMultiplicity(items, InWindowOf(WindowStart(period, now, rt), rt), x);
    }
  }

  /** The overdue count reaches the total exactly when every reported item is overdue. */
  lemma {:induction false} AllOverdueIffCountIsTotal(items: seq<Item>, period: string, now: int, currentTime: int, rt: Runtime)
    ensures var r := GetReportData(items, period, now, currentTime, rt);
      r.overdue == r.total <==> forall k :: 0 <= k < |r.items| ==> IsItemOverdue(r.items[k].timestamp, currentTime, rt)
  {
    var r := GetReportData(items, period, now, currentTime, rt);
    FilterLengthIsCount(r.items, OverdueAt(currentTime, rt));
    FilterKeepsAll(r.items, OverdueAt(currentTime, rt));
  }

  /** The overdue count is zero exactly when no reported item is overdue. */
  lemma {:induction false} NoneOverdueIffCountIsZero(items: seq<Item>, period: string, now: int, currentTime: int, rt: Runtime)
    ensures var r := GetReportData(items, period, now, currentTime, rt);
      r.overdue == 0 <==> forall k :: 0 <= k < |r.items| ==> !IsItemOverdue(r.items[k].timestamp, currentTime, rt)
  {
    var r := GetReportData(items, period, now, currentTime, rt);
    FilterLengthIsCount(r.items, OverdueAt(currentTime, rt));
    FilterKeepsNone(r.items, OverdueAt(currentTime, rt));
  }

  /** The weekly window starts exactly seven days back, at the same time of day as `now`. */
  lemma WeeklyWindowNotTruncated(now: int, rt: Runtime)
    ensures WindowStart(WEEKLY, now, rt) == now - 7 * MS_PER_DAY
    ensures WindowStart(WEEKLY, now, rt) - StartOfDay(WindowStart(WEEKLY, now, rt)) == now - StartOfDay(now)
  {
    var w := now - 7 * MS_PER_DAY;
    assert w == (DayNumber(now) - 7) * MS_PER_DAY + (now - StartOfDay(now));
    DayOfOffset(DayNumber(now) - 7, now - StartOfDay(now));
  }

  /** The windows are nested: monthly before weekly before daily, all at or before `now`. */
  lemma WindowsNested(now: int, rt: Runtime)
    ensures WindowStart(MONTHLY, now, rt) <= WindowStart(WEEKLY, now, rt)
    ensures WindowStart(WEEKLY, now, rt) < WindowStart(DAILY, now, rt)
    ensures WindowStart(DAILY, now, rt) <= now
  {
  }

  /** An item in a later-starting window is in every earlier-starting one. */
  lemma InWindowWidens(item: Item, s1: int, s2: int, rt: Runtime)
    requires s2 <= s1 && InWindow(item, s1, rt)
    ensures InWindow(item, s2, rt)
  {
  }

  /** The daily report lists a subsequence of the weekly one, which lists a subsequence of the monthly one. */
  lemma {:induction false} ReportsNested(items: seq<Item>, now: int, currentTime: int, rt: Runtime)
    ensures IsSubsequence(GetReportData(items, DAILY, now, currentTime, rt).items,
                          GetReportData(items, WEEKLY, now, currentTime, rt).items)
    ensures IsSubsequence(GetReportData(items, WEEKLY, now, currentTime, rt).items,
                          GetReportData(items, MONTHLY, now, currentTime, rt).items)
  {
    if items != [] {
      WindowsNested(now, rt);
      var d, w, m := WindowStart(DAILY, now, rt), WindowStart(WEEKLY, now, rt), WindowStart(MONTHLY, now, rt);
      forall x ensures InWindowOf(d, rt)(x) ==> InWindowOf(w, rt)(x) {
        if InWindow(x, d, rt) { InWindowWidens(x, d, w, rt); }
      }
      forall x ensures InWindowOf(w, rt)(x) ==> InWindowOf(m, rt)(x) {
        if InWindow(x, w, rt) { InWindowWidens(x, w, m, rt); }
      }
      FilterStrongerIsSubsequence(items, InWindowOf(d, rt), InWindowOf(w, rt));
      FilterStrongerIsSubsequence(items, InWindowOf(w, rt), InWindowOf(m, rt));
    }
  }

  /** An unrecognised period reports exactly the daily window but under the generic title. */
  lemma UnrecognisedPeriodReportsToday(items: seq<Item>, period: string, now: int, currentTime: int, rt: Runtime)
    requires !Recognised(period)
    ensures GetReportData(items, period, now, currentTime, rt) == GetReportData(items, DAILY, now, currentTime, rt)
    ensures GetReportTitle(period) != GetReportTitle(DAILY)
  {
  }

  /** Titles tell the three periods apart and lump every other value together. */
  lemma TitleIdentifiesPeriod(p: string, q: string)
    ensures GetReportTitle(p) == GetReportTitle(q) <==> p == q || (!Recognised(p) && !Recognised(q))
  {
  }
}
