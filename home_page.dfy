/// The dashboard page of app/page.js: its state, the real-time snapshot handler, and the
/// copies of the cutoff, the overdue rule, the report, the title and the rate that the
/// page carries inline instead of importing them.
module HomePage {
  import opened DateUtils
  import opened Sequences
  import opened Reports
  import opened ReportSummary
  import opened Rounding

  /** The stored fields of a checkout document; `id` is present when the document itself has an `id` field. */
  datatype DocData = DocData(id: Option<string>, name: Option<string>, lastCheckedOutBy: Option<string>, timestamp: Timestamp)

  /** A document of a snapshot: the store's id and the stored fields. */
  datatype Doc = Doc(docId: string, data: DocData)

  /** `{ id: doc.id, ...doc.data() }`: the spread comes last, so a stored `id` field wins. */
  function ToItem(doc: Doc): (item: Item)
    ensures doc.data.id.None? ==> item.id == doc.docId
    ensures doc.data.id.Some? ==> item.id == doc.data.id.value
    ensures item.name == doc.data.name && item.lastCheckedOutBy == doc.data.lastCheckedOutBy
    ensures item.timestamp == doc.data.timestamp
  {
    Item(if doc.data.id.Some? then doc.data.id.value else doc.docId,
         doc.data.name, doc.data.lastCheckedOutBy, doc.data.timestamp)
  }

  /** The page's own `getCutoffTime`. */
  function PageCutoffTime(date: int): (c: int)
    ensures c == CutoffTime(date)
  {
    var cutoff := StartOfDay(date) + CUTOFF_HOUR * MS_PER_HOUR;
    cutoff
  }

  /** The snapshot handler's overdue callback, with `todayStart` and `todayCutoff` computed
      once per snapshot; given the day bounds of `currentTime` it is `isItemOverdue`. */
  predicate SnapshotOverdue(item: Item, currentTime: int, todayStart: int, todayCutoff: int, rt: Runtime)
    ensures todayStart == StartOfDay(currentTime) && todayCutoff == PageCutoffTime(currentTime) ==>
      (SnapshotOverdue(item, currentTime, todayStart, todayCutoff, rt) <==> IsItemOverdue(item.timestamp, currentTime, rt))
  {
    if Falsy(item.timestamp) then false
    else
      var checkoutTime := ToDate(item.timestamp, rt);
      var isPreviousDayCheckout := Before(checkoutTime, todayStart);
      var isPastCutoffToday := currentTime > todayCutoff && Before(checkoutTime, todayCutoff);
      isPreviousDayCheckout || isPastCutoffToday
  }

  function SnapshotOverdueOf(currentTime: int, todayStart: int, todayCutoff: int, rt: Runtime): Item -> bool
  {
    (item: Item) => SnapshotOverdue(item, currentTime, todayStart, todayCutoff, rt)
  }

  /** The overdue callback inside the page's `getReportData`, which recomputes the day bounds
      per item; it is `isItemOverdue`. */
  predicate ReportOverdue(item: Item, currentTime: int, rt: Runtime)
    ensures ReportOverdue(item, currentTime, rt) <==> IsItemOverdue(item.timestamp, currentTime, rt)
  {
    if Falsy(item.timestamp) then false
    else
      var checkoutTime := ToDate(item.timestamp, rt);
      var todayStart := StartOfDay(currentTime);
      var isPreviousDayCheckout := Before(checkoutTime, todayStart);
      var todayCutoff := PageCutoffTime(currentTime);
      var isPastCutoffToday := currentTime > todayCutoff && Before(checkoutTime, todayCutoff);
      isPreviousDayCheckout || isPastCutoffToday
  }

  function ReportOverdueOf(currentTime: int, rt: Runtime): Item -> bool
  {
    (item: Item) => ReportOverdue(item, currentTime, rt)
  }

  /** The table rows' overdue test: a falsy timestamp leaves `checkoutTime` undefined, and
      every comparison with undefined is false, so it is `isItemOverdue` too. */
  predicate RowOverdue(item: Item, currentTime: int, rt: Runtime)
    ensures RowOverdue(item, currentTime, rt) <==> IsItemOverdue(item.timestamp, currentTime, rt)
  {
    var todayCutoff := PageCutoffTime(currentTime);
    var todayStart := StartOfDay(currentTime);
    var checkoutTime :=
      if !Falsy(item.timestamp) && item.timestamp.Native? then Some(item.timestamp.millis)
      else if !Falsy(item.timestamp) then ToDate(item.timestamp, rt)
      else None;
    var isPreviousDayCheckout := Before(checkoutTime, todayStart);
    var isPastCutoffToday := currentTime > todayCutoff && Before(checkoutTime, todayCutoff);
    isPreviousDayCheckout || isPastCutoffToday
  }

  /** The status badge of a table row. */
  datatype Status = Active | Overdue

  function RowStatus(item: Item, currentTime: int, rt: Runtime): (s: Status)
    ensures Falsy(item.timestamp) ==> s == Active
    ensures s == Overdue <==> IsItemOverdue(item.timestamp, currentTime, rt)
  {
    if RowOverdue(item, currentTime, rt) then Overdue else Active
  }

  /** `item.lastCheckedOutBy || 'Unknown'`. */
  function CheckedOutBy(item: Item): (shown: string)
    ensures shown != ""
    ensures shown == "Unknown" || Some(shown) == item.lastCheckedOutBy
    ensures Truthy(item.lastCheckedOutBy) ==> shown == item.lastCheckedOutBy.value
  {
    if Truthy(item.lastCheckedOutBy) then item.lastCheckedOutBy.value
    else "Unknown"
  }

  /** The page's own `getReportData`, with its inline overdue callback. */
  function PageReportData(items: seq<Item>, period: string, now: int, currentTime: int, rt: Runtime): (r: ReportData)
    ensures r == GetReportData(items, period, now, currentTime, rt)
  {
    if |items| == 0 then
      ReportData([], 0, 0)
    else
      var startDate := WindowStart(period, now, rt);
      var periodItems := Filter(items, InWindowOf(startDate, rt));
      var overdueInPeriod := Filter(periodItems, ReportOverdueOf(currentTime, rt));
      FilterSamePredicate(periodItems, ReportOverdueOf(currentTime, rt), OverdueAt(currentTime, rt));
      ReportData(periodItems, |periodItems|, |overdueInPeriod|)
  }

  /** The page's own `getReportTitle`. */
  function PageReportTitle(period: string): (title: string)
    ensures title == GetReportTitle(period)
  {
    match period
    case "daily" => "Today's Report"
    case "weekly" => "Weekly Report (Last 7 Days)"
    case "monthly" => "Monthly Report (Last 30 Days)"
    case _ => "Inventory Report"
  }

  /** The "Checked Out Rate" card: `total ? Math.round((overdue / total) * 100) : 0`. */
  function PageRate(data: ReportData): (pct: int)
    ensures pct == OverdueRate(data)
  {
    if data.total != 0 then RoundQuotient(100 * data.overdue, data.total) else 0
  }

  /** The page component's state. */
  class Home {
    /** The `currentTime` the snapshot callback closed over when the page mounted: the
        subscribing effect has no dependencies, so later clock ticks never reach it. */
    const listenerTime: int
    var checkedOutItems: seq<Item>
    var overdueItems: seq<Item>
    var loading: bool
    var reportPeriod: string

    constructor (mountTime: int)
      ensures listenerTime == mountTime
      ensures checkedOutItems == [] && overdueItems == [] && loading && reportPeriod == DAILY
    {
      listenerTime := mountTime;
      checkedOutItems := [];
      overdueItems := [];
      loading := true;
      reportPeriod := DAILY;
    }

    /** The `onSnapshot` callback: replace the items, recompute the overdue list, stop loading. */
    method OnSnapshot(docs: seq<Doc>, rt: Runtime)
      modifies this
      ensures |checkedOutItems| == |docs|
      ensures forall k :: 0 <= k < |docs| ==> checkedOutItems[k] == ToItem(docs[k])
      ensures overdueItems == Filter(checkedOutItems, OverdueAt(listenerTime, rt))
      ensures !loading && reportPeriod == old(reportPeriod)
    {
      var items: seq<Item> := [];
      var i := 0;
      while i < |docs|
        invariant 0 <= i <= |docs|
        invariant |items| == i
        invariant forall k :: 0 <= k < i ==> items[k] == ToItem(docs[k])
      {
        items := items + [ToItem(docs[i])];
        i := i + 1;
      }
      checkedOutItems := items;
      var todayCutoff := PageCutoffTime(listenerTime);
      var todayStart := StartOfDay(listenerTime);
      var overdue := Filter(items, SnapshotOverdueOf(listenerTime, todayStart, todayCutoff, rt));
      FilterSamePredicate(items, SnapshotOverdueOf(listenerTime, todayStart, todayCutoff, rt), OverdueAt(listenerTime, rt));
      overdueItems := overdue;
      loading := false;
    }

    /** The subscription's error callback: only `loading` changes. */
    method OnSnapshotError()
      modifies this
      ensures !loading
      ensures checkedOutItems == old(checkedOutItems) && overdueItems == old(overdueItems)
      ensures reportPeriod == old(reportPeriod)
    {
      loading := false;
    }

    method SetReportPeriod(period: string)
      modifies this
      ensures reportPeriod == period
      ensures checkedOutItems == old(checkedOutItems) && overdueItems == old(overdueItems) && loading == old(loading)
    {
      reportPeriod := period;
    }
  }

  // ---------------------------------------------------------------------------
  // Properties

  /** The overdue list a snapshot produces keeps the snapshot's order, holds each overdue
      item as often as the snapshot does, and never holds an item without a timestamp. */
  lemma {:induction false} SnapshotOverdueList(items: seq<Item>, currentTime: int, rt: Runtime)
    ensures IsSubsequence(Filter(items, OverdueAt(currentTime, rt)), items)
    ensures forall x :: x in Filter(items, OverdueAt(currentTime, rt)) ==>
      (!Falsy(x.timestamp) && IsItemOverdue(x.timestamp, currentTime, rt))
    ensures forall x :: (multiset(Filter(items, OverdueAt(currentTime, rt)))[x]
      == if IsItemOverdue(x.timestamp, currentTime, rt) then multiset(items)[x] else 0)
  {
    FilterIsSubsequence(items, OverdueAt(currentTime, rt));
    forall x
      ensures multiset(Filter(items, OverdueAt(currentTime, rt)))[x]
        == if IsItemOverdue(x.timestamp, currentTime, rt) then multiset(items)[x] else 0
    {
      FilterMultiplicity(items, OverdueAt(currentTime, rt), x);
    }
  }

  /** The rate card of the page shows a percentage. */
  lemma PageRateIsPercentage(items: seq<Item>, period: string, now: int, currentTime: int, rt: Runtime)
    ensures 0 <= PageRate(PageReportData(items, period, now, currentTime, rt)) <= 100
  {
  }
}
