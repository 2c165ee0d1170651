/// The per-item summary of app/reports/page.js: documents grouped by name, with the
/// number of checkouts and of overdue checkouts per name, and the average per name.
module ItemsSummary {
  import opened DateUtils
  import opened Sequences
  import opened Rounding
  import Reports

  /** The fields of a report document that the summary reads. */
  datatype SummaryDoc = SummaryDoc(name: Option<string>, itemName: Option<string>, dueDate: Timestamp)

  /** One value of the summary dictionary, one row of the table. */
  datatype Entry = Entry(name: string, totalCheckouts: nat, overdueCount: nat)

  const UNNAMED: string := "Unnamed Item"

  /** The members every plain object inherits from `Object.prototype`. */
  const INHERITED_NAMES: set<string> := {
    "constructor", "__defineGetter__", "__defineSetter__", "hasOwnProperty",
    "__lookupGetter__", "__lookupSetter__", "isPrototypeOf", "propertyIsEnumerable",
    "toString", "valueOf", "__proto__", "toLocaleString"
  }

  /** `data.name || data.itemName || 'Unnamed Item'`. */
  function SummaryName(doc: SummaryDoc): (n: string)
    ensures n != ""
    ensures n == UNNAMED || Some(n) == doc.name || Some(n) == doc.itemName
  {
    if Truthy(doc.name) then doc.name.value
    else if Truthy(doc.itemName) then doc.itemName.value
    else UNNAMED
  }

  /** `data.dueDate?.toDate?.() < new Date()`: a missing due date, or one without `toDate`,
      compares as undefined and is never overdue. */
  predicate DocOverdue(doc: SummaryDoc, now: int)
    ensures !doc.dueDate.Native? ==> !DocOverdue(doc, now)
    ensures doc.dueDate.Native? ==> (DocOverdue(doc, now) <==> Before(Some(doc.dueDate.millis), now))
  {
    doc.dueDate.Native? && doc.dueDate.millis < now
  }

  // ---------------------------------------------------------------------------
  // The specification: distinct names in order of first appearance, and counts per name

  function Always(): SummaryDoc -> bool
  {
    (d: SummaryDoc) => true
  }

  function OverdueBy(now: int): SummaryDoc -> bool
  {
    (d: SummaryDoc) => DocOverdue(d, now)
  }

  /** The documents named `n` that satisfy `p`. */
  function NamedWhere(n: string, p: SummaryDoc -> bool): SummaryDoc -> bool
  {
    (d: SummaryDoc) => SummaryName(d) == n && p(d)
  }

  /** The names of `docs` without repetition, each where it first occurs. */
  function DistinctNames(docs: seq<SummaryDoc>): seq<string>
  {
    if docs == [] then []
    else
      var earlier := DistinctNames(docs[..|docs| - 1]);
      var n := SummaryName(docs[|docs| - 1]);
      if n in earlier then earlier else earlier + [n]
  }

  /** The entry the summary should hold for each name in `names`. */
  function EntriesFor(docs: seq<SummaryDoc>, names: seq<string>, now: int): (es: seq<Entry>)
    ensures |es| == |names|
  {
    if names == [] then []
    else [TallyFor(docs, names[0], now)] + EntriesFor(docs, names[1..], now)
  }

  ghost predicate NoDuplicates(names: seq<string>)
  {
    forall i, j :: 0 <= i < j < |names| ==> names[i] != names[j]
  }

  /** `reportData.reduce((sum, item) => sum + item.totalCheckouts, 0)`. */
  function SumTotals(es: seq<Entry>): (total: nat)
    ensures (forall e :: e in es ==> e.totalCheckouts >= 1) ==> total >= |es|
  {
    if es == [] then 0 else es[0].totalCheckouts + SumTotals(es[1..])
  }

  /** `reportData.reduce((sum, item) => sum + item.overdueCount, 0)`, the "Overdue Items" card. */
  function SumOverdue(es: seq<Entry>): (overdue: nat)
    ensures (forall e :: e in es ==> e.overdueCount <= e.totalCheckouts) ==> overdue <= SumTotals(es)
    ensures (forall e :: e in es ==> e.overdueCount == 0) ==> overdue == 0
  {
    if es == [] then 0 else es[0].overdueCount + SumOverdue(es[1..])
  }

  /** `avgCheckouts`. */
  function AvgCheckouts(es: seq<Entry>): (avg: int)
    ensures |es| == 0 ==> avg == 0
    ensures |es| > 0 ==> 2 * |es| * avg - |es| <= 2 * SumTotals(es) < 2 * |es| * avg + |es|
  {
    if |es| > 0 then RoundQuotient(SumTotals(es), |es|) else 0
  }

  // ---------------------------------------------------------------------------
  // The fold, with a dictionary that holds only its own keys

  /** The entry the summary should hold for `n` after the documents `docs`. */
  function TallyFor(docs: seq<SummaryDoc>, n: string, now: int): Entry
  {
    Entry(n, Count(docs, NamedWhere(n, Always())), Count(docs, NamedWhere(n, OverdueBy(now))))
  }

  /** The dictionary and its insertion order summarise exactly the documents `docs`. */
  ghost predicate Tallied(docs: seq<SummaryDoc>, itemsSummary: map<string, Entry>, order: seq<string>, now: int)
  {
    && order == DistinctNames(docs)
    && (forall n :: n in itemsSummary <==> n in order)
    && (forall n :: n in itemsSummary ==> itemsSummary[n] == TallyFor(docs, n, now))
  }

  /** The `forEach` over the query snapshot and `Object.values(itemsSummary)`. */
  method BuildSummary(docs: seq<SummaryDoc>, now: int) returns (entries: seq<Entry>)
    ensures entries == EntriesFor(docs, DistinctNames(docs), now)
  {
    var itemsSummary: map<string, Entry> := map[];
    var order: seq<string> := [];
    var i := 0;
    while i < |docs|
      invariant 0 <= i <= |docs|
      invariant Tallied(docs[..i], itemsSummary, order, now)
    {
      var data := docs[i];
      var itemName := SummaryName(data);
      var isOverdue := DocOverdue(data, now);
      ghost var before, beforeOrder := itemsSummary, order;
      if itemName !in itemsSummary {
        itemsSummary := itemsSummary[itemName := Entry(itemName, 1, if isOverdue then 1 else 0)];
        order := order + [itemName];
      } else {
        var entry := itemsSummary[itemName];
        entry := entry.(totalCheckouts := entry.totalCheckouts + 1);
        if isOverdue {
          entry := entry.(overdueCount := entry.overdueCount + 1);
        }
        itemsSummary := itemsSummary[itemName := entry];
      }
      assert docs[..i + 1] == docs[..i] + [data];
      TallyStep(docs[..i], data, before, beforeOrder, now);
      i := i + 1;
    }
    assert docs[..|docs|] == docs;
    entries := seq(|order|, k requires 0 <= k < |order| => itemsSummary[order[k]]);
    TalliedValues(docs, itemsSummary, order, now);
  }

  /** One more document: its name gains one checkout (and one overdue checkout if it is
      overdue), a new name is added at the end, and every other entry stays. */
  lemma TallyStep(docs: seq<SummaryDoc>, d: SummaryDoc, itemsSummary: map<string, Entry>, order: seq<string>, now: int)
    requires Tallied(docs, itemsSummary, order, now)
    ensures var n, o := SummaryName(d), DocOverdue(d, now);
      if n !in itemsSummary then
        Tallied(docs + [d], itemsSummary[n := Entry(n, 1, if o then 1 else 0)], order + [n], now)
      else
        var e := itemsSummary[n];
        Tallied(docs + [d], itemsSummary[n := Entry(n, e.totalCheckouts + 1, e.overdueCount + if o then 1 else 0)], order, now)
  {
    var n := SummaryName(d);
    assert (docs + [d])[..|docs|] == docs;
    forall m | m in itemsSummary || m == n
      ensures TallyFor(docs + [d], m, now)
           == if m == n then TallyFor(docs, m, now).(totalCheckouts := TallyFor(docs, m, now).totalCheckouts + 1,
                                                    overdueCount := TallyFor(docs, m, now).overdueCount + if DocOverdue(d, now) then 1 else 0)
              else TallyFor(docs, m, now)
    {
      CountAppend(docs, d, NamedWhere(m, Always()));
      CountAppend(docs, d, NamedWhere(m, OverdueBy(now)));
    }
    if n !in itemsSummary {
      UnlistedNameNotCounted(docs, n, Always());
      UnlistedNameNotCounted(docs, n, OverdueBy(now));
    }
  }

  /** `Object.values` of a dictionary that summarises `docs`, in insertion order. */
  lemma TalliedValues(docs: seq<SummaryDoc>, itemsSummary: map<string, Entry>, order: seq<string>, now: int)
    requires Tallied(docs, itemsSummary, order, now)
    ensures seq(|order|, k requires 0 <= k < |order| => itemsSummary[order[k]]) == EntriesFor(docs, order, now)
  {
    forall k | 0 <= k < |order|
      ensures itemsSummary[order[k]] == EntriesFor(docs, order, now)[k]
    {
      EntriesForAt(docs, order, now, k);
    }
  }

  /** The summary page's state. */
  class ReportsPage {
    var reportData: seq<Entry>
    var loading: bool
    var reportPeriod: string

    constructor ()
      ensures reportData == [] && loading && reportPeriod == Reports.DAILY
    {
      reportData := [];
      loading := true;
      reportPeriod := Reports.DAILY;
    }

    /** A period button: only the period changes (the effect then fetches again). */
    method SetReportPeriod(period: string)
      modifies this
      ensures reportPeriod == period && reportData == old(reportData) && loading == old(loading)
    {
      reportPeriod := period;
    }

    /** `setLoading(true)` at the start of a fetch. */
    method StartFetch()
      modifies this
      ensures loading && reportData == old(reportData) && reportPeriod == old(reportPeriod)
    {
      loading := true;
    }

    /** A fetch that delivered `docs`: the summary of the documents, whatever the period. */
    method FetchSucceeded(docs: seq<SummaryDoc>, now: int)
      modifies this
      ensures reportData == EntriesFor(docs, DistinctNames(docs), now)
      ensures !loading && reportPeriod == old(reportPeriod)
    {
      var entries := BuildSummary(docs, now);
      reportData := entries;
      loading := false;
    }

    /** A fetch that threw: logged, and `finally` clears `loading`; the data stays. */
    method FetchFailed()
      modifies this
      ensures !loading && reportData == old(reportData) && reportPeriod == old(reportPeriod)
    {
      loading := false;
    }
  }

  // ---------------------------------------------------------------------------
  // Properties of the specification

  lemma {:induction false} EntriesForAt(docs: seq<SummaryDoc>, names: seq<string>, now: int, k: nat)
    requires k < |names|
    ensures EntriesFor(docs, names, now)[k] == TallyFor(docs, names[k], now)
  {
    if k > 0 {
      EntriesForAt(docs, names[1..], now, k - 1);
    }
  }

  /** A name has an entry exactly when some document carries it. */
  lemma {:induction false} NameListedIffCounted(docs: seq<SummaryDoc>, n: string)
    ensures n in DistinctNames(docs) <==> Count(docs, NamedWhere(n, Always())) > 0
  {
    if docs != [] {
      var init := docs[..|docs| - 1];
      NameListedIffCounted(init, n);
      assert docs == init + [docs[|docs| - 1]];
      CountAppend(init, docs[|docs| - 1], NamedWhere(n, Always()));
    }
  }

  /** No name is listed twice. */
  lemma {:induction false} DistinctNamesNoDuplicates(docs: seq<SummaryDoc>)
    ensures NoDuplicates(DistinctNames(docs))
  {
    if docs != [] {
      DistinctNamesNoDuplicates(docs[..|docs| - 1]);
    }
  }

  /** Every document's name is listed. */
  lemma {:induction false} EveryNameListed(docs: seq<SummaryDoc>, k: nat)
    requires k < |docs|
    ensures SummaryName(docs[k]) in DistinctNames(docs)
  {
    NameListedIffCounted(docs, SummaryName(docs[k]));
    CountPositive(docs, k, NamedWhere(SummaryName(docs[k]), Always()));
  }

  lemma {:induction false} CountPositive<T>(s: seq<T>, k: nat, p: T -> bool)
    requires k < |s| && p(s[k])
    ensures Count(s, p) > 0
  {
    if k < |s| - 1 {
      CountPositive(s[..|s| - 1], k, p);
    }
  }

  /** Each entry counts at least one checkout and no more overdue checkouts than checkouts. */
  lemma {:induction false} EntriesWellFormed(docs: seq<SummaryDoc>, now: int, k: nat)
    requires k < |DistinctNames(docs)|
    ensures var e := EntriesFor(docs, DistinctNames(docs), now)[k];
      e.totalCheckouts >= 1 && e.overdueCount <= e.totalCheckouts
  {
    var names := DistinctNames(docs);
    EntriesForAt(docs, names, now, k);
    NameListedIffCounted(docs, names[k]);
    CountStrongerIsSmaller(docs, NamedWhere(names[k], OverdueBy(now)), NamedWhere(names[k], Always()));
  }

  /** The per-name counts of a list of names, summed. */
  function SumCounts(docs: seq<SummaryDoc>, names: seq<string>, p: SummaryDoc -> bool): nat
  {
    if names == [] then 0 else Count(docs, NamedWhere(names[0], p)) + SumCounts(docs, names[1..], p)
  }

  lemma {:induction false} SumsOfEntries(docs: seq<SummaryDoc>, names: seq<string>, now: int)
    ensures SumTotals(EntriesFor(docs, names, now)) == SumCounts(docs, names, Always())
    ensures SumOverdue(EntriesFor(docs, names, now)) == SumCounts(docs, names, OverdueBy(now))
  {
    if names != [] {
      SumsOfEntries(docs, names[1..], now);
    }
  }

  lemma {:induction false} SumCountsAppendName(docs: seq<SummaryDoc>, names: seq<string>, n: string, p: SummaryDoc -> bool)
    ensures SumCounts(docs, names + [n], p) == SumCounts(docs, names, p) + Count(docs, NamedWhere(n, p))
  {
    if names != [] {
      assert (names + [n])[1..] == names[1..] + [n];
      SumCountsAppendName(docs, names[1..], n, p);
    }
  }

  lemma {:induction false} SumCountsAppendDoc(docs: seq<SummaryDoc>, d: SummaryDoc, names: seq<string>, p: SummaryDoc -> bool)
    requires NoDuplicates(names)
    ensures SumCounts(docs + [d], names, p)
         == SumCounts(docs, names, p) + if SummaryName(d) in names && p(d) then 1 else 0
  {
    if names != [] {
      assert NoDuplicates(names[1..]) by {
        forall i, j | 0 <= i < j < |names| - 1 ensures names[1..][i] != names[1..][j] {
          assert names[1..][i] == names[i + 1] && names[1..][j] == names[j + 1];
        }
      }
      SumCountsAppendDoc(docs, d, names[1..], p);
      CountAppend(docs, d, NamedWhere(names[0], p));
      assert SummaryName(d) in names <==> SummaryName(d) == names[0] || SummaryName(d) in names[1..] by {
        assert names == [names[0]] + names[1..];
      }
      if SummaryName(d) == names[0] {
        assert names[0] !in names[1..] by {
          forall j | 0 <= j < |names| - 1 ensures names[1..][j] != names[0] {
            assert names[1..][j] == names[j + 1];
          }
        }
      }
    }
  }

  lemma {:induction false} UnlistedNameNotCounted(docs: seq<SummaryDoc>, n: string, p: SummaryDoc -> bool)
    requires n !in DistinctNames(docs)
    ensures Count(docs, NamedWhere(n, p)) == 0
  {
    NameListedIffCounted(docs, n);
    CountStrongerIsSmaller(docs, NamedWhere(n, p), NamedWhere(n, Always()));
  }

  /** Summed over the listed names, the per-name counts of `p` count every document satisfying `p` once. */
  lemma {:induction false} SumCountsOverNames(docs: seq<SummaryDoc>, p: SummaryDoc -> bool)
    ensures SumCounts(docs, DistinctNames(docs), p) == Count(docs, p)
  {
    if docs != [] {
      var init, d := docs[..|docs| - 1], docs[|docs| - 1];
      var earlier, n := DistinctNames(init), SummaryName(d);
      assert docs == init + [d];
      SumCountsOverNames(init, p);
      DistinctNamesNoDuplicates(init);
      SumCountsAppendDoc(init, d, earlier, p);
      CountAppend(init, d, p);
      if n !in earlier {
        SumCountsAppendName(docs, earlier, n, p);
        UnlistedNameNotCounted(init, n, p);
        CountAppend(init, d, NamedWhere(n, p));
      }
    }
  }

  lemma {:induction false} CountAlways(docs: seq<SummaryDoc>)
    ensures Count(docs, Always()) == |docs|
  {
    if docs != [] {
      CountAlways(docs[..|docs| - 1]);
    }
  }

  /** The checkouts of all entries add up to the number of documents. */
  lemma SummaryTotalsAddUp(docs: seq<SummaryDoc>, now: int)
    ensures SumTotals(EntriesFor(docs, DistinctNames(docs), now)) == |docs|
  {
    SumsOfEntries(docs, DistinctNames(docs), now);
    SumCountsOverNames(docs, Always());
    CountAlways(docs);
  }

  /** The overdue counts of all entries add up to the number of overdue documents. */
  lemma SummaryOverdueAddsUp(docs: seq<SummaryDoc>, now: int)
    ensures SumOverdue(EntriesFor(docs, DistinctNames(docs), now)) == Count(docs, OverdueBy(now))
  {
    SumsOfEntries(docs, DistinctNames(docs), now);
    SumCountsOverNames(docs, OverdueBy(now));
  }

  /** With at least one document the average number of checkouts per item is at least one. */
  lemma AverageAtLeastOne(docs: seq<SummaryDoc>, now: int)
    requires |docs| > 0
    ensures AvgCheckouts(EntriesFor(docs, DistinctNames(docs), now)) >= 1
  {
    var names := DistinctNames(docs);
    EveryNameListed(docs, 0);
    SummaryTotalsAddUp(docs, now);
    DistinctNamesShorter(docs);
    MulMonotone(|docs|, 1, |names|);
    RoundQuotientWithin(|docs|, |names|, 1, |docs|);
  }

  lemma {:induction false} DistinctNamesShorter(docs: seq<SummaryDoc>)
    ensures |DistinctNames(docs)| <= |docs|
  {
    if docs != [] {
      DistinctNamesShorter(docs[..|docs| - 1]);
    }
  }

  /** The summary holds exactly one entry per name: no two entries share a name, and
      every document's name has an entry. */
  lemma OneEntryPerName(docs: seq<SummaryDoc>, now: int)
    ensures var es := EntriesFor(docs, DistinctNames(docs), now);
      && (forall i, j :: 0 <= i < j < |es| ==> es[i].name != es[j].name)
      && (forall k :: 0 <= k < |docs| ==> exists i :: 0 <= i < |es| && es[i].name == SummaryName(docs[k]))
  {
    var names := DistinctNames(docs);
    var es := EntriesFor(docs, names, now);
    DistinctNamesNoDuplicates(docs);
    forall i | 0 <= i < |es|
      ensures es[i].name == names[i]
    {
      EntriesForAt(docs, names, now, i);
    }
    forall k | 0 <= k < |docs|
      ensures exists i :: 0 <= i < |es| && es[i].name == SummaryName(docs[k])
    {
      EveryNameListed(docs, k);
      var i :| 0 <= i < |names| && names[i] == SummaryName(docs[k]);
      assert es[i].name == names[i];
    }
  }

  /** When no document carries a store-native due date, no entry counts an overdue checkout. */
  lemma {:induction false} UndatedNeverOverdue(docs: seq<SummaryDoc>, now: int)
    requires forall k :: 0 <= k < |docs| ==> !docs[k].dueDate.Native?
    ensures SumOverdue(EntriesFor(docs, DistinctNames(docs), now)) == 0
    ensures forall e :: e in EntriesFor(docs, DistinctNames(docs), now) ==> e.overdueCount == 0
  {
    var names := DistinctNames(docs);
    var es := EntriesFor(docs, names, now);
    SummaryOverdueAddsUp(docs, now);
    FilterLengthIsCount(docs, OverdueBy(now));
    FilterKeepsNone(docs, OverdueBy(now));
    forall e | e in es
      ensures e.overdueCount == 0
    {
      var i :| 0 <= i < |es| && es[i] == e;
      EntriesForAt(docs, names, now, i);
      CountStrongerIsSmaller(docs, NamedWhere(names[i], OverdueBy(now)), OverdueBy(now));
    }
  }

  /** The name fallback: `name` when truthy, else `itemName` when truthy, else 'Unnamed Item'. */
  lemma NameFallback(doc: SummaryDoc)
    ensures Truthy(doc.name) ==> SummaryName(doc) == doc.name.value
    ensures !Truthy(doc.name) && Truthy(doc.itemName) ==> SummaryName(doc) == doc.itemName.value
    ensures !Truthy(doc.name) && !Truthy(doc.itemName) ==> SummaryName(doc) == UNNAMED
  {
  }

  // ---------------------------------------------------------------------------
  // The fold as written: `itemsSummary` is a plain `{}`, so `!itemsSummary[itemName]`
  // also sees the members every object inherits from `Object.prototype`.

  datatype Dict = Dict(order: seq<string>, byName: map<string, Entry>)

  /** One `forEach` step as written. Only the document's own name can change, and the
      insertion order grows by at most that name. */
  function StepAsWritten(dict: Dict, doc: SummaryDoc, now: int): (next: Dict)
    ensures forall n :: n != SummaryName(doc) ==>
      (n in next.byName <==> n in dict.byName) && (n in dict.byName ==> next.byName[n] == dict.byName[n])
    ensures next.order == dict.order || next.order == dict.order + [SummaryName(doc)]
    ensures SummaryName(doc) in INHERITED_NAMES && SummaryName(doc) !in dict.byName ==> next == dict
  {
    var itemName := SummaryName(doc);
    var isOverdue := DocOverdue(doc, now);
    if itemName !in dict.byName && itemName !in INHERITED_NAMES then
      Dict(dict.order + [itemName], dict.byName[itemName := Entry(itemName, 1, if isOverdue then 1 else 0)])
    else if itemName in dict.byName then
      var e := dict.byName[itemName];
      Dict(dict.order, dict.byName[itemName := Entry(itemName, e.totalCheckouts + 1, e.overdueCount + if isOverdue then 1 else 0)])
    else
      // The increments land on the inherited member (making it NaN); no own key is added.
      dict
  }

  /** The whole `forEach` as written: the own keys are exactly the insertion order, each
      entry carries its key as its name, and no inherited name ever becomes an own key. */
  function FoldAsWritten(docs: seq<SummaryDoc>, now: int): (dict: Dict)
    ensures forall n :: n in dict.byName <==> n in dict.order
    ensures forall n :: n in dict.byName ==> dict.byName[n].name == n && n !in INHERITED_NAMES
    ensures |dict.order| <= |docs|
  {
    if docs == [] then Dict([], map[])
    else StepAsWritten(FoldAsWritten(docs[..|docs| - 1], now), docs[|docs| - 1], now)
  }

  /** `Object.values` over the insertion order: only keys present in the dictionary give a value. */
  function Values(order: seq<string>, byName: map<string, Entry>): (vs: seq<Entry>)
    ensures |vs| <= |order|
    ensures forall e :: e in vs ==> e in byName.Values
  {
    if order == [] then []
    else (if order[0] in byName then [byName[order[0]]] else []) + Values(order[1..], byName)
  }

  /** `Object.values(itemsSummary)` after the fold as written: no entry carries an inherited name. */
  function SummarizeAsWritten(docs: seq<SummaryDoc>, now: int): (es: seq<Entry>)
    ensures forall e :: e in es ==> e.name !in INHERITED_NAMES
  {
    var dict := FoldAsWritten(docs, now);
    Values(dict.order, dict.byName)
  }

  /** A document whose name is not inherited has its own name. */
  function OwnName(): SummaryDoc -> bool
  {
    (d: SummaryDoc) => SummaryName(d) !in INHERITED_NAMES
  }

  /** As written, the documents with inherited names leave no trace: the fold over all
      documents is the fold over those whose name is not inherited. */
  lemma {:induction false} FoldAsWrittenSkipsInherited(docs: seq<SummaryDoc>, now: int)
    ensures FoldAsWritten(docs, now) == FoldAsWritten(Filter(docs, OwnName()), now)
  {
    if docs != [] {
      var init, d := docs[..|docs| - 1], docs[|docs| - 1];
      assert docs == init + [d];
      FoldAsWrittenSkipsInherited(init, now);
      FilterAppend(init, d, OwnName());
      var kept := Filter(init, OwnName());
      var before := FoldAsWritten(init, now);
      assert FoldAsWritten(docs, now) == StepAsWritten(before, d, now);
      if OwnName()(d) {
        var keptD := kept + [d];
        assert Filter(docs, OwnName()) == keptD;
        assert keptD[..|keptD| - 1] == kept && keptD[|keptD| - 1] == d;
        assert FoldAsWritten(keptD, now) == StepAsWritten(FoldAsWritten(kept, now), d, now);
      } else {
        assert Filter(docs, OwnName()) == kept;
        assert SummaryName(d) !in before.byName;
        assert StepAsWritten(before, d, now) == before;
      }
    }
  }

  /** Over documents whose names are not inherited, the fold as written builds the
      dictionary the corrected fold builds. */
  lemma {:induction false} FoldAsWrittenTallies(docs: seq<SummaryDoc>, now: int)
    requires forall k :: 0 <= k < |docs| ==> SummaryName(docs[k]) !in INHERITED_NAMES
    ensures Tallied(docs, FoldAsWritten(docs, now).byName, FoldAsWritten(docs, now).order, now)
  {
    if docs != [] {
      var init, d := docs[..|docs| - 1], docs[|docs| - 1];
      assert docs == init + [d];
      FoldAsWrittenTallies(init, now);
      var dict := FoldAsWritten(init, now);
      TallyStep(init, d, dict.byName, dict.order, now);
    }
  }

  /** `Object.values` of a dictionary holding the specified entry for every listed name. */
  lemma {:induction false} ValuesOfTallies(docs: seq<SummaryDoc>, order: seq<string>, byName: map<string, Entry>, now: int)
    requires forall n :: n in order ==> n in byName && byName[n] == TallyFor(docs, n, now)
    ensures Values(order, byName) == EntriesFor(docs, order, now)
  {
    if order != [] {
      assert order[0] in order;
      assert forall n :: n in order[1..] ==> n in order;
      ValuesOfTallies(docs, order[1..], byName, now);
    }
  }

  /** Where no document carries an inherited name, the fold as written and the corrected
      fold agree. */
  lemma AsWrittenAgreesOffPrototype(docs: seq<SummaryDoc>, now: int)
    requires forall k :: 0 <= k < |docs| ==> SummaryName(docs[k]) !in INHERITED_NAMES
    ensures SummarizeAsWritten(docs, now) == EntriesFor(docs, DistinctNames(docs), now)
  {
    var dict := FoldAsWritten(docs, now);
    FoldAsWrittenTallies(docs, now);
    ValuesOfTallies(docs, dict.order, dict.byName, now);
  }

  /** In general the summary as written is the corrected summary of the documents whose
      names are not inherited, so it counts only their checkouts, and it falls short of the
      number of documents as soon as one carries an inherited name. */
  lemma AsWrittenSummarisesOwnNames(docs: seq<SummaryDoc>, now: int)
    ensures var own := Filter(docs, OwnName());
      SummarizeAsWritten(docs, now) == EntriesFor(own, DistinctNames(own), now)
    ensures SumTotals(SummarizeAsWritten(docs, now)) == Count(docs, OwnName())
    ensures (exists k :: 0 <= k < |docs| && SummaryName(docs[k]) in INHERITED_NAMES) ==>
      SumTotals(SummarizeAsWritten(docs, now)) < |docs|
  {
    var own := Filter(docs, OwnName());
    FoldAsWrittenSkipsInherited(docs, now);
    forall k | 0 <= k < |own|
      ensures SummaryName(own[k]) !in INHERITED_NAMES
    {
      assert own[k] in own;
    }
    AsWrittenAgreesOffPrototype(own, now);
    SummaryTotalsAddUp(own, now);
    FilterLengthIsCount(docs, OwnName());
    FilterKeepsAll(docs, OwnName());
  }

  /** A document named "constructor" disappears from the summary as written, so the
      checkouts no longer add up to the number of documents; the corrected fold lists it. */
  lemma InheritedNameDropped(now: int)
    ensures var docs := [SummaryDoc(Some("constructor"), None, Absent)];
      SummarizeAsWritten(docs, now) == []
      && SumTotals(SummarizeAsWritten(docs, now)) != |docs|
      && EntriesFor(docs, DistinctNames(docs), now) == [Entry("constructor", 1, 0)]
  {
    var docs := [SummaryDoc(Some("constructor"), None, Absent)];
    assert docs[..0] == [];
    assert FoldAsWritten(docs, now) == Dict([], map[]);
    assert DistinctNames(docs) == ["constructor"];
    assert docs[..|docs| - 1] == [];
    assert Count(docs, NamedWhere("constructor", Always())) == 1;
    assert Count(docs, NamedWhere("constructor", OverdueBy(now))) == 0;
  }
}
