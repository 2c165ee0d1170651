# Inventory management admin: overdue rule and reports, in Dafny

This project models the logic of an inventory check-out dashboard:

- **The overdue rule.** An item is overdue once its checkout is from an earlier day. It is also overdue when the clock is past today's 17:00 return cutoff and the item went out before that cutoff. The rule is `isItemOverdue` with `getCutoffTime` in `app/utils/dateUtils.js`. The dashboard page repeats it inline four times, and each copy is proved equal to it.
- **The period report.** A period (daily, weekly, monthly, or anything else) picks a window start. The checked-out items whose checkout falls at or after that start are kept in order and counted as `{items, total, overdue}`. The report has a title and an overdue-rate card.
- **The per-name summary** of the summary page. Checkout documents are grouped by a fallback name, with the number of checkouts and of overdue checkouts per name, two totals and an average.
- **The page state** that the live snapshot handler and the fetch update.

Modules, one file each:

| file | module | models |
|---|---|---|
| `date_utils.dfy` | `DateUtils` | `app/utils/dateUtils.js` |
| `use_reports.dfy` | `Reports` | `app/hooks/useReports.js` |
| `report_summary.dfy` | `ReportSummary` | `app/components/ReportsPanel/ReportSummary.js` |
| `home_page.dfy` | `HomePage` | `app/page.js` (the `Home` component) |
| `items_summary.dfy` | `ItemsSummary` | `app/reports/page.js` (the `ReportsPage` component) |
| `sequences.dfy` | `Sequences` | `Array.prototype.filter` and counting, with their laws |
| `rounding.dfy` | `Rounding` | `Math.round` of a quotient |

Modelling choices:

- **Instants** are integers: milliseconds of a naive local clock. So `setHours(0, 0, 0, 0)` is `t - t % MS_PER_DAY`, and a day is always 86 400 000 ms.
- **A timestamp field** is `Absent`, a store-native timestamp `Native(millis)` (the one with `toDate()`), or a string `Str(text)`. The falsy ones are `Absent` and `Str("")`.
- **Unparsable dates.** A Date that is invalid (NaN), or a `checkoutTime` left `undefined`, is `None`. Every comparison with `None` is false, as every JavaScript comparison with NaN is.
- **The JavaScript runtime** is a parameter `Runtime`. It carries the `Date` string parser and `setMonth(getMonth() - 1)`. The model does not define either one. It only requires that stepping a month back lands 28 to 31 days earlier.
- **Clock readings** are parameters. `useReports` reads the clock twice: `currentTime` for the overdue rule and `now` for the window.
- **The dashboard's snapshot callback** is registered once, with `[]` dependencies. It therefore always sees the `currentTime` of mount, which is the constant `Home.listenerTime`.
- **Mutable page state.** The page components become classes whose fields are the `useState` variables. Each setter call becomes a method with a `modifies` clause. The snapshot handler's `forEach`/`push` loop and the summary's `forEach` fold are `while` loops. Each loop is proved against a specification function.

Where the written specification and the code disagree, the model follows the code:

- The specification describes manual "overdue" and "active" override flags on the overdue classifier. No such flag exists in `isItemOverdue`, in the page's inline copies or in any document field the code reads, so none is modelled.
- The monthly title says "Last 30 Days", but the window is one calendar month back, 28 to 31 days. The model keeps both exactly as the code has them.

## Model

| member | source | states |
|---|---|---|
| `DateUtils.StartOfDay` | app/utils/dateUtils.js:34-35 | midnight of the day of `t`: at most `t`, less than a day before it, a whole number of days |
| `DateUtils.CutoffTime` | app/utils/dateUtils.js:15-20 | the cutoff is on the same day as its argument, exactly 17 hours after that day's midnight |
| `DateUtils.IsItemOverdue` | app/utils/dateUtils.js:23-45 | the overdue rule itself; an item it calls overdue has a valid checkout instant strictly before `currentTime` |
| `DateUtils.FormatDateTime` | app/utils/dateUtils.js:2-12 | 'No date available' exactly when the timestamp is falsy; otherwise it renders the timestamp's checkout instant (or Invalid Date) |
| `DateUtils.CutoffIdempotent` | app/utils/dateUtils.js:15-20 | taking the cutoff of a cutoff changes nothing |
| `DateUtils.CutoffSameDay` | app/utils/dateUtils.js:15-20 | two instants of the same day have the same cutoff |
| `DateUtils.OverdueIffBeforeDeadline` | app/utils/dateUtils.js:23-45 | overdue exactly when the checkout precedes the deadline in force: today's 17:00 once it has passed, else today's midnight |
| `DateUtils.FalsyNeverOverdue` | app/utils/dateUtils.js:24 | a missing or empty timestamp is never overdue |
| `DateUtils.InvalidDateNeverOverdue` | app/utils/dateUtils.js:26-31 | a timestamp that gives an Invalid Date is never overdue |
| `DateUtils.PreviousDayCheckoutIsOverdue` | app/utils/dateUtils.js:34-38 | a checkout on an earlier day is overdue at every time of day |
| `DateUtils.SameDayBeforeCutoffIsActive` | app/utils/dateUtils.js:41-44 | up to and including 17:00, a checkout from today or later is not overdue |
| `DateUtils.AtOrAfterCutoffIsActive` | app/utils/dateUtils.js:38-44 | a checkout at or after today's cutoff, including a future one, is never overdue |
| `DateUtils.PastCutoffIsOverdue` | app/utils/dateUtils.js:41-42 | after 17:00, a checkout before 17:00 is overdue |
| `DateUtils.EarlierCheckoutIsOverdue` | app/utils/dateUtils.js:37-44 | if a checkout is overdue, every earlier checkout is overdue too |
| `DateUtils.DeadlineMonotone` | app/utils/dateUtils.js:33-42 | the deadline the rule compares against never moves back as the clock advances |
| `DateUtils.OverdueStaysOverdue` | app/utils/dateUtils.js:23-45 | an item overdue at one time is overdue at every later time |
| `DateUtils.JuneTenthExample` | app/utils/dateUtils.js:23-45 | on 2025-06-10, a 09:00 checkout is active at 16:00 and overdue at 17:30, and the previous evening's 23:00 checkout is overdue at 08:00 |
| `Sequences.Filter` | app/hooks/useReports.js:36-47 | `filter` keeps exactly the elements that pass, never more than the input |
| `Sequences.FilterIsSubsequence` | app/hooks/useReports.js:36-47 | `filter` keeps its input's order: the result is a subsequence |
| `Sequences.FilterMultiplicity` | app/hooks/useReports.js:36-47 | `filter` keeps every passing element as often as the input holds it, and no other element |
| `Sequences.FilterLengthIsCount` | app/hooks/useReports.js:50 | the length of a filtered list is the number of passing elements |
| `Rounding.RoundQuotient` | app/components/ReportsPanel/ReportSummary.js:17 | `Math.round(num / den)` is the integer within half a unit of the exact quotient, with halves rounding up |
| `Rounding.RoundQuotientMonotone` | app/components/ReportsPanel/ReportSummary.js:17 | a larger numerator never rounds lower |
| `Rounding.RoundQuotientWithin` | app/reports/page.js:48-49 | a quotient between two integers rounds to a value between them |
| `Reports.WindowStart` | app/hooks/useReports.js:17-33 | the window starts at most 31 days before `now` and never after it; daily and unrecognised periods start at today's midnight |
| `Reports.InWindow` | app/hooks/useReports.js:36-47 | an item is in the window exactly when its checkout is a valid Date at or after the start; missing timestamps and Invalid Dates never are |
| `Reports.GetReportData` | app/hooks/useReports.js:10-57 | `items` is the order-preserving subsequence of inputs with a truthy timestamp at or after the window start; `total` is its length; `overdue` counts its overdue items, so it is at most `total` |
| `Reports.GetReportTitle` | app/hooks/useReports.js:60-67 | the generic 'Inventory Report' title exactly for unrecognised periods |
| `Reports.ReportsHook.constructor` | app/hooks/useReports.js:6 | the period starts as 'daily' |
| `Reports.ReportsHook.SetReportPeriod` | app/hooks/useReports.js:6 | the setter stores the given period |
| `Reports.EmptyInputEmptyReport` | app/hooks/useReports.js:11 | no items: `{items: [], total: 0, overdue: 0}` whatever the period and clock |
| `Reports.ReportKeepsMultiplicity` | app/hooks/useReports.js:36-47 | each item is reported as often as it occurs in the input when it is in the window, and otherwise never |
| `Reports.AllOverdueIffCountIsTotal` | app/hooks/useReports.js:50-56 | `overdue == total` exactly when every reported item is overdue |
| `Reports.NoneOverdueIffCountIsZero` | app/hooks/useReports.js:50-56 | `overdue == 0` exactly when no reported item is overdue |
| `Reports.WeeklyWindowNotTruncated` | app/hooks/useReports.js:23-25 | the weekly window starts exactly 7 days before `now`, at `now`'s time of day, not at midnight |
| `Reports.WindowsNested` | app/hooks/useReports.js:17-33 | monthly start ≤ weekly start < daily start ≤ `now` |
| `Reports.InWindowWidens` | app/hooks/useReports.js:36-47 | an item in a later-starting window is in every earlier-starting one |
| `Reports.ReportsNested` | app/hooks/useReports.js:10-57 | the daily items are a subsequence of the weekly items, which are a subsequence of the monthly items |
| `Reports.UnrecognisedPeriodReportsToday` | app/hooks/useReports.js:30-33 | an unrecognised period reports the daily window under a different title |
| `Reports.TitleIdentifiesPeriod` | app/hooks/useReports.js:60-67 | two periods share a title exactly when they are equal or both unrecognised |
| `ReportSummary.OverdueRate` | app/components/ReportsPanel/ReportSummary.js:17 | 0 when `total` is 0; otherwise the rounded value of `100 * overdue / total`, which lies in 0..100 when `overdue <= total` |
| `ReportSummary.Summary` | app/components/ReportsPanel/ReportSummary.js:3-22 | the cards show `total` and `overdue` unchanged, and a rate that is a percentage |
| `ReportSummary.NoneOverdueRateZero` | app/components/ReportsPanel/ReportSummary.js:17 | no overdue items out of some: 0 % |
| `ReportSummary.AllOverdueRateHundred` | app/components/ReportsPanel/ReportSummary.js:17 | all items overdue: 100 % |
| `ReportSummary.RateMonotoneInOverdue` | app/components/ReportsPanel/ReportSummary.js:17 | more overdue items out of the same total never lower the rate |
| `ReportSummary.ReportRateIsPercentage` | app/components/ReportsPanel/ReportSummary.js:17 | the rate of every report `getReportData` produces is in 0..100 |
| `HomePage.PageCutoffTime` | app/page.js:21-27 | the page's own `getCutoffTime` is the shared cutoff |
| `HomePage.ToItem` | app/page.js:61-64 | `{ id: doc.id, ...doc.data() }`: the document id unless the stored fields carry an `id`, which wins; every other field as stored |
| `HomePage.SnapshotOverdue` | app/page.js:69-97 | with the day bounds the handler computes from `currentTime`, the snapshot's overdue callback holds exactly when `isItemOverdue` does |
| `HomePage.ReportOverdue` | app/page.js:151-171 | the report's inline overdue callback holds exactly when `isItemOverdue` does |
| `HomePage.RowOverdue` | app/page.js:316-338 | the row test, where a falsy timestamp leaves `checkoutTime` undefined, holds exactly when `isItemOverdue` does (the report rows at 488-502 are the same test) |
| `HomePage.RowStatus` | app/page.js:316-338 | a row without a timestamp shows Active; a row shows Overdue exactly when `isItemOverdue` holds (likewise for the report rows at 488-502) |
| `HomePage.CheckedOutBy` | app/page.js:346 | the stored `lastCheckedOutBy` when truthy, else 'Unknown' |
| `HomePage.PageReportData` | app/page.js:111-178 | the page's copy of `getReportData`, with its own overdue callback, returns what the hook's returns |
| `HomePage.PageReportTitle` | app/page.js:204-211 | the page's title lookup is the hook's |
| `HomePage.PageRate` | app/page.js:431 | the page's 'Checked Out Rate' is the overdue rate of the report card |
| `HomePage.Home.constructor` | app/page.js:9-14 | the page starts with empty lists, loading, period 'daily', and the snapshot callback fixed to the mount time |
| `HomePage.Home.OnSnapshot` | app/page.js:58-100 | the item list becomes the snapshot's documents in order (a stored `id` overriding the document id); the overdue list is the order-preserving filter of those items by the overdue rule at mount time; loading ends |
| `HomePage.Home.OnSnapshotError` | app/page.js:101-104 | a subscription error only clears `loading` |
| `HomePage.Home.SetReportPeriod` | app/page.js:14 | the setter changes the period and nothing else |
| `HomePage.SnapshotOverdueList` | app/page.js:80-97 | the overdue list keeps the snapshot's order, holds each overdue item as often as the snapshot does, and never holds an item without a timestamp |
| `HomePage.PageRateIsPercentage` | app/page.js:431 | the page's rate card always shows a value in 0..100 |
| `ItemsSummary.SummaryName` | app/reports/page.js:22 | the name is non-empty and is `name`, `itemName` or 'Unnamed Item' |
| `ItemsSummary.NameFallback` | app/reports/page.js:22 | `name` when truthy, else `itemName` when truthy, else 'Unnamed Item' |
| `ItemsSummary.DocOverdue` | app/reports/page.js:23 | a due date without `toDate` is never overdue; a store-native one is overdue exactly when it is before the fetch's clock reading |
| `ItemsSummary.SumTotals` | app/reports/page.js:48-49 | the summed checkouts are at least the number of entries when every entry has a checkout |
| `ItemsSummary.SumOverdue` | app/reports/page.js:87 | the 'Overdue Items' sum never exceeds the summed checkouts of well-formed entries, and is 0 when no entry has an overdue checkout |
| `ItemsSummary.AvgCheckouts` | app/reports/page.js:48-49 | 0 with no entries; otherwise the mean of the checkouts per entry rounded to the nearest integer |
| `ItemsSummary.BuildSummary` | app/reports/page.js:18-37 | the corrected fold, over a dictionary holding only its own keys: one entry per distinct name in order of first appearance, holding that name's checkouts and overdue checkouts |
| `ItemsSummary.TallyStep` | app/reports/page.js:25-34 | in the corrected fold, one document adds a checkout (and an overdue one if overdue) to its name's entry, creating it at the end if new, and leaves every other entry alone |
| `ItemsSummary.TalliedValues` | app/reports/page.js:37 | `Object.values` of the corrected fold's finished dictionary, in insertion order, is the specified list of entries |
| `ItemsSummary.ReportsPage.constructor` | app/reports/page.js:7-9 | no data, loading, period 'daily' |
| `ItemsSummary.ReportsPage.SetReportPeriod` | app/reports/page.js:63 | a period button changes only the period |
| `ItemsSummary.ReportsPage.StartFetch` | app/reports/page.js:14 | a fetch starts by setting `loading` |
| `ItemsSummary.ReportsPage.FetchSucceeded` | app/reports/page.js:11-46 | the data becomes the corrected summary of the fetched documents whatever the period; loading ends |
| `ItemsSummary.ReportsPage.FetchFailed` | app/reports/page.js:38-42 | a failed fetch keeps the data and clears `loading` |
| `ItemsSummary.NameListedIffCounted` | app/reports/page.js:25-30 | a name has an entry exactly when some document carries it |
| `ItemsSummary.DistinctNamesNoDuplicates` | app/reports/page.js:25-30 | no name is listed twice |
| `ItemsSummary.EveryNameListed` | app/reports/page.js:20-30 | every document's name is listed |
| `ItemsSummary.OneEntryPerName` | app/reports/page.js:25-37 | no two entries share a name, and every document's name has an entry |
| `ItemsSummary.EntriesWellFormed` | app/reports/page.js:28-33 | every entry has at least one checkout and no more overdue checkouts than checkouts |
| `ItemsSummary.SummaryTotalsAddUp` | app/reports/page.js:28-32 | the checkouts of all entries add up to the number of documents |
| `ItemsSummary.SummaryOverdueAddsUp` | app/reports/page.js:87 | the 'Overdue Items' card equals the number of overdue documents |
| `ItemsSummary.UndatedNeverOverdue` | app/reports/page.js:23 | with no store-native due date among the documents, no entry counts an overdue checkout |
| `ItemsSummary.AverageAtLeastOne` | app/reports/page.js:48-49 | with at least one document the average checkouts per item is at least 1 |
| `ItemsSummary.StepAsWritten` | app/reports/page.js:25-34 | one step of the fold as written changes only the document's own name, grows the order by at most that name, and leaves the dictionary as it was for an inherited name it does not own |
| `ItemsSummary.FoldAsWritten` | app/reports/page.js:18-35 | as written, the own keys are exactly the insertion order, each entry is named by its key, and no inherited name ever becomes an own key |
| `ItemsSummary.Values` | app/reports/page.js:37 | `Object.values` yields at most one value per listed key, each a value of the dictionary |
| `ItemsSummary.SummarizeAsWritten` | app/reports/page.js:18-37 | the summary as written never holds an entry with an inherited name |
| `ItemsSummary.FoldAsWrittenSkipsInherited` | app/reports/page.js:25-34 | as written, the fold over all documents equals the fold over the documents whose names are not inherited |
| `ItemsSummary.FoldAsWrittenTallies` | app/reports/page.js:18-35 | over documents without inherited names, the fold as written builds the corrected fold's dictionary |
| `ItemsSummary.ValuesOfTallies` | app/reports/page.js:37 | `Object.values` of a dictionary holding the specified entry for every listed name is the specified list |
| `ItemsSummary.AsWrittenAgreesOffPrototype` | app/reports/page.js:18-37 | when no document carries an inherited name, the summary as written equals the corrected one |
| `ItemsSummary.AsWrittenSummarisesOwnNames` | app/reports/page.js:18-37 | for every input, the summary as written is the corrected summary of the documents without inherited names; its checkouts add up to their number, short of the document count whenever one name is inherited |
| `ItemsSummary.InheritedNameDropped` | app/reports/page.js:25-34 | as written, a document named 'constructor' vanishes from the summary and the totals stop adding up; the corrected fold lists it once |

## Left out

- ItemsSummary.ReportsPage.FetchSucceeded: stores the corrected summary (`BuildSummary`), not the one the code as written produces. The two differ only for documents named after an inherited `Object.prototype` member. The as-written summary is `SummarizeAsWritten`, and `AsWrittenSummarisesOwnNames` states exactly what it loses (see Findings).
- **Firestore I/O.** The fetch and the live subscription are not modelled. The model starts from an already delivered sequence of documents, and the subscription's cleanup is not modelled either.
- **Timers and the ticking clock** (`app/page.js:31-37`, `app/hooks/useRealtimeClock.js`). The snapshot callback never sees a tick anyway, because it keeps the mount-time `currentTime`. The other clock readings are parameters.
- **The simulated e-mail send** (`handleSendEmail`, `sendingEmail`, `emailSent`, and `EmailReportForm.js`). It is only timers around UI flags; nothing is sent.
- **Locale formatting** (`toLocaleString` and friends). `FormatDateTime` returns the instant to be rendered, not the text.
- **Time zones and daylight saving.** The "MST" in the comments is not implemented by the code, which uses the process's local clock. The model's days are uniform 24-hour days of a naive clock.
- **The `Date` string parser and calendar months** are the `Runtime` parameter. The model assumes only that one month back is 28 to 31 days back.
- **Floating point.** The rate and the average divide as floats before `Math.round`. The model rounds the exact rational quotient, halves up, and a float quotient that lands next to a half could round the other way.
- **Stored fields of a type other than string or timestamp** (numbers, booleans, objects in `name` or `timestamp`) are not modelled.
- **The order of `Object.values`.** It lists integer-like keys (a name such as "42") first, in numeric order. The model keeps insertion order for all names.
- **`new Date()` per document.** The summary reads the clock once per document (`app/reports/page.js:23`). The model uses one `now` for the whole fold.
- **Three calls where the model has one.** `app/page.js:431` calls `getReportData()` three times, and each call reads the clock. The model takes one report for all three.
- **`app/api/generateReport/route.js`** serves mock data with its own rate formula. It is not part of this model.
- **Pure presentation components** (tabs, period selector, header, tables) are not part of this model. The only logic they carry is rendering.

## Findings

| source | as written | input that shows it | evidently intended | confidence | as-written member | corrected member |
|---|---|---|---|---|---|---|
| app/reports/page.js:18-34 | `itemsSummary` is a plain `{}`, so `!itemsSummary[itemName]` also sees the members every object inherits from `Object.prototype`; for such a name the else-branch adds to the inherited member and no own key is created | one document whose `name` is "constructor" (likewise "toString", "valueOf", "__proto__", ...) | every name gets its own entry and the checkouts add up to the number of documents | not executed | `ItemsSummary.SummarizeAsWritten`, with `ItemsSummary.InheritedNameDropped` and `ItemsSummary.AsWrittenSummarisesOwnNames` | `ItemsSummary.BuildSummary`, with `ItemsSummary.SummaryTotalsAddUp` |
