/// The three summary cards of app/components/ReportsPanel/ReportSummary.js.
module ReportSummary {
  import opened Reports
  import opened Rounding

  /** What the cards display: the two counts as given and the overdue rate in percent. */
  datatype Cards = Cards(totalItems: nat, overdueItems: nat, overdueRate: int)

  /** `reportData.total ? Math.round((reportData.overdue / reportData.total) * 100) : 0`. */
  function OverdueRate(data: ReportData): (pct: int)
    ensures data.total == 0 ==> pct == 0
    ensures data.total > 0 ==>
      2 * data.total * pct - data.total <= 200 * data.overdue < 2 * data.total * pct + data.total
    ensures data.overdue <= data.total ==> 0 <= pct <= 100
  {
    if data.total != 0 then
      var pct := RoundQuotient(100 * data.overdue, data.total);
      assert data.overdue <= data.total ==> 0 <= pct <= 100 by {
        if data.overdue <= data.total {
          RoundQuotientWithin(100 * data.overdue, data.total, 0, 100);
        }
      }
      pct
    else 0
  }

  /** The rendered component. */
  function Summary(data: ReportData): (cards: Cards)
    ensures cards.totalItems == data.total && cards.overdueItems == data.overdue
    ensures cards.overdueRate == OverdueRate(data)
    ensures data.overdue <= data.total ==> 0 <= cards.overdueRate <= 100
  {
    Cards(data.total, data.overdue, OverdueRate(data))
  }

  /** No overdue items among some: 0 %. */
  lemma {:induction false} NoneOverdueRateZero(data: ReportData)
    requires data.total > 0 && data.overdue == 0
    ensures OverdueRate(data) == 0
  {
    RoundQuotientExact(0, data.total);
  }

  /** Every item overdue: 100 %. */
  lemma {:induction false} AllOverdueRateHundred(data: ReportData)
    requires data.total > 0 && data.overdue == data.total
    ensures OverdueRate(data) == 100
  {
    RoundQuotientExact(100, data.total);
  }

  /** More overdue items out of the same total never lower the rate. */
  lemma {:induction false} RateMonotoneInOverdue(d1: ReportData, d2: ReportData)
    requires d1.total == d2.total && d1.overdue <= d2.overdue
    ensures OverdueRate(d1) <= OverdueRate(d2)
  {
    if d1.total != 0 {
      RoundQuotientMonotone(100 * d1.overdue, 100 * d2.overdue, d1.total);
    }
  }

  /** The rate of any report `getReportData` produces is a percentage. */
  lemma ReportRateIsPercentage(items: seq<Item>, period: string, now: int, currentTime: int, rt: DateUtils.Runtime)
    ensures 0 <= OverdueRate(GetReportData(items, period, now, currentTime, rt)) <= 100
  {
  }
}
