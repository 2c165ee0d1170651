/// The checkout timestamps and the overdue rule of app/utils/dateUtils.js.
///
/// Instants are integers: milliseconds of a naive local clock (no time zone, no daylight
/// saving), so a day is always 86 400 000 ms and midnight is a multiple of it.
module DateUtils {

  datatype Option<+T> = None | Some(value: T)

  const MS_PER_HOUR: int := 3_600_000
  const MS_PER_DAY: int := 24 * MS_PER_HOUR
  /** The 5:00 PM return deadline. */
  const CUTOFF_HOUR: int := 17

  /** How a document stores its checkout time: missing, a store-native timestamp object
      (which converts with `toDate()`), or a string given to the `Date` constructor. */
  datatype Timestamp = Absent | Native(millis: int) | Str(text: string)

  /** `date.setMonth(date.getMonth() - 1)` on the naive clock: the same day number and time
      one month earlier, where a day beyond the end of that month runs over into the next
      one, so the result is 28 to 31 days earlier. */
  type MonthBack = f: int -> int | forall t :: t - 31 * MS_PER_DAY <= f(t) <= t - 28 * MS_PER_DAY
    witness (t: int) => t - 30 * MS_PER_DAY

  /** What the JavaScript runtime supplies and this model does not define: the `Date`
      constructor's string parser (None is an Invalid Date) and calendar-month subtraction. */
  datatype Runtime = Runtime(parse: string -> Option<int>, monthBack: MonthBack)

  /** JavaScript falsiness of a timestamp field: missing or the empty string. */
  predicate Falsy(ts: Timestamp)
  {
    ts.Absent? || ts == Str("")
  }

  /** JavaScript truthiness of an optional text field: present and not the empty string. */
  predicate Truthy(field: Option<string>)
  {
    field.Some? && field.value != ""
  }

  /** The Date a truthy timestamp converts to; None stands for an Invalid Date. */
  function ToDate(ts: Timestamp, rt: Runtime): Option<int>
    requires !Falsy(ts)
  {
    if ts.Native? then Some(ts.millis) else rt.parse(ts.text)
  }

  /** The checkout instant of a timestamp field, None when it is missing or unparsable. */
  function CheckoutTime(ts: Timestamp, rt: Runtime): Option<int>
  {
    if Falsy(ts) then None else ToDate(ts, rt)
  }

  /** `a < b` where `a` may be an Invalid Date or undefined: any comparison with NaN is false. */
  predicate Before(a: Option<int>, b: int)
  {
    a.Some? && a.value < b
  }

  /** `a >= b` under the same NaN rule. */
  predicate NotBefore(a: Option<int>, b: int)
  {
    a.Some? && a.value >= b
  }

  /** The number of the day an instant falls in. */
  function DayNumber(t: int): int
  {
    t / MS_PER_DAY
  }

  /** `d.setHours(0, 0, 0, 0)`: midnight at the start of the day of `t`. */
  function StartOfDay(t: int): (r: int)
    ensures r <= t < r + MS_PER_DAY
    ensures r == DayNumber(t) * MS_PER_DAY
  {
    t - t % MS_PER_DAY
  }

  /** `getCutoffTime(date)`: the day of `date` at exactly 17:00:00.000. */
  function CutoffTime(date: int): (c: int)
    ensures DayNumber(c) == DayNumber(date)
    ensures c - StartOfDay(c) == CUTOFF_HOUR * MS_PER_HOUR
  {
    var c := StartOfDay(date) + CUTOFF_HOUR * MS_PER_HOUR;
    DayOfOffset(DayNumber(date), CUTOFF_HOUR * MS_PER_HOUR);
    c
  }

  /** `isItemOverdue(timestamp, currentTime)`: an overdue item has a valid checkout instant,
      and that instant lies strictly before `currentTime`. */
  predicate IsItemOverdue(ts: Timestamp, currentTime: int, rt: Runtime)
    ensures IsItemOverdue(ts, currentTime, rt) ==>
      CheckoutTime(ts, rt).Some? && CheckoutTime(ts, rt).value < currentTime
  {
    if Falsy(ts) then false
    else
      var checkoutTime := ToDate(ts, rt);
      var todayStart := StartOfDay(currentTime);
      var isPreviousDayCheckout := Before(checkoutTime, todayStart);
      var todayCutoff := CutoffTime(currentTime);
      var isPastCutoffToday := currentTime > todayCutoff && Before(checkoutTime, todayCutoff);
      isPreviousDayCheckout || isPastCutoffToday
  }

  /** The return deadline in force at `currentTime`: today's 5 PM once it has passed,
      otherwise today's midnight (yesterday's loans are due by then). */
  function Deadline(currentTime: int): (d: int)
    ensures d <= currentTime
  {
    var cutoff := CutoffTime(currentTime);
    if currentTime > cutoff then cutoff else StartOfDay(currentTime)
  }

  /** What `formatDateTime` displays: the fixed 'No date available' text, or the locale
      rendering (not modelled) of a Date that may be invalid. */
  datatype DateDisplay = NoDateAvailable | LocaleString(date: Option<int>)

  /** `formatDateTime(timestamp)`. */
  function FormatDateTime(ts: Timestamp, rt: Runtime): (d: DateDisplay)
    ensures d.NoDateAvailable? <==> Falsy(ts)
    ensures d.LocaleString? ==> d.date == CheckoutTime(ts, rt)
  {
    if !Falsy(ts) && ts.Native? then LocaleString(Some(ts.millis))
    else if !Falsy(ts) then LocaleString(ToDate(ts, rt))
    else NoDateAvailable
  }

  // ---------------------------------------------------------------------------
  // Day arithmetic

  /** Adding less than a day to a midnight stays in that day. */
  lemma DayOfOffset(day: int, offset: int)
    requires 0 <= offset < MS_PER_DAY
    ensures DayNumber(day * MS_PER_DAY + offset) == day
  {
    var t := day * MS_PER_DAY + offset;
    var q := t / MS_PER_DAY;
    assert t == q * MS_PER_DAY + t % MS_PER_DAY;
  }

  /** Comparing with a midnight is comparing day numbers. */
  lemma BeforeMidnightIffEarlierDay(c: int, t: int)
    ensures c < StartOfDay(t) <==> DayNumber(c) < DayNumber(t)
  {
    if DayNumber(c) < DayNumber(t) {
      assert DayNumber(c) * MS_PER_DAY <= (DayNumber(t) - 1) * MS_PER_DAY;
    } else {
      assert DayNumber(c) * MS_PER_DAY >= DayNumber(t) * MS_PER_DAY;
    }
  }

  // ---------------------------------------------------------------------------
  // Properties of the cutoff and of the overdue rule

  /** The cutoff depends only on the day, so taking it twice changes nothing. */
  lemma CutoffIdempotent(date: int)
    ensures CutoffTime(CutoffTime(date)) == CutoffTime(date)
  {
    var c := CutoffTime(date);
    assert StartOfDay(c) == DayNumber(date) * MS_PER_DAY;
  }

  /** Two instants of the same day have the same cutoff. */
  lemma CutoffSameDay(a: int, b: int)
    requires DayNumber(a) == DayNumber(b)
    ensures CutoffTime(a) == CutoffTime(b)
  {
  }

  /** The rule is one comparison with the deadline in force. */
  lemma {:induction false} OverdueIffBeforeDeadline(ts: Timestamp, currentTime: int, rt: Runtime)
    ensures IsItemOverdue(ts, currentTime, rt) <==> Before(CheckoutTime(ts, rt), Deadline(currentTime))
  {
    assert StartOfDay(currentTime) < CutoffTime(currentTime);
  }

  /** A missing or empty timestamp is never overdue. */
  lemma FalsyNeverOverdue(ts: Timestamp, currentTime: int, rt: Runtime)
    requires Falsy(ts)
    ensures !IsItemOverdue(ts, currentTime, rt)
  {
  }

  /** An unparsable date string is never overdue. */
  lemma InvalidDateNeverOverdue(ts: Timestamp, currentTime: int, rt: Runtime)
    requires CheckoutTime(ts, rt).None?
    ensures !IsItemOverdue(ts, currentTime, rt)
  {
  }

  /** A checkout on an earlier day is overdue at any time of day. */
  lemma {:induction false} PreviousDayCheckoutIsOverdue(ts: Timestamp, currentTime: int, rt: Runtime)
    requires CheckoutTime(ts, rt).Some?
    requires DayNumber(CheckoutTime(ts, rt).value) < DayNumber(currentTime)
    ensures IsItemOverdue(ts, currentTime, rt)
  {
    BeforeMidnightIffEarlierDay(CheckoutTime(ts, rt).value, currentTime);
  }

  /** Up to and including 17:00, nothing checked out today (or later) is overdue. */
  lemma {:induction false} SameDayBeforeCutoffIsActive(ts: Timestamp, currentTime: int, rt: Runtime)
    requires CheckoutTime(ts, rt).Some?
    requires DayNumber(CheckoutTime(ts, rt).value) >= DayNumber(currentTime)
    requires currentTime <= CutoffTime(currentTime)
    ensures !IsItemOverdue(ts, currentTime, rt)
  {
    BeforeMidnightIffEarlierDay(CheckoutTime(ts, rt).value, currentTime);
  }

  /** A checkout at or after today's cutoff, including one in the future, is never overdue. */
  lemma AtOrAfterCutoffIsActive(ts: Timestamp, currentTime: int, rt: Runtime)
    requires CheckoutTime(ts, rt).Some?
    requires CheckoutTime(ts, rt).value >= CutoffTime(currentTime)
    ensures !IsItemOverdue(ts, currentTime, rt)
  {
  }

  /** After 17:00, whatever was checked out before 17:00 is overdue. */
  lemma PastCutoffIsOverdue(ts: Timestamp, currentTime: int, rt: Runtime)
    requires CheckoutTime(ts, rt).Some?
    requires currentTime > CutoffTime(currentTime)
    requires CheckoutTime(ts, rt).value < CutoffTime(currentTime)
    ensures IsItemOverdue(ts, currentTime, rt)
  {
  }

  /** If a checkout is overdue, any earlier checkout is overdue too. */
  lemma EarlierCheckoutIsOverdue(ts1: Timestamp, ts2: Timestamp, currentTime: int, rt: Runtime)
    requires CheckoutTime(ts1, rt).Some? && CheckoutTime(ts2, rt).Some?
    requires CheckoutTime(ts1, rt).value <= CheckoutTime(ts2, rt).value
    requires IsItemOverdue(ts2, currentTime, rt)
    ensures IsItemOverdue(ts1, currentTime, rt)
  {
  }

  /** The deadline never moves backwards as the clock advances. */
  lemma {:induction false} DeadlineMonotone(t1: int, t2: int)
    requires t1 <= t2
    ensures Deadline(t1) <= Deadline(t2)
  {
    if DayNumber(t1) < DayNumber(t2) {
      assert DayNumber(t1) + 1 <= DayNumber(t2);
      assert StartOfDay(t1) + MS_PER_DAY <= StartOfDay(t2);
    } else {
      assert DayNumber(t1) == DayNumber(t2) by {
        assert DayNumber(t1) * MS_PER_DAY <= t1 <= t2 < DayNumber(t2) * MS_PER_DAY + MS_PER_DAY;
      }
    }
  }

  /** Once an item is overdue it stays overdue as time passes. */
  lemma {:induction false} OverdueStaysOverdue(ts: Timestamp, t1: int, t2: int, rt: Runtime)
    requires t1 <= t2
    requires IsItemOverdue(ts, t1, rt)
    ensures IsItemOverdue(ts, t2, rt)
  {
    OverdueIffBeforeDeadline(ts, t1, rt);
    OverdueIffBeforeDeadline(ts, t2, rt);
    DeadlineMonotone(t1, t2);
  }

  /** A worked calendar day, 2025-06-10 (day 20249 of the naive clock): a 09:00 checkout is
      still active at 16:00, overdue at 17:30, and a checkout at 23:00 the evening before is
      overdue already at 08:00. */
  lemma {:induction false} JuneTenthExample(rt: Runtime)
    ensures var midnight := 20249 * MS_PER_DAY;
      && !IsItemOverdue(Native(midnight + 9 * MS_PER_HOUR), midnight + 16 * MS_PER_HOUR, rt)
      && IsItemOverdue(Native(midnight + 9 * MS_PER_HOUR), midnight + 17 * MS_PER_HOUR + 30 * 60_000, rt)
      && IsItemOverdue(Native(midnight - MS_PER_HOUR), midnight + 8 * MS_PER_HOUR, rt)
  {
    var midnight := 20249 * MS_PER_DAY;
    assert midnight == 1_749_513_600_000;
    DayOfOffset(20249, 16 * MS_PER_HOUR);
    DayOfOffset(20249, 17 * MS_PER_HOUR + 30 * 60_000);
    DayOfOffset(20249, 8 * MS_PER_HOUR);
  }
}
