/** The month enumeration at the head of
    `PortfolioAnalyzer.generate_synthetic_backtest` (app.py:840-848): starting
    at the start date, record the date's month while the date is not after the
    end date, then move to the first day of the next month. Dates are
    (year, month, day) triples as `strptime` would produce them; a recorded
    month is a (year, month) pair instead of its "YYYY-MM" text. */
module Calendar {

  /** A calendar date at midnight. */
  datatype Date = Date(year: int, month: int, day: int)

  /** A month as recorded in the month list. */
  datatype YearMonth = YearMonth(year: int, month: int)

  /** What `strptime` accepts: a month in 1..12 and a day in 1..31. */
  predicate ValidDate(d: Date) {
    1 <= d.month <= 12 && 1 <= d.day <= 31
  }

  predicate ValidMonth(m: YearMonth) {
    1 <= m.month <= 12
  }

  /** `datetime` comparison `a <= b`: by year, then month, then day. */
  predicate NotAfter(a: Date, b: Date) {
    a.year < b.year ||
    (a.year == b.year && (a.month < b.month || (a.month == b.month && a.day <= b.day)))
  }

  /** The number of months from January of year 0 to the given month. */
  function MonthNumber(year: int, month: int): int {
    year * 12 + month - 1
  }

  function DateMonthNumber(d: Date): int {
    MonthNumber(d.year, d.month)
  }

  /** The month with the given number. */
  function MonthAt(k: int): (m: YearMonth)
    ensures ValidMonth(m) && MonthNumber(m.year, m.month) == k
  {
    YearMonth(k / 12, k % 12 + 1)
  }

  /** The first day of the month with the given number. */
  function FirstOfMonth(k: int): (d: Date)
    ensures ValidDate(d) && DateMonthNumber(d) == k
  {
    Date(k / 12, k % 12 + 1, 1)
  }

  /** `current.strftime("%Y-%m")`. */
  function MonthOf(d: Date): YearMonth {
    YearMonth(d.year, d.month)
  }

  /** The step of the loop: January of the next year after December, the
      first of the next month otherwise. */
  function NextMonth(d: Date): Date {
    if d.month == 12 then Date(d.year + 1, 1, 1) else Date(d.year, d.month + 1, 1)
  }

  /** The month following a recorded month. */
  function Succ(m: YearMonth): YearMonth {
    if m.month == 12 then YearMonth(m.year + 1, 1) else YearMonth(m.year, m.month + 1)
  }

  /** A month is determined by its number. */
  lemma MonthNumberInjective(y: int, m: int)
    requires 1 <= m <= 12
    ensures MonthAt(MonthNumber(y, m)) == YearMonth(y, m)
  {
    var k := MonthNumber(y, m);
    assert k == y * 12 + (m - 1) && 0 <= m - 1 < 12;
    assert k / 12 == y && k % 12 == m - 1;
  }

  /** The loop's step moves to the first day of the following month. */
  lemma NextMonthIsFirstOfNext(d: Date)
    requires ValidDate(d)
    ensures NextMonth(d) == FirstOfMonth(DateMonthNumber(d) + 1)
  {
    var k := DateMonthNumber(d) + 1;
    if d.month == 12 {
      MonthNumberInjective(d.year + 1, 1);
    } else {
      MonthNumberInjective(d.year, d.month + 1);
    }
    assert MonthAt(k) == MonthOf(NextMonth(d));
  }

  /** The month after a month is the one numbered one higher. */
  lemma SuccIsNextNumber(k: int)
    ensures Succ(MonthAt(k)) == MonthAt(k + 1)
  {
    var m := MonthAt(k);
    if m.month == 12 {
      MonthNumberInjective(m.year + 1, 1);
    } else {
      MonthNumberInjective(m.year, m.month + 1);
    }
  }

  /** How many months the loop records: none when the start is after the end,
      otherwise every month from the start's to the end's, both included. */
  function MonthCount(start: Date, end: Date): nat {
    if NotAfter(start, end) && DateMonthNumber(start) <= DateMonthNumber(end)
    then DateMonthNumber(end) - DateMonthNumber(start) + 1
    else 0
  }

  /** The month list the loop builds. */
  function MonthsSpec(start: Date, end: Date): (months: seq<YearMonth>)
    ensures |months| == MonthCount(start, end)
  {
    seq(MonthCount(start, end), i => MonthAt(DateMonthNumber(start) + i))
  }

  /** The months run without gaps from the start's month to the end's: their
      count is `(ey - sy) * 12 + (em - sm) + 1` when the start is not after the
      end and zero otherwise, each follows the one before, and each is a real
      month. */
  lemma MonthsProperties(start: Date, end: Date)
    requires ValidDate(start) && ValidDate(end)
    ensures var months := MonthsSpec(start, end);
            && |months| == (if NotAfter(start, end)
                            then (end.year - start.year) * 12 + (end.month - start.month) + 1 else 0)
            && (months != [] ==> months[0] == MonthOf(start) && months[|months| - 1] == MonthOf(end))
            && (forall i :: 0 <= i < |months| - 1 ==> months[i + 1] == Succ(months[i]))
            && (forall i :: 0 <= i < |months| ==> ValidMonth(months[i]))
  {
    var months := MonthsSpec(start, end);
    if months != [] {
      MonthNumberInjective(start.year, start.month);
      MonthNumberInjective(end.year, end.month);
    }
    forall i | 0 <= i < |months| - 1 ensures months[i + 1] == Succ(months[i]) {
      SuccIsNextNumber(DateMonthNumber(start) + i);
    }
    forall i | 0 <= i < |months| ensures ValidMonth(months[i]) {
      assert months[i] == MonthAt(DateMonthNumber(start) + i);
    }
  }

  /** Comparing valid months by number is comparing them by year, then month. */
  lemma MonthNumberOrder(y1: int, m1: int, y2: int, m2: int)
    requires 1 <= m1 <= 12 && 1 <= m2 <= 12
    ensures MonthNumber(y1, m1) <= MonthNumber(y2, m2) <==> y1 < y2 || (y1 == y2 && m1 <= m2)
  {
    if y1 < y2 {
      assert y1 * 12 + 12 <= y2 * 12;
    } else if y1 > y2 {
      assert y2 * 12 + 12 <= y1 * 12;
    }
  }

  /** A date not after another lies in the same month or an earlier one. */
  lemma NotAfterMonthNumber(a: Date, b: Date)
    requires ValidDate(a) && ValidDate(b) && NotAfter(a, b)
    ensures DateMonthNumber(a) <= DateMonthNumber(b)
  {
    MonthNumberOrder(a.year, a.month, b.year, b.month);
  }

  /** The first of a month is not after a date exactly when that month is not
      after the date's month. */
  lemma FirstOfMonthNotAfter(k: int, end: Date)
    requires ValidDate(end)
    ensures MonthOf(FirstOfMonth(k)) == MonthAt(k)
    ensures NotAfter(FirstOfMonth(k), end) <==> k <= DateMonthNumber(end)
  {
    var d := FirstOfMonth(k);
    MonthNumberOrder(d.year, d.month, end.year, end.month);
  }

  /** The `while current <= end` loop of app.py:840-848. */
  method EnumerateMonths(start: Date, end: Date) returns (months: seq<YearMonth>)
    requires ValidDate(start) && ValidDate(end)
    ensures months == MonthsSpec(start, end)
  {
    months := [];
    var current := start;
    var first := DateMonthNumber(start);
    var last := DateMonthNumber(end);
    while NotAfter(current, end)
      invariant |months| == 0 ==> current == start
      invariant |months| > 0 ==> NotAfter(start, end) && current == FirstOfMonth(first + |months|)
      invariant |months| > 0 ==> first + |months| <= last + 1
      invariant forall i :: 0 <= i < |months| ==> months[i] == MonthAt(first + i)
      decreases last + 1 - first - |months|
    {
      if |months| == 0 {
        MonthNumberInjective(start.year, start.month);
        NotAfterMonthNumber(start, end);
      } else {
        FirstOfMonthNotAfter(first + |months|, end);
      }
      months := months + [MonthOf(current)];
      NextMonthIsFirstOfNext(current);
      current := NextMonth(current);
    }
    if |months| > 0 {
      NotAfterMonthNumber(start, end);
      FirstOfMonthNotAfter(first + |months|, end);
    }
    assert |months| == MonthCount(start, end);
  }
}
