/**
  The month-coverage check of indicators.py (`validate_month_coverage`):
  every calendar month from the start date up to the day before the
  exclusive end date must occur among the timestamps of the price data.

  Dates are proleptic Gregorian (year, month, day) triples in Python's
  `datetime` range 1..9999. Parsing the two date strings is done by the
  caller; a `None` stands for a string `strptime` rejects.
*/
module MonthCoverage {
  import opened Base

  datatype Date = Date(year: int, month: int, day: int)

  datatype YearMonth = YearMonth(year: int, month: int)

  datatype CoverageError =
    | NoPriceData                                 // the data frame is empty
    | UnparsableDate                              // `strptime` raised
    | DateOutOfRange                              // end - 1 day is before 0001-01-01
    | MissingMonths(missing: set<YearMonth>)      // expected months absent from the data

  datatype Coverage = Covered | Rejected(error: CoverageError)

  const MinYear := 1
  const MaxYear := 9999

  predicate IsLeapYear(y: int)
  {
    y % 4 == 0 && (y % 100 != 0 || y % 400 == 0)
  }

  function DaysInMonth(y: int, m: int): (n: int)
    requires 1 <= m <= 12
    ensures 28 <= n <= 31
    ensures m == 2 ==> (n == 29 <==> IsLeapYear(y))
  {
    if m == 2 then (if IsLeapYear(y) then 29 else 28)
    else if m == 4 || m == 6 || m == 9 || m == 11 then 30
    else 31
  }

  predicate ValidDate(d: Date)
  {
    MinYear <= d.year <= MaxYear && 1 <= d.month <= 12 && 1 <= d.day <= DaysInMonth(d.year, d.month)
  }

  const FirstDate := Date(MinYear, 1, 1)
  const LastDate := Date(MaxYear, 12, 31)

  /** The calendar day after `d`. */
  function NextDay(d: Date): (r: Date)
    requires ValidDate(d) && d != LastDate
    ensures ValidDate(r)
  {
    if d.day < DaysInMonth(d.year, d.month) then Date(d.year, d.month, d.day + 1)
    else if d.month < 12 then Date(d.year, d.month + 1, 1)
    else Date(d.year + 1, 1, 1)
  }

  /** `d - timedelta(days=1)`: the calendar day before `d`. */
  function PreviousDay(d: Date): (r: Date)
    requires ValidDate(d) && d != FirstDate
    ensures ValidDate(r) && r != LastDate
    ensures NextDay(r) == d
    ensures r.day == d.day - 1 || d.day == 1
  {
    if d.day > 1 then Date(d.year, d.month, d.day - 1)
    else if d.month > 1 then Date(d.year, d.month - 1, DaysInMonth(d.year, d.month - 1))
    else Date(d.year - 1, 12, 31)
  }

  /** Stepping forward then back returns to the same day. */
  lemma PreviousOfNextDay(d: Date)
    requires ValidDate(d) && d != LastDate
    ensures NextDay(d) != FirstDate && PreviousDay(NextDay(d)) == d
  {
  }

  /** `end - 1 day` for an end date on the first of a month lies in the
      month just before, so the month of the end date is not expected. */
  lemma EndOnFirstExcludesItsMonth(end: Date)
    requires ValidDate(end) && end != FirstDate && end.day == 1
    ensures MonthOf(PreviousDay(end)) ==
            if end.month == 1 then YearMonth(end.year - 1, 12) else YearMonth(end.year, end.month - 1)
    ensures LexLess(MonthOf(PreviousDay(end)), MonthOf(end))
  {
  }

  /** For any other end date, `end - 1 day` stays in the month of `end`,
      so that month is the last one expected. */
  lemma EndAfterFirstKeepsItsMonth(end: Date)
    requires ValidDate(end) && end.day > 1
    ensures MonthOf(PreviousDay(end)) == MonthOf(end)
  {
  }

  function MonthOf(d: Date): YearMonth
  {
    YearMonth(d.year, d.month)
  }

  /** Lexicographic order on (year, month). */
  predicate LexLess(a: YearMonth, b: YearMonth)
  {
    a.year < b.year || (a.year == b.year && a.month < b.month)
  }

  predicate LexLessEq(a: YearMonth, b: YearMonth)
  {
    a.year < b.year || (a.year == b.year && a.month <= b.month)
  }

  /** The months the check expects: every (y, m) with m in 1..12 that lies
      between `first` and `last`, both included. */
  ghost function ExpectedMonths(first: YearMonth, last: YearMonth): set<YearMonth>
  {
    set y, m | first.year <= y <= last.year && 1 <= m <= 12 &&
               LexLessEq(first, YearMonth(y, m)) && LexLessEq(YearMonth(y, m), last) :: YearMonth(y, m)
  }

  /** The months of `first` strictly before `bound`. */
  ghost function MonthsBefore(first: YearMonth, bound: YearMonth): set<YearMonth>
  {
    set y, m | first.year <= y <= bound.year && 1 <= m <= 12 &&
               LexLessEq(first, YearMonth(y, m)) && LexLess(YearMonth(y, m), bound) :: YearMonth(y, m)
  }

  /** Months counted from year 0, so that lexicographic order becomes
      integer order. */
  function Ordinal(ym: YearMonth): int
  {
    ym.year * 12 + ym.month - 1
  }

  /** The months present in the data's timestamps. */
  function ActualMonths(data: seq<Date>): (s: set<YearMonth>)
    ensures forall i :: 0 <= i < |data| ==> MonthOf(data[i]) in s
    ensures forall ym :: ym in s ==> exists i :: 0 <= i < |data| && MonthOf(data[i]) == ym
  {
    set i | 0 <= i < |data| :: MonthOf(data[i])
  }

  lemma MonthsBeforeStep(first: YearMonth, ym: YearMonth, next: YearMonth)
    requires 1 <= ym.month <= 12 && LexLessEq(first, ym)
    requires next == (if ym.month == 12 then YearMonth(ym.year + 1, 1) else YearMonth(ym.year, ym.month + 1))
    ensures MonthsBefore(first, next) == MonthsBefore(first, ym) + {ym}
  {
    var a := MonthsBefore(first, next);
    var b := MonthsBefore(first, ym) + {ym};
    forall p | p in a ensures p in b { }
    forall p | p in b ensures p in a { }
  }

  lemma MonthsBeforeEmpty(first: YearMonth)
    ensures MonthsBefore(first, first) == {}
  {
  }

  lemma MonthsBeforeIsExpected(first: YearMonth, last: YearMonth, bound: YearMonth)
    requires 1 <= bound.month <= 12 && 1 <= last.month <= 12
    requires LexLess(last, bound)
    requires bound == first ||
             bound == (if last.month == 12 then YearMonth(last.year + 1, 1) else YearMonth(last.year, last.month + 1))
    ensures MonthsBefore(first, bound) == ExpectedMonths(first, last)
  {
    var a := MonthsBefore(first, bound);
    var b := ExpectedMonths(first, last);
    forall p | p in a ensures p in b { }
    forall p | p in b ensures p in a { }
  }

  /** The month loop of the check: starting from `first`, add (y, m) and
      step to the next month (12 rolls over to 1 of the next year) while
      (y, m) is not after `last`. Each month is added exactly once. */
  method CollectExpectedMonths(first: YearMonth, last: YearMonth) returns (expected: set<YearMonth>)
    requires 1 <= first.month <= 12 && 1 <= last.month <= 12
    ensures expected == ExpectedMonths(first, last)
    ensures |expected| == if LexLessEq(first, last) then Ordinal(last) - Ordinal(first) + 1 else 0
  {
    expected := {};
    var y, m := first.year, first.month;
    MonthsBeforeEmpty(first);
    while y < last.year || (y == last.year && m <= last.month)
      invariant 1 <= m <= 12
      invariant LexLessEq(first, YearMonth(y, m))
      invariant YearMonth(y, m) == first ||
                LexLessEq(YearMonth(y, m), if last.month == 12 then YearMonth(last.year + 1, 1)
                                           else YearMonth(last.year, last.month + 1))
      invariant expected == MonthsBefore(first, YearMonth(y, m))
      invariant |expected| == Ordinal(YearMonth(y, m)) - Ordinal(first)
      decreases Ordinal(last) - Ordinal(YearMonth(y, m))
    {
      var ym := YearMonth(y, m);
      assert ym !in expected;
      expected := expected + {ym};
      m := m + 1;
      if m > 12 {
        m := 1;
        y := y + 1;
      }
      MonthsBeforeStep(first, ym, YearMonth(y, m));
    }
    MonthsBeforeIsExpected(first, last, YearMonth(y, m));
  }

  /** `validate_month_coverage(td, start_str, end_str)`: `data` holds the
      timestamps of the price data, `start` and `end` the results of
      parsing the two date strings. */
  method ValidateMonthCoverage(data: seq<Date>, start: Option<Date>, end: Option<Date>) returns (r: Coverage)
    requires start.Some? ==> ValidDate(start.value)
    requires end.Some? ==> ValidDate(end.value)
    ensures |data| == 0 ==> r == Rejected(NoPriceData)
    ensures |data| > 0 && (start.None? || end.None?) ==> r == Rejected(UnparsableDate)
    ensures |data| > 0 && start.Some? && end == Some(FirstDate) ==> r == Rejected(DateOutOfRange)
    ensures |data| > 0 && start.Some? && end.Some? && end.value != FirstDate ==>
              var expected := ExpectedMonths(MonthOf(start.value), MonthOf(PreviousDay(end.value)));
              var missing := expected - ActualMonths(data);
              r == if missing == {} then Covered else Rejected(MissingMonths(missing))
  {
    if |data| == 0 {
      return Rejected(NoPriceData);
    }
    if start.None? || end.None? {
      return Rejected(UnparsableDate);
    }
    if end.value == FirstDate {
      return Rejected(DateOutOfRange);
    }
    var last := PreviousDay(end.value);
    var expected := CollectExpectedMonths(MonthOf(start.value), MonthOf(last));
    var actual := ActualMonths(data);
    var missing := expected - actual;
    if missing != {} {
      return Rejected(MissingMonths(missing));
    }
    return Covered;
  }

  /** The missing set is empty exactly when every expected month has at
      least one price bar in the data. */
  lemma NoneMissingIffAllPresent(data: seq<Date>, expected: set<YearMonth>)
    ensures expected - ActualMonths(data) == {} <==>
            forall ym :: ym in expected ==> exists i :: 0 <= i < |data| && MonthOf(data[i]) == ym
  {
    if expected - ActualMonths(data) != {} {
      var ym :| ym in expected - ActualMonths(data);
      assert !exists i :: 0 <= i < |data| && MonthOf(data[i]) == ym;
    } else {
      forall ym | ym in expected ensures exists i :: 0 <= i < |data| && MonthOf(data[i]) == ym {
        assert ym !in expected - ActualMonths(data);
      }
    }
  }

  /** When the start month lies after the last expected month nothing is
      expected, so any non-empty data passes. */
  lemma StartAfterEndExpectsNothing(first: YearMonth, last: YearMonth)
    requires LexLess(last, first)
    ensures ExpectedMonths(first, last) == {}
  {
  }

  /** Every expected month is a real calendar month within the range. */
  lemma ExpectedMonthsAreBetween(first: YearMonth, last: YearMonth, ym: YearMonth)
    requires ym in ExpectedMonths(first, last)
    ensures 1 <= ym.month <= 12 && LexLessEq(first, ym) && LexLessEq(ym, last)
  {
  }
}
