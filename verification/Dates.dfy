/** Month arithmetic of `ingest/extract/helpers/dates.py` on the proleptic Gregorian calendar. */
module Dates {
  import opened Wrappers

  const MIN_YEAR := 1
  const MAX_YEAR := 9999

  datatype Date = Date(year: int, month: int, day: int)

  predicate IsLeap(year: int) {
    year % 4 == 0 && (year % 100 != 0 || year % 400 == 0)
  }

  // `calendar.monthrange(year, month)[1]`
  function DaysIn(year: int, month: int): int {
    if month == 2 then if IsLeap(year) then 29 else 28
    else if month in {4, 6, 9, 11} then 30
    else 31
  }

  predicate Valid(d: Date) {
    MIN_YEAR <= d.year <= MAX_YEAR && 1 <= d.month <= 12 && 1 <= d.day <= DaysIn(d.year, d.month)
  }

  function Min(a: int, b: int): int {
    if a < b then a else b
  }

  // Months since year 0.
  function MonthIndex(d: Date): int {
    d.year * 12 + (d.month - 1)
  }

  // Days of the month with this index.
  function DaysAt(index: int): int {
    DaysIn(index / 12, index % 12 + 1)
  }

  // A year outside the calendar raises.
  function AddMonths(d: Date, n: int): Option<Date> {
    var index := MonthIndex(d) + n;
    var year, month := index / 12, index % 12 + 1;
    if year < MIN_YEAR || year > MAX_YEAR then None
    else Some(Date(year, month, Min(d.day, DaysIn(year, month))))
  }

  predicate AtMost(a: Date, b: Date) {
    a.year < b.year || (a.year == b.year && (a.month < b.month || (a.month == b.month && a.day <= b.day)))
  }

  // The month moves by exactly n, for negative n too, and the day is kept or clamped to the month's end.
  lemma MonthsMoveExactly(d: Date, n: int)
    requires Valid(d)
    ensures AddMonths(d, n).Some? <==> 12 <= MonthIndex(d) + n < 12 * (MAX_YEAR + 1)
    ensures AddMonths(d, n).Some? ==>
      var r := AddMonths(d, n).value;
      Valid(r) && MonthIndex(r) == MonthIndex(d) + n && r.day == Min(d.day, DaysAt(MonthIndex(d) + n))
  {
  }

  // Moving two dates by the same number of months keeps their order.
  lemma MovingKeepsOrder(a: Date, b: Date, n: int)
    requires Valid(a) && Valid(b) && AtMost(a, b)
    requires AddMonths(a, n).Some? && AddMonths(b, n).Some?
    ensures AtMost(AddMonths(a, n).value, AddMonths(b, n).value)
  {
    ByIndex(a, b);
    MonthsMoveExactly(a, n);
    MonthsMoveExactly(b, n);
    ByIndex(AddMonths(a, n).value, AddMonths(b, n).value);
  }

  lemma ByIndex(a: Date, b: Date)
    requires Valid(a) && Valid(b)
    ensures AtMost(a, b) <==> MonthIndex(a) < MonthIndex(b) || (MonthIndex(a) == MonthIndex(b) && a.day <= b.day)
    ensures MonthIndex(a) == MonthIndex(b) ==> a.year == b.year && a.month == b.month
  {
  }

  // Two steps lead to the month one step leads to, on a day no later; on the same day exactly when
  // the month in between was long enough for the day finally reached.
  lemma TwoStepsAgainstOne(d: Date, n: int, m: int)
    requires Valid(d) && AddMonths(d, n).Some? && AddMonths(d, n + m).Some?
    ensures
      var once, half := AddMonths(d, n + m).value, AddMonths(d, n).value;
      var twice := AddMonths(half, m);
      && twice.Some? && MonthIndex(twice.value) == MonthIndex(once) && twice.value.day <= once.day
      && (twice.value == once <==> once.day <= DaysAt(MonthIndex(half)))
      && (d.day <= 28 ==> twice.value == once)
  {
    var half := AddMonths(d, n).value;
    MonthsMoveExactly(d, n);
    MonthsMoveExactly(d, n + m);
    MonthsMoveExactly(half, m);
    ByIndex(AddMonths(half, m).value, AddMonths(d, n + m).value);
    LongEnough(MonthIndex(half));
  }

  lemma LongEnough(index: int)
    ensures 28 <= DaysAt(index) <= 31
  {
  }

  // Days before the first of the month with this index: years begin in March, so the leap day ends
  // one, and 153 days make five months.
  function DaysBefore(index: int): int {
    var year, month := (index - 2) / 12, (index - 2) % 12;
    DaysBeforeMarch(year) + (153 * month + 2) / 5
  }

  function DaysBeforeMarch(year: int): int {
    365 * year + year / 4 - year / 100 + year / 400
  }

  lemma LeapDay(year: int)
    ensures DaysBeforeMarch(year) - DaysBeforeMarch(year - 1) == 365 + One(IsLeap(year))
  {
    assert year / 4 - (year - 1) / 4 == One(year % 4 == 0);
    EveryHundredth(year);
    EveryFourHundredth(year);
  }

  lemma EveryHundredth(n: int)
    ensures n / 100 - (n - 1) / 100 == One(n % 100 == 0)
    ensures n % 100 == 0 ==> n % 4 == 0
  {
  }

  lemma EveryFourHundredth(n: int)
    ensures n / 400 - (n - 1) / 400 == One(n % 400 == 0)
    ensures n % 400 == 0 ==> n % 100 == 0
  {
  }

  // Every month is as long as the time until the next one begins, on the calendar that drops three
  // leap days in four centuries.
  lemma MonthsFillTheCalendar(index: int)
    ensures DaysBefore(index + 1) - DaysBefore(index) == DaysAt(index)
  {
    hide DaysBeforeMarch, IsLeap;
    LeapDay(index / 12);
  }

  function DatesForMonth(year: int, month: int): seq<Date> {
    seq(DaysIn(year, month), i => Date(year, month, i + 1))
  }

  // Every date of the month, each once, in order.
  lemma MonthIsListed(year: int, month: int, d: Date)
    requires MIN_YEAR <= year <= MAX_YEAR && 1 <= month <= 12
    ensures d in DatesForMonth(year, month) <==> Valid(d) && d.year == year && d.month == month
    ensures forall i, j :: 0 <= i < j < |DatesForMonth(year, month)| ==>
      DatesForMonth(year, month)[i].day < DatesForMonth(year, month)[j].day
  {
    if Valid(d) && d.year == year && d.month == month {
      assert DatesForMonth(year, month)[d.day - 1] == d;
    }
  }
}
