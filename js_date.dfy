/** The part of the JavaScript `Date` object the water rule uses: the
    `new Date(year, monthIndex, day)` constructor, which normalises
    out-of-range months and days into the proleptic Gregorian calendar,
    `setDate(day)` (day 0 is the last day of the previous month),
    `getMonth()` (0 to 11) and `getFullYear()`. Only the calendar date is
    modelled; the time of day and the time zone are not. */
module JsDate {
  import opened JsString

  predicate IsLeapYear(y: int) {
    y % 4 == 0 && (y % 100 != 0 || y % 400 == 0)
  }

  /** Days in month `m` (0 = January) of year `y`. */
  function DaysInMonth(y: int, m: int): (r: int)
    requires 0 <= m < 12
    ensures 28 <= r <= 31
  {
    if m == 1 then (if IsLeapYear(y) then 29 else 28)
    else if m in {3, 5, 8, 10} then 30
    else 31
  }

  /** A calendar month numbered consecutively: one more for each month later. */
  function MonthNumber(y: int, m: int): int {
    y * 12 + m
  }

  function PrevMonth(y: int, m: int): (r: (int, int))
    requires 0 <= m < 12
    ensures 0 <= r.1 < 12 && MonthNumber(r.0, r.1) == MonthNumber(y, m) - 1
  {
    if m == 0 then (y - 1, 11) else (y, m - 1)
  }

  function NextMonth(y: int, m: int): (r: (int, int))
    requires 0 <= m < 12
    ensures 0 <= r.1 < 12 && MonthNumber(r.0, r.1) == MonthNumber(y, m) + 1
  {
    if m == 11 then (y + 1, 0) else (y, m + 1)
  }

  /** A date's value: `Invalid` is the time value NaN ("Invalid Date"). */
  datatype DateValue = Invalid | Day(year: int, month: int, day: int)

  predicate WellFormed(v: DateValue) {
    v.Day? ==> 0 <= v.month < 12 && 1 <= v.day <= DaysInMonth(v.year, v.month)
  }

  /** Days in year `y`. */
  function DaysInYear(y: int): int {
    if IsLeapYear(y) then 366 else 365
  }

  /** Days from 1 January of year 0 to 1 January of year `y`, negative
      for earlier years. */
  function DaysBeforeYear(y: int): int
    decreases if y < 0 then -y else y
  {
    if y == 0 then 0
    else if y > 0 then DaysBeforeYear(y - 1) + DaysInYear(y - 1)
    else DaysBeforeYear(y + 1) - DaysInYear(y)
  }

  /** Days from 1 January of year `y` to the first of month `m`. */
  function DaysBeforeMonth(y: int, m: int): int
    requires 0 <= m < 12
  {
    [0, 31, 59, 90, 120, 151, 181, 212, 243, 273, 304, 334][m]
    + (if m >= 2 && IsLeapYear(y) then 1 else 0)
  }

  /** The running number of a day: one more for each day later, across
      month and year ends. */
  function DayNumber(y: int, m: int, d: int): int
    requires 0 <= m < 12
  {
    DaysBeforeYear(y) + DaysBeforeMonth(y, m) + d - 1
  }

  /** The first of the next month is as many days later as the month is
      long. */
  lemma {:induction false} MonthLength(y: int, m: int)
    requires 0 <= m < 12
    ensures var (ny, nm) := NextMonth(y, m);
      DayNumber(ny, nm, 1) == DayNumber(y, m, 1) + DaysInMonth(y, m)
  {
    if m == 11 {
      assert DaysBeforeYear(y + 1) == DaysBeforeYear(y) + DaysInYear(y);
    }
  }

  /** Day `d` counted from the first of month `m` of year `y`, carried into
      earlier or later months when it falls outside that month. */
  function CarryDay(y: int, m: int, d: int): (r: DateValue)
    requires 0 <= m < 12
    ensures r.Day? && WellFormed(r)
    ensures DayNumber(r.year, r.month, r.day) == DayNumber(y, m, 1) + d - 1
    ensures 1 <= d <= DaysInMonth(y, m) ==> r == Day(y, m, d)
    ensures d < 1 ==> MonthNumber(r.year, r.month) < MonthNumber(y, m)
    ensures d > DaysInMonth(y, m) ==> MonthNumber(r.year, r.month) > MonthNumber(y, m)
    decreases if d < 1 then 1 else 0, if d < 1 then -d else d
  {
    if d < 1 then
      var (py, pm) := PrevMonth(y, m);
      MonthLength(py, pm);
      CarryDay(py, pm, d + DaysInMonth(py, pm))
    else if d > DaysInMonth(y, m) then
      var (ny, nm) := NextMonth(y, m);
      MonthLength(y, m);
      CarryDay(ny, nm, d - DaysInMonth(y, m))
    else
      Day(y, m, d)
  }

  /** One month's overflow lands in the next month: `new Date(2023, 1, 31)`
      is 3 March 2023. */
  lemma {:induction false} CarryIntoNextMonth(y: int, m: int, d: int)
    requires 0 <= m < 12
    requires DaysInMonth(y, m) < d <= DaysInMonth(y, m) + DaysInMonth(NextMonth(y, m).0, NextMonth(y, m).1)
    ensures CarryDay(y, m, d) == Day(NextMonth(y, m).0, NextMonth(y, m).1, d - DaysInMonth(y, m))
  {
  }

  lemma {:induction false} ThirtyFirstOfFebruary()
    ensures Construct(Some(2023), Some(1), Some(31)) == Day(2023, 2, 3)
  {
    CarryIntoNextMonth(2023, 1, 31);
  }

  /** Years 0 to 99 passed to the constructor mean 1900 to 1999. */
  function MakeFullYear(y: int): int {
    if 0 <= y <= 99 then 1900 + y else y
  }

  /** `new Date(y, m, d)`; `None` stands for a NaN argument. */
  function Construct(y: Option<int>, m: Option<int>, d: Option<int>): (r: DateValue)
    ensures WellFormed(r)
    ensures r.Invalid? <==> y.None? || m.None? || d.None?
  {
    if y.None? || m.None? || d.None? then Invalid
    else CarryDay(MakeFullYear(y.value) + m.value / 12, m.value % 12, d.value)
  }

  /** `date.setDate(d)`: day `d` of the date's current month. */
  function SetDateOf(v: DateValue, d: int): (r: DateValue)
    requires WellFormed(v)
    ensures WellFormed(r) && (r.Invalid? <==> v.Invalid?)
  {
    if v.Invalid? then Invalid else CarryDay(v.year, v.month, d)
  }

  /** Day 0 is the last day of the month before: `setDate(0)` steps back
      exactly one calendar month, whatever the day was. */
  lemma {:induction false} SetDateZero(v: DateValue)
    requires WellFormed(v) && v.Day?
    ensures var r := SetDateOf(v, 0);
      r.Day? && MonthNumber(r.year, r.month) == MonthNumber(v.year, v.month) - 1
      && r.day == DaysInMonth(r.year, r.month)
  {
    var (py, pm) := PrevMonth(v.year, v.month);
    assert CarryDay(py, pm, DaysInMonth(py, pm)) == Day(py, pm, DaysInMonth(py, pm));
  }

  /** A constructor call with an in-range month and day builds exactly that
      date (with the two-digit year rule). */
  lemma {:induction false} ConstructInRange(y: int, m: int, d: int)
    requires 0 <= m < 12 && 1 <= d <= DaysInMonth(MakeFullYear(y), m)
    ensures Construct(Some(y), Some(m), Some(d)) == Day(MakeFullYear(y), m, d)
  {
    assert m / 12 == 0 && m % 12 == m;
    assert CarryDay(MakeFullYear(y), m, d) == Day(MakeFullYear(y), m, d);
  }

  /** `getMonth()`: `None` is NaN. */
  function MonthOf(v: DateValue): (r: Option<int>)
    requires WellFormed(v)
    ensures r.Some? ==> 0 <= r.value < 12
  {
    if v.Invalid? then None else Some(v.month)
  }

  /** `getFullYear()`: `None` is NaN. */
  function FullYearOf(v: DateValue): Option<int> {
    if v.Invalid? then None else Some(v.year)
  }

  /** A `Date` object: its fields hold the calendar date, or `valid` is
      false for an Invalid Date. */
  class Date {
    var valid: bool
    var year: int
    var month: int
    var day: int

    function Value(): DateValue
      reads this
    {
      if valid then Day(year, month, day) else Invalid
    }

    ghost predicate Valid()
      reads this
    {
      WellFormed(Value())
    }

    constructor (y: Option<int>, m: Option<int>, d: Option<int>)
      ensures Valid() && Value() == Construct(y, m, d)
    {
      var v := Construct(y, m, d);
      valid := v.Day?;
      if v.Day? {
        year, month, day := v.year, v.month, v.day;
      }
    }

    method SetDate(d: int)
      requires Valid()
      modifies this
      ensures Valid() && Value() == SetDateOf(old(Value()), d)
    {
      var v := SetDateOf(Value(), d);
      if v.Day? {
        year, month, day := v.year, v.month, v.day;
      }
    }

    function GetMonth(): (r: Option<int>)
      reads this
      requires Valid()
      ensures r == MonthOf(Value())
    {
      if valid then Some(month) else None
    }

    function GetFullYear(): (r: Option<int>)
      reads this
      ensures r == FullYearOf(Value())
    {
      if valid then Some(year) else None
    }
  }
}
