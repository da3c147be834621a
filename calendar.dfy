/**
 * Civil dates, instants and the anomaly ("holiday") calendar that
 * `BatchCOVIDLogisticProphet` hands to every forecaster it builds.
 *
 * Instants are integers counting nanoseconds since 1970-01-01 00:00, as pandas
 * timestamps do; a time difference is an integer number of nanoseconds.
 */
module Calendar {
  import opened Results

  /** Nanoseconds in one day. */
  const TicksPerDay: int := 86_400_000_000_000

  /** Days from 0001-01-01 to 1970-01-01 in the proleptic Gregorian calendar. */
  const EpochOrdinal: int := 719_162

  datatype Date = Date(year: int, month: int, day: int)

  /** The Gregorian leap-year rule. */
  predicate IsLeapYear(y: int)
  {
    y % 4 == 0 && (y % 100 != 0 || y % 400 == 0)
  }

  function YearLength(y: int): int
  {
    if IsLeapYear(y) then 366 else 365
  }

  function DaysInMonth(y: int, m: int): int
    requires 1 <= m <= 12
  {
    if m == 2 then (if IsLeapYear(y) then 29 else 28)
    else if m == 4 || m == 6 || m == 9 || m == 11 then 30
    else 31
  }

  predicate ValidDate(d: Date)
  {
    1 <= d.year && 1 <= d.month <= 12 && 1 <= d.day <= DaysInMonth(d.year, d.month)
  }

  /** Days from 0001-01-01 to January 1 of year `y`, in closed form. */
  function DaysBeforeYear(y: int): int
    requires y >= 1
  {
    var p := y - 1;
    365 * p + p / 4 - p / 100 + p / 400
  }

  /** Days from 0001-01-01 to January 1 of year `y`, adding up one year at a time. */
  function DaysBeforeYearByYears(y: int): int
    requires y >= 1
  {
    if y == 1 then 0 else DaysBeforeYearByYears(y - 1) + YearLength(y - 1)
  }

  /** January 1 of `y + 1` comes exactly one year length after January 1 of `y`. */
  lemma NextNewYear(y: int)
    requires y >= 1
    ensures DaysBeforeYear(y + 1) == DaysBeforeYear(y) + YearLength(y)
  {
    assert y / 4 - (y - 1) / 4 == if y % 4 == 0 then 1 else 0;
    assert y / 100 - (y - 1) / 100 == if y % 100 == 0 then 1 else 0;
    assert y / 400 - (y - 1) / 400 == if y % 400 == 0 then 1 else 0;
  }

  /** The closed form counts the same days as adding up year lengths. */
  lemma {:induction false} DaysBeforeYearAddsUpYears(y: int)
    requires y >= 1
    ensures DaysBeforeYear(y) == DaysBeforeYearByYears(y)
  {
    if y > 1 {
      DaysBeforeYearAddsUpYears(y - 1);
      NextNewYear(y - 1);
    }
  }

  /** Days from January 1 to the first day of month `m` of year `y`. */
  function DaysBeforeMonth(y: int, m: int): int
    requires 1 <= m <= 12
  {
    if m == 1 then 0 else DaysBeforeMonth(y, m - 1) + DaysInMonth(y, m - 1)
  }

  /** Days from 1970-01-01 to `d` (negative before 1970). */
  function DayNumber(d: Date): int
    requires ValidDate(d)
  {
    DaysBeforeYear(d.year) + DaysBeforeMonth(d.year, d.month) + d.day - 1 - EpochOrdinal
  }

  /** The instant at which date `d` begins (what `pd.to_datetime` makes of "YYYY-MM-DD"). */
  function Midnight(d: Date): int
    requires ValidDate(d)
  {
    DayNumber(d) * TicksPerDay
  }

  /** Whole days in a time difference, rounded down (`Timedelta.days`). */
  function WholeDays(delta: int): (n: int)
    ensures n * TicksPerDay <= delta < (n + 1) * TicksPerDay
  {
    delta / TicksPerDay
  }

  /** A time difference of `n` weeks (`pd.Timedelta(weeks=n)`). */
  function Weeks(n: int): int
  {
    n * 7 * TicksPerDay
  }

  /** Day of the week of instant `t`, Monday being 0: 1970-01-01 was a Thursday. */
  function DayOfWeek(t: int): (w: nat)
    ensures w < 7
  {
    (WholeDays(t) + 3) % 7
  }

  /** One row of the holiday frame: columns holiday, ds, lower_window, ds_upper, upper_window. */
  datatype HolidayRow = HolidayRow(holiday: string, ds: int, lowerWindow: int, dsUpper: int, upperWindow: int)

  /** A block from `ds` to `dsUpper` whose upper window is the whole days between the two. */
  function Block(name: string, ds: int, dsUpper: int): HolidayRow
  {
    HolidayRow(name, ds, 0, dsUpper, WholeDays(dsUpper - ds))
  }

  const CovidStart: Date := Date(2020, 1, 1)
  const CovidEnd: Date := Date(2021, 1, 1)

  function CovidBlock(): HolidayRow
  {
    Block("covid19", Midnight(CovidStart), Midnight(CovidEnd))
  }

  /**
   * The recent-data block, from `datalag` weeks before the first clock read
   * `today1` up to the second clock read `today2`.
   */
  function DataLagBlock(datalag: int, today1: int, today2: int): HolidayRow
  {
    Block("data_lag", today1 - Weeks(datalag), today2)
  }

  /** Python truthiness of the `datalag` argument: None and 0 are false. */
  predicate Truthy(datalag: Option<int>)
  {
    datalag.Some? && datalag.value != 0
  }

  /** The holiday frame built by `__init__`, given the two reads of the clock. */
  function Holidays(datalag: Option<int>, today1: int, today2: int): (r: seq<HolidayRow>)
    ensures 1 <= |r| <= 2 && r[0] == CovidBlock()
    ensures |r| == 2 <==> Truthy(datalag)
    ensures |r| == 2 ==> r[1].holiday == "data_lag" && r[1].lowerWindow == 0 && r[1].dsUpper == today2
  {
    if Truthy(datalag) then [CovidBlock(), DataLagBlock(datalag.value, today1, today2)]
    else [CovidBlock()]
  }

  /** Adding less than a day to whole weeks leaves the whole-day count at seven per week. */
  lemma WholeDaysOfWeeks(n: int, extra: int)
    requires 0 <= extra < TicksPerDay
    ensures WholeDays(Weeks(n) + extra) == 7 * n
  {
    var q := WholeDays(Weeks(n) + extra);
    assert (q - 7 * n) * TicksPerDay <= extra < (q - 7 * n + 1) * TicksPerDay;
  }

  /** The covid block spans 2020-01-01 to 2021-01-01: 366 days, 2020 being a leap year. */
  lemma CovidBlockSpansLeapYear()
    ensures CovidBlock() == HolidayRow("covid19", Midnight(CovidStart), 0, Midnight(CovidEnd), 366)
  {
    assert IsLeapYear(2020);
    NextNewYear(2020);
    assert Midnight(CovidEnd) - Midnight(CovidStart) == 366 * TicksPerDay;
  }

  /** Whatever `datalag` is, the covid block comes first. */
  lemma HolidaysStartWithCovid(datalag: Option<int>, today1: int, today2: int)
    ensures |Holidays(datalag, today1, today2)| >= 1
    ensures Holidays(datalag, today1, today2)[0] == HolidayRow("covid19", Midnight(CovidStart), 0, Midnight(CovidEnd), 366)
  {
    CovidBlockSpansLeapYear();
  }

  /** A falsy `datalag` leaves the covid block alone. */
  lemma HolidaysWithoutLag(datalag: Option<int>, today1: int, today2: int)
    requires !Truthy(datalag)
    ensures Holidays(datalag, today1, today2) == [CovidBlock()]
  {
  }

  /**
   * A truthy `datalag` adds a second block ending at the second clock read whose upper
   * window is `7 * datalag` days, provided the clock reads are less than a day apart.
   */
  lemma HolidaysWithLag(datalag: Option<int>, today1: int, today2: int)
    requires Truthy(datalag)
    requires today1 <= today2 < today1 + TicksPerDay
    ensures var h := Holidays(datalag, today1, today2);
      && |h| == 2
      && h[0] == CovidBlock()
      && h[1] == HolidayRow("data_lag", today1 - Weeks(datalag.value), 0, today2, 7 * datalag.value)
  {
    assert today2 - (today1 - Weeks(datalag.value)) == Weeks(datalag.value) + (today2 - today1);
    WholeDaysOfWeeks(datalag.value, today2 - today1);
  }

  /** The day after a given instant falls on the next day of the week. */
  lemma DayOfWeekAdvances(t: int)
    ensures DayOfWeek(t + TicksPerDay) == (DayOfWeek(t) + 1) % 7
  {
    assert WholeDays(t + TicksPerDay) == WholeDays(t) + 1;
  }

  lemma EpochIsDayZero()
    ensures DayNumber(Date(1970, 1, 1)) == 0 && DayOfWeek(Midnight(Date(1970, 1, 1))) == 3
  {
  }

  /** 2020-01-01 was a Wednesday. */
  lemma CovidStartIsWednesday()
    ensures DayOfWeek(Midnight(CovidStart)) == 2
  {
  }
}
