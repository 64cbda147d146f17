/** Subscription periods: Date.prototype.setMonth(+1) and setFullYear(+1) on UTC dates, by the
    definitions of ECMA-262 section 21.4.1 (Day, DayFromYear, YearFromTime, MakeDay, MakeDate).
    Times are milliseconds, days count from 1 January 1970, months from 0. */
module Calendar {

  const MS_PER_DAY := 86_400_000

  function Day(t: int): int { t / MS_PER_DAY }

  function TimeWithinDay(t: int): int { t % MS_PER_DAY }

  predicate Leap(y: int) {
    y % 4 == 0 && (y % 100 != 0 || y % 400 == 0)
  }

  function DaysInYear(y: int): int {
    if Leap(y) then 366 else 365
  }

  function DayFromYear(y: int): int {
    365 * (y - 1970) + (y - 1969) / 4 - (y - 1901) / 100 + (y - 1601) / 400
  }

  /** The quotients step up exactly in the years the leap rule names. */
  lemma QuotientStep(a: int, n: int)
    requires n > 0
    ensures (a + 1) / n - a / n == if (a + 1) % n == 0 then 1 else 0
  {
    var q, r := a / n, a % n;
    if r + 1 < n {
      QuotientUnique(a + 1, n, q, r + 1);
    } else {
      assert a + 1 == (q + 1) * n + 0;
      QuotientUnique(a + 1, n, q + 1, 0);
    }
  }

  lemma QuotientUnique(a: int, n: int, q: int, r: int)
    requires n > 0 && 0 <= r < n && a == q * n + r
    ensures a / n == q && a % n == r
  {
    var d := a / n - q;
    assert d * n == r - a % n;
    assert d >= 1 ==> d * n >= n;
    assert d <= -1 ==> d * n <= -n;
  }

  lemma YearLength(y: int)
    ensures DayFromYear(y + 1) == DayFromYear(y) + DaysInYear(y)
  {
    QuotientStep(y - 1969, 4);
    QuotientStep(y - 1901, 100);
    QuotientStep(y - 1601, 400);
    SameRemainder(y - 1968, 4, 492);
    SameRemainder(y - 1900, 100, 19);
    SameRemainder(y - 1600, 400, 4);
    MultiplesNest(y);
  }

  lemma SameRemainder(a: int, n: int, k: int)
    requires n > 0
    ensures (a + k * n) % n == a % n
  {
    assert a + k * n == (a / n + k) * n + a % n;
    QuotientUnique(a + k * n, n, a / n + k, a % n);
  }

  lemma MultiplesNest(y: int)
    ensures y % 100 == 0 ==> y % 4 == 0
    ensures y % 400 == 0 ==> y % 100 == 0
  {
  }

  /** YearFromTime by stepping from `y`. */
  function YearFrom(d: int, y: int): (z: int)
    ensures DayFromYear(z) <= d < DayFromYear(z + 1)
    decreases if d < DayFromYear(y) then 1 else 0, if d < DayFromYear(y) then DayFromYear(y) - d else d - DayFromYear(y)
  {
    YearLength(y);
    YearLength(y - 1);
    if d < DayFromYear(y) then YearFrom(d, y - 1)
    else if d >= DayFromYear(y + 1) then YearFrom(d, y + 1)
    else y
  }

  function YearOf(d: int): int {
    YearFrom(d, 1970)
  }

  lemma {:induction false} YearsAscend(y: int, z: int)
    requires y <= z
    ensures DayFromYear(y) + 365 * (z - y) <= DayFromYear(z)
    decreases z - y
  {
    if y < z {
      YearLength(y);
      YearsAscend(y + 1, z);
    }
  }

  lemma YearOfIs(d: int, y: int)
    requires DayFromYear(y) <= d < DayFromYear(y) + DaysInYear(y)
    ensures YearOf(d) == y
  {
    YearLength(y);
    var z := YearOf(d);
    if z < y {
      YearsAscend(z + 1, y);
    } else if y < z {
      YearsAscend(y + 1, z);
    }
  }

  function DaysInMonth(y: int, m: int): int
    requires 0 <= m < 12
  {
    if m == 1 then (if Leap(y) then 29 else 28)
    else if m == 3 || m == 5 || m == 8 || m == 10 then 30 else 31
  }

  /** Days of the year before month m. */
  function DaysBefore(y: int, m: int): int
    requires 0 <= m <= 12
  {
    if m == 0 then 0 else DaysBefore(y, m - 1) + DaysInMonth(y, m - 1)
  }

  lemma MonthTable(y: int)
    ensures var f := if Leap(y) then 1 else 0;
            && DaysBefore(y, 1) == 31 && DaysBefore(y, 2) == 59 + f && DaysBefore(y, 3) == 90 + f
            && DaysBefore(y, 4) == 120 + f && DaysBefore(y, 5) == 151 + f && DaysBefore(y, 6) == 181 + f
            && DaysBefore(y, 7) == 212 + f && DaysBefore(y, 8) == 243 + f && DaysBefore(y, 9) == 273 + f
            && DaysBefore(y, 10) == 304 + f && DaysBefore(y, 11) == 334 + f && DaysBefore(y, 12) == DaysInYear(y)
  {
    assert DaysBefore(y, 1) == 31;
    assert DaysBefore(y, 3) == DaysBefore(y, 2) + 31;
    assert DaysBefore(y, 5) == DaysBefore(y, 4) + 31;
    assert DaysBefore(y, 7) == DaysBefore(y, 6) + 31;
    assert DaysBefore(y, 9) == DaysBefore(y, 8) + 30;
    assert DaysBefore(y, 11) == DaysBefore(y, 10) + 30;
  }

  /** The month that the k-th day of year y falls in. */
  function MonthInYear(y: int, k: int): (m: int)
    requires 0 <= k < DaysInYear(y)
    ensures 0 <= m < 12 && DaysBefore(y, m) <= k < DaysBefore(y, m + 1)
  {
    MonthTable(y);
    if k < DaysBefore(y, 1) then 0 else if k < DaysBefore(y, 2) then 1 else if k < DaysBefore(y, 3) then 2
    else if k < DaysBefore(y, 4) then 3 else if k < DaysBefore(y, 5) then 4 else if k < DaysBefore(y, 6) then 5
    else if k < DaysBefore(y, 7) then 6 else if k < DaysBefore(y, 8) then 7 else if k < DaysBefore(y, 9) then 8
    else if k < DaysBefore(y, 10) then 9 else if k < DaysBefore(y, 11) then 10 else 11
  }

  function MonthOf(d: int): (m: int)
    ensures 0 <= m < 12
  {
    YearLength(YearOf(d));
    MonthInYear(YearOf(d), d - DayFromYear(YearOf(d)))
  }

  /** Day of the month, from 1. */
  function DateOf(d: int): int {
    d - DayFromYear(YearOf(d)) - DaysBefore(YearOf(d), MonthOf(d)) + 1
  }

  /** MakeDay: months beyond December roll into the next year, days beyond the month into the next month. */
  function MakeDay(year: int, month: int, date: int): int {
    var y, m := year + month / 12, month % 12;
    DayFromYear(y) + DaysBefore(y, m) + date - 1
  }

  function SetMonth(t: int, month: int): int {
    MakeDay(YearOf(Day(t)), month, DateOf(Day(t))) * MS_PER_DAY + TimeWithinDay(t)
  }

  function SetFullYear(t: int, year: int): int {
    MakeDay(year, MonthOf(Day(t)), DateOf(Day(t))) * MS_PER_DAY + TimeWithinDay(t)
  }

  function PlusMonth(t: int): int { SetMonth(t, MonthOf(Day(t)) + 1) }

  function PlusYear(t: int): int { SetFullYear(t, YearOf(Day(t)) + 1) }

  /** A day is put together again from its year, month and date, and each date lies in its month. */
  lemma DayFromParts(d: int)
    ensures MakeDay(YearOf(d), MonthOf(d), DateOf(d)) == d
    ensures 1 <= DateOf(d) <= DaysInMonth(YearOf(d), MonthOf(d))
  {
    var k := d - DayFromYear(YearOf(d));
    YearLength(YearOf(d));
    assert MonthOf(d) == MonthInYear(YearOf(d), k);
    assert DaysBefore(YearOf(d), MonthOf(d)) <= k < DaysBefore(YearOf(d), MonthOf(d) + 1);
  }

  /** And every valid year, month and date is read back from its day. */
  lemma PartsFromDay(y: int, m: int, date: int)
    requires 0 <= m < 12 && 1 <= date <= DaysInMonth(y, m)
    ensures YearOf(MakeDay(y, m, date)) == y && MonthOf(MakeDay(y, m, date)) == m && DateOf(MakeDay(y, m, date)) == date
  {
    MonthTable(y);
    YearOfIs(MakeDay(y, m, date), y);
  }

  /** The first day of the following month, in December the first day of the following year. */
  lemma NextMonthStart(y: int, m: int)
    requires 0 <= m < 12
    ensures MakeDay(y, m + 1, 1) == MakeDay(y, m, 1) + DaysInMonth(y, m)
  {
    MonthTable(y);
    YearLength(y);
  }

  lemma MonthShift(d: int)
    ensures MakeDay(YearOf(d), MonthOf(d) + 1, DateOf(d)) == d + DaysInMonth(YearOf(d), MonthOf(d))
  {
    DayFromParts(d);
    NextMonthStart(YearOf(d), MonthOf(d));
  }

  lemma SpanOfDays(t: int, n: int)
    ensures (Day(t) + n) * MS_PER_DAY + TimeWithinDay(t) == t + MS_PER_DAY * n
  {
  }

  /** A monthly period lasts as many days as its start month has, also when the date overflows. */
  lemma MonthlyPeriodLength(t: int)
    ensures PlusMonth(t) - t == MS_PER_DAY * DaysInMonth(YearOf(Day(t)), MonthOf(Day(t)))
    ensures 28 * MS_PER_DAY <= PlusMonth(t) - t <= 31 * MS_PER_DAY
  {
    MonthShift(Day(t));
    SpanOfDays(t, DaysInMonth(YearOf(Day(t)), MonthOf(Day(t))));
  }

  lemma DayOfShift(t: int, e: int)
    ensures Day(e * MS_PER_DAY + TimeWithinDay(t)) == e
    ensures TimeWithinDay(e * MS_PER_DAY + TimeWithinDay(t)) == TimeWithinDay(t)
  {
    QuotientUnique(e * MS_PER_DAY + TimeWithinDay(t), MS_PER_DAY, e, TimeWithinDay(t));
  }

  /** The year and month after those of day d. */
  function FollowingMonth(d: int): (int, int) {
    if MonthOf(d) == 11 then (YearOf(d) + 1, 0) else (YearOf(d), MonthOf(d) + 1)
  }

  lemma NextMonthDay(d: int)
    ensures var (y, m) := FollowingMonth(d);
            MakeDay(YearOf(d), MonthOf(d) + 1, DateOf(d)) == MakeDay(y, m, DateOf(d))
    ensures 1 <= DateOf(d) <= 31
  {
    DayFromParts(d);
    SameMonthLater(YearOf(d), MonthOf(d), DateOf(d));
  }

  lemma SameMonthLater(y: int, m: int, date: int)
    requires 0 <= m < 12
    ensures MakeDay(y, m + 1, date) == if m == 11 then MakeDay(y + 1, 0, date) else MakeDay(y, m + 1, date)
  {
    if m == 11 {
      TwelfthMonth(y, date);
    }
  }

  /** Month 12 of a year is month 0 of the next. */
  lemma TwelfthMonth(y: int, date: int)
    ensures MakeDay(y, 12, date) == MakeDay(y + 1, 0, date)
  {
  }

  /** The date is kept when the next month has it, and runs over into the month after otherwise. */
  lemma MonthlyPeriodEnd(t: int)
    ensures TimeWithinDay(PlusMonth(t)) == TimeWithinDay(t)
    ensures var d, e := Day(t), Day(PlusMonth(t));
            var (y, m) := FollowingMonth(d);
            if DateOf(d) <= DaysInMonth(y, m) then YearOf(e) == y && MonthOf(e) == m && DateOf(e) == DateOf(d)
            else YearOf(e) == y && MonthOf(e) == m + 1 && DateOf(e) == DateOf(d) - DaysInMonth(y, m)
  {
    var d := Day(t);
    var (y, m) := FollowingMonth(d);
    PlusMonthDay(t);
    DateOverflow(y, m, DateOf(d));
  }

  lemma PlusMonthDay(t: int)
    ensures TimeWithinDay(PlusMonth(t)) == TimeWithinDay(t)
    ensures var (y, m) := FollowingMonth(Day(t));
            Day(PlusMonth(t)) == MakeDay(y, m, DateOf(Day(t))) && 1 <= DateOf(Day(t)) <= 31
  {
    var d := Day(t);
    DayOfShift(t, MakeDay(YearOf(d), MonthOf(d) + 1, DateOf(d)));
    NextMonthDay(d);
  }

  lemma DateOverflow(y: int, m: int, date: int)
    requires 0 <= m < 12 && 1 <= date <= 31
    ensures var e := MakeDay(y, m, date);
            if date <= DaysInMonth(y, m) then YearOf(e) == y && MonthOf(e) == m && DateOf(e) == date
            else YearOf(e) == y && MonthOf(e) == m + 1 && DateOf(e) == date - DaysInMonth(y, m)
  {
    if date <= DaysInMonth(y, m) {
      PartsFromDay(y, m, date);
    } else {
      NextMonthStart(y, m);
      PartsFromDay(y, m + 1, date - DaysInMonth(y, m));
    }
  }

  lemma YearShift(y: int, m: int, date: int)
    requires 0 <= m < 12
    ensures MakeDay(y + 1, m, date) - MakeDay(y, m, date) ==
            if (m <= 1 && Leap(y)) || (m >= 2 && Leap(y + 1)) then 366 else 365
  {
    YearLength(y);
    MonthTable(y);
    MonthTable(y + 1);
  }

  /** An annual period has 366 days exactly when a 29 February lies in it, otherwise 365. */
  lemma AnnualPeriodLength(t: int)
    ensures var y, m := YearOf(Day(t)), MonthOf(Day(t));
            PlusYear(t) - t == MS_PER_DAY * (if (m <= 1 && Leap(y)) || (m >= 2 && Leap(y + 1)) then 366 else 365)
  {
    var d := Day(t);
    DayFromParts(d);
    YearShift(YearOf(d), MonthOf(d), DateOf(d));
    SpanOfDays(t, MakeDay(YearOf(d) + 1, MonthOf(d), DateOf(d)) - d);
  }

  /** Both periods in parts. */
  lemma PeriodsByParts(t: int, d: int, y: int, m: int, date: int, shift: int)
    requires t == d * MS_PER_DAY + shift && 0 <= shift < MS_PER_DAY
    requires 0 <= m < 12 && 1 <= date <= DaysInMonth(y, m) && d == MakeDay(y, m, date)
    ensures PlusMonth(t) == MakeDay(y, m + 1, date) * MS_PER_DAY + shift
    ensures PlusYear(t) == MakeDay(y + 1, m, date) * MS_PER_DAY + shift
  {
    QuotientUnique(t, MS_PER_DAY, d, shift);
    PartsFromDay(y, m, date);
  }

  lemma DayInWinter(y: int, m: int, date: int)
    requires 0 <= m < 2
    ensures MakeDay(y, m, date) == DayFromYear(y) + (if m == 0 then 0 else 31) + date - 1
  {
    MonthTable(y);
  }

  /** A month after 31 January it is 3 March in a common year; times are milliseconds since 1970 and the
      time of day stays. */
  lemma JanuaryOverflows(y: int, t: int, shift: int)
    requires 0 <= shift < 86_400_000 && t == (DayFromYear(y) + 30) * 86_400_000 + shift
    ensures PlusMonth(t) == t + 31 * 86_400_000 && DayFromYear(1970) == 0
  {
    DayInWinter(y, 0, 31);
    DayInWinter(y, 1, 31);
    PeriodsByParts(t, DayFromYear(y) + 30, y, 0, 31, shift);
  }

  /** A year after 29 February it is 1 March. */
  lemma LeapDayOverflows(y: int, t: int, shift: int)
    requires Leap(y) && 0 <= shift < 86_400_000 && t == (DayFromYear(y) + 59) * 86_400_000 + shift
    ensures PlusYear(t) == (DayFromYear(y + 1) + 59) * 86_400_000 + shift
  {
    DayInWinter(y, 1, 29);
    DayInWinter(y + 1, 1, 29);
    PeriodsByParts(t, DayFromYear(y) + 59, y, 1, 29, shift);
  }
}
