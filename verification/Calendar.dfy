/** The proleptic Gregorian calendar in UTC, by day number since 1970-01-01. */
module Calendar {

  datatype Date = Date(year: int, month: int, day: int)

  predicate Leap(y: int) {
    y % 4 == 0 && (y % 100 != 0 || y % 400 == 0)
  }

  function YearLength(leap: bool): int {
    if leap then 366 else 365
  }

  function DaysInMonth(leap: bool, m: int): (d: int)
    ensures 28 <= d <= 31
  {
    if m == 2 then (if leap then 29 else 28)
    else if m == 4 || m == 6 || m == 9 || m == 11 then 30
    else 31
  }

  predicate ValidDate(d: Date) {
    1 <= d.month <= 12 && 1 <= d.day <= DaysInMonth(Leap(d.year), d.month)
  }

  // The rule the calendar is: the day after a date.
  function Successor(d: Date): Date {
    if d.day < DaysInMonth(Leap(d.year), d.month) then Date(d.year, d.month, d.day + 1)
    else if d.month < 12 then Date(d.year, d.month + 1, 1)
    else Date(d.year + 1, 1, 1)
  }

  // ---------------------------------------------------------------- years

  const EPOCH_OFFSET := 719162  // days from 0001-01-01 to 1970-01-01

  // The day number of 1 January.
  function YearStart(y: int): int {
    365 * (y - 1) + (y - 1) / 4 - (y - 1) / 100 + (y - 1) / 400 - EPOCH_OFFSET
  }

  // Counting multiples of k up to y.
  lemma {:induction false} QuotientStep(y: int, k: int)
    requires k == 4 || k == 100 || k == 400
    ensures y / k == (y - 1) / k + if y % k == 0 then 1 else 0
  {
  }

  lemma {:induction false} Multiples(y: int)
    ensures y % 400 == 0 ==> y % 100 == 0
    ensures y % 100 == 0 ==> y % 4 == 0
  {
  }

  lemma {:induction false} YearStartStep(y: int)
    ensures YearStart(y + 1) == YearStart(y) + YearLength(Leap(y))
  {
    QuotientStep(y, 4);
    QuotientStep(y, 100);
    QuotientStep(y, 400);
    Multiples(y);
  }

  lemma {:induction false} YearStartMonotone(a: int, b: int)
    requires a <= b
    ensures YearStart(a) + 365 * (b - a) <= YearStart(b)
    decreases b - a
  {
    if a < b {
      YearStartStep(a);
      YearStartMonotone(a + 1, b);
    }
  }

  // The year of a day from which year `y` has not ended before, found going up ...
  function YearUp(n: int, y: int): int
    requires YearStart(y) <= n
    decreases n - YearStart(y)
  {
    YearStartStep(y);
    if n < YearStart(y + 1) then y else YearUp(n, y + 1)
  }

  // ... and going down.
  function YearDown(n: int, y: int): int
    requires n < YearStart(y + 1)
    decreases YearStart(y + 1) - n
  {
    YearStartStep(y);
    if YearStart(y) <= n then y else YearDown(n, y - 1)
  }

  lemma {:induction false} YearUpBounds(n: int, y: int)
    requires YearStart(y) <= n
    ensures YearStart(YearUp(n, y)) <= n < YearStart(YearUp(n, y) + 1)
    decreases n - YearStart(y)
  {
    YearStartStep(y);
    if n >= YearStart(y + 1) { YearUpBounds(n, y + 1); }
  }

  lemma {:induction false} YearDownBounds(n: int, y: int)
    requires n < YearStart(y + 1)
    ensures YearStart(YearDown(n, y)) <= n < YearStart(YearDown(n, y) + 1)
    decreases YearStart(y + 1) - n
  {
    YearStartStep(y);
    if n < YearStart(y) { YearDownBounds(n, y - 1); }
  }

  function YearOf(n: int): int {
    if n >= 0 then YearUp(n, 1970) else YearDown(n, 1969)
  }

  lemma {:induction false} YearOfBounds(n: int)
    ensures YearStart(YearOf(n)) <= n < YearStart(YearOf(n) + 1)
  {
    if n >= 0 { YearUpBounds(n, 1970); } else { YearDownBounds(n, 1969); }
  }

  lemma {:induction false} YearOfUnique(n: int, y: int)
    requires YearStart(y) <= n < YearStart(y + 1)
    ensures YearOf(n) == y
  {
    var z := YearOf(n);
    YearOfBounds(n);
    if z < y { YearStartMonotone(z + 1, y); }
    if y < z { YearStartMonotone(y + 1, z); }
  }

  // ---------------------------------------------------------------- months

  // Days of a year before its month `m`.
  function MonthStart(leap: bool, m: int): (d: int)
    requires 1 <= m <= 13
    ensures 28 * (m - 1) <= d <= 31 * (m - 1)
    decreases m
  {
    if m == 1 then 0 else MonthStart(leap, m - 1) + DaysInMonth(leap, m - 1)
  }

  lemma {:induction false} MonthsFillYear(leap: bool)
    ensures MonthStart(leap, 13) == YearLength(leap)
  {
    assert MonthStart(leap, 4) == 31 + DaysInMonth(leap, 2) + 31;
    assert MonthStart(leap, 8) == MonthStart(leap, 4) + 30 + 31 + 30 + 31;
    assert MonthStart(leap, 13) == MonthStart(leap, 8) + 31 + 30 + 31 + 30 + 31;
  }

  lemma {:induction false} MonthStartMonotone(leap: bool, a: int, b: int)
    requires 1 <= a <= b <= 13
    ensures MonthStart(leap, a) <= MonthStart(leap, b)
    decreases b - a
  {
    if a < b { MonthStartMonotone(leap, a, b - 1); }
  }

  function FindMonth(leap: bool, doy: int, m: int): (r: int)
    requires 1 <= m <= 12 && MonthStart(leap, m) <= doy < YearLength(leap)
    ensures m <= r <= 12 && MonthStart(leap, r) <= doy < MonthStart(leap, r + 1)
    decreases 12 - m
  {
    MonthsFillYear(leap);
    if doy < MonthStart(leap, m + 1) then m else FindMonth(leap, doy, m + 1)
  }

  lemma {:induction false} MonthNotAfter(leap: bool, doy: int, a: int, b: int)
    requires 1 <= a <= 12 && 1 <= b <= 12
    requires MonthStart(leap, b) <= doy < MonthStart(leap, a + 1)
    ensures b <= a
  {
    if a < b { MonthStartMonotone(leap, a + 1, b); }
  }

  // ---------------------------------------------------------------- dates

  function DayNumber(d: Date): int
    requires ValidDate(d)
  {
    YearStart(d.year) + MonthStart(Leap(d.year), d.month) + d.day - 1
  }

  function DateOf(n: int): (d: Date)
    ensures ValidDate(d)
  {
    var y := YearOf(n);
    YearOfBounds(n);
    YearStartStep(y);
    var doy := n - YearStart(y);
    var m := FindMonth(Leap(y), doy, 1);
    Date(y, m, doy - MonthStart(Leap(y), m) + 1)
  }

  // Sunday is 0; 1970-01-01 was a Thursday.
  function Weekday(n: int): (w: int)
    ensures 0 <= w <= 6
  {
    (n + 4) % 7
  }

  lemma {:induction false} DayNumberBounds(d: Date)
    requires ValidDate(d)
    ensures YearStart(d.year) <= DayNumber(d) < YearStart(d.year + 1)
  {
    MonthsFillYear(Leap(d.year));
    YearStartStep(d.year);
    MonthStartMonotone(Leap(d.year), d.month + 1, 13);
  }

  lemma {:induction false} DateAt(n: int, d: Date)
    requires ValidDate(d) && DayNumber(d) == n
    ensures DateOf(n) == d
  {
    DayNumberBounds(d);
    YearOfUnique(n, d.year);
    MonthNotAfter(Leap(d.year), n - YearStart(d.year), d.month, DateOf(n).month);
    MonthNotAfter(Leap(d.year), n - YearStart(d.year), DateOf(n).month, d.month);
  }

  // Day numbers and valid dates are in one-to-one correspondence ...
  lemma {:induction false} DateRoundTrip(n: int, d: Date)
    ensures DayNumber(DateOf(n)) == n
    ensures ValidDate(d) ==> DateOf(DayNumber(d)) == d
  {
    if ValidDate(d) { DateAt(DayNumber(d), d); }
  }

  lemma {:induction false} SuccessorNumber(d: Date)
    requires ValidDate(d)
    ensures ValidDate(Successor(d)) && DayNumber(Successor(d)) == DayNumber(d) + 1
  {
    if d.day < DaysInMonth(Leap(d.year), d.month) {
    } else if d.month < 12 {
      assert MonthStart(Leap(d.year), d.month + 1) == MonthStart(Leap(d.year), d.month) + d.day;
    } else {
      MonthsFillYear(Leap(d.year));
      YearStartStep(d.year);
      assert MonthStart(Leap(d.year), 13) == MonthStart(Leap(d.year), 12) + d.day;
      assert DayNumber(d) == YearStart(d.year + 1) - 1;
    }
  }

  lemma {:induction false} NextDate(n: int)
    ensures DateOf(n + 1) == Successor(DateOf(n))
  {
    var d := DateOf(n);
    DateRoundTrip(n, d);
    SuccessorNumber(d);
    DateAt(n + 1, Successor(d));
  }

  // ... that starts at the epoch and follows the calendar's rule in both directions.
  lemma {:induction false} CalendarRule(n: int)
    ensures n == 0 ==> DateOf(n) == Date(1970, 1, 1)
    ensures DateOf(n + 1) == Successor(DateOf(n))
  {
    if n == 0 { DateAt(n, Date(1970, 1, 1)); }
    NextDate(n);
  }

  const MONTHS := [31, 28, 31, 30, 31, 30, 31, 31, 30, 31, 30, 31]

  // Thirty days hath September: every fourth year is a leap year, of the centuries every fourth.
  lemma {:induction false} MonthsAre(y: int, m: int)
    requires 1 <= m <= 12
    ensures DaysInMonth(Leap(y), m) == MONTHS[m - 1] + if m == 2 && Leap(y) then 1 else 0
    ensures Leap(2000) && Leap(2024) && !Leap(1900) && !Leap(2023) && !Leap(2100) && Leap(y + 400) == Leap(y)
  {
  }

  // Three dates as day numbers.
  lemma {:induction false} KnownDays()
    ensures ValidDate(Date(2024, 2, 29)) && DayNumber(Date(2024, 2, 29)) == 19782
    ensures DayNumber(Date(2000, 3, 1)) == 11017 && DayNumber(Date(1900, 3, 1)) == -25508
  {
    assert MonthStart(true, 3) == MonthStart(true, 2) + 29 && MonthStart(false, 3) == MonthStart(false, 2) + 28;
    assert MonthStart(true, 2) == 31 && MonthStart(false, 2) == 31;
  }

  // Weekdays follow each other from Thursday, 1970-01-01.
  lemma {:induction false} WeekdayRule(n: int)
    ensures Weekday(0) == 4
    ensures Weekday(n + 1) == if Weekday(n) == 6 then 0 else Weekday(n) + 1
  {
  }

  // Days in 400 years.
  const ERA := 146097

  lemma {:induction false} QuotientShift(y: int, k: int, m: int)
    requires k == 4 || k == 100 || k == 400
    ensures (y + k * m) / k == y / k + m && (y + k * m) % k == y % k
  {
    var q, r := y / k, y % k;
    assert y + k * m == k * (q + m) + r;
  }

  lemma {:induction false} YearStartRepeats(y: int, eras: int)
    ensures YearStart(y + 400 * eras) == YearStart(y) + eras * ERA
    ensures Leap(y + 400 * eras) == Leap(y)
  {
    QuotientShift(y - 1, 4, 100 * eras);
    QuotientShift(y - 1, 100, 4 * eras);
    QuotientShift(y - 1, 400, eras);
    QuotientShift(y, 4, 100 * eras);
    QuotientShift(y, 100, 4 * eras);
    QuotientShift(y, 400, eras);
  }

  // Months, days of the month and weekdays come round after 400 years.
  lemma {:induction false} CalendarRepeats(n: int, eras: int)
    ensures DateOf(n + eras * ERA) == DateOf(n).(year := DateOf(n).year + 400 * eras)
    ensures Weekday(n + eras * ERA) == Weekday(n)
  {
    hide YearStart, Leap, MonthStart;
    var d := DateOf(n);
    DateRoundTrip(n, d);
    hide DateOf;
    YearStartRepeats(d.year, eras);
    DateAt(n + eras * ERA, d.(year := d.year + 400 * eras));
    assert (n + eras * ERA + 4) == (n + 4) + 7 * (20871 * eras);
  }

  // Occurrences of a date that every year has are at most 366 days apart.
  lemma {:induction false} DateWithinAYear(n: int, month: int, day: int) returns (k: int)
    requires 1 <= month <= 12 && 1 <= day <= DaysInMonth(false, month)
    ensures n <= k <= n + 365 && DateOf(k).month == month && DateOf(k).day == day
  {
    var y := YearOf(n);
    YearOfBounds(n);
    YearStartStep(y);
    YearStartStep(y + 1);
    hide YearOf, DateOf, YearStart, DayNumber;
    var now := Date(y, month, day);
    var next := Date(y + 1, month, day);
    DateRoundTrip(n, now);
    DateRoundTrip(n, next);
    DayNumberBounds(now);
    DayNumberBounds(next);
    if DayNumber(now) >= n {
      k := DayNumber(now);
    } else {
      YearGap(y, month, day);
      k := DayNumber(next);
    }
  }

  lemma {:induction false} YearGap(y: int, month: int, day: int)
    requires 1 <= month <= 12 && 1 <= day <= DaysInMonth(false, month)
    ensures DayNumber(Date(y + 1, month, day)) <= DayNumber(Date(y, month, day)) + 366
  {
    YearStartStep(y);
    MonthShift(Leap(y), month);
    MonthShift(Leap(y + 1), month);
  }

  // How far the months of a year lie behind those of a year without 29 February.
  lemma {:induction false} MonthShift(leap: bool, m: int)
    requires 1 <= m <= 13
    ensures MonthStart(leap, m) == MonthStart(false, m) + if leap && m > 2 then 1 else 0
    decreases m
  {
    if m > 1 { MonthShift(leap, m - 1); }
  }

  // Any month contains every weekday, and comes round within a year.
  lemma {:induction false} WeekdayWithinAYear(n: int, month: int, weekday: int) returns (k: int)
    requires 1 <= month <= 12 && 0 <= weekday <= 6
    ensures n <= k <= n + 365 && DateOf(k).month == month && Weekday(k) == weekday
  {
    if DateOf(n).month == month && DateOf(n).day <= 22 {
      k := WeekdayInMonth(n, weekday);
    } else {
      var first := DateWithinAYear(n, month, 1);
      if first > n + 359 { LastMonthStart(n, first, month); }
      k := WeekdayInMonth(first, weekday);
    }
  }

  lemma {:induction false} WeekdayInMonth(n: int, weekday: int) returns (k: int)
    requires 0 <= weekday <= 6 && DateOf(n).day <= 22
    ensures n <= k <= n + 6 && DateOf(k).month == DateOf(n).month && Weekday(k) == weekday
  {
    k := WeekdayFrom(n, weekday);
    SameMonth(n, k);
  }

  lemma {:induction false} WeekdayFrom(n: int, weekday: int) returns (k: int)
    requires 0 <= weekday <= 6
    ensures n <= k <= n + 6 && Weekday(k) == weekday
  {
    k := n + (weekday - Weekday(n)) % 7;
  }

  lemma {:induction false} LaterInMonth(d: Date, i: int)
    requires ValidDate(d) && 0 <= i && d.day + i <= 28
    ensures var e := Date(d.year, d.month, d.day + i); ValidDate(e) && DayNumber(e) == DayNumber(d) + i
  {
  }

  lemma {:induction false} SameMonth(n: int, k: int)
    requires n <= k && DateOf(n).day + (k - n) <= 28
    ensures DateOf(k) == Date(DateOf(n).year, DateOf(n).month, DateOf(n).day + (k - n))
  {
    var d := DateOf(n);
    DateRoundTrip(n, d);
    LaterInMonth(d, k - n);
    DateAt(k, Date(d.year, d.month, d.day + (k - n)));
  }

  lemma {:induction false} YearGapAtLeast(y: int, month: int, day: int)
    requires 1 <= month <= 12 && 1 <= day <= DaysInMonth(false, month)
    ensures DayNumber(Date(y + 1, month, day)) >= DayNumber(Date(y, month, day)) + 365
  {
    YearStartStep(y);
    MonthShift(Leap(y), month);
    MonthShift(Leap(y + 1), month);
  }

  lemma {:induction false} YearBefore(first: int) returns (last: int)
    requires DateOf(first).day == 1
    ensures first - 366 <= last <= first - 365
    ensures DateOf(last).month == DateOf(first).month && DateOf(last).day == 1
  {
    var d := DateOf(first);
    DateRoundTrip(first, d);
    assert d == Date(d.year - 1 + 1, d.month, 1);
    last := FirstOf(d.year - 1, d.month, first);
  }

  // The first of the month a year before day `first`.
  lemma {:induction false} FirstOf(y: int, month: int, first: int) returns (last: int)
    requires 1 <= month <= 12 && DayNumber(Date(y + 1, month, 1)) == first
    ensures first - 366 <= last <= first - 365
    ensures DateOf(last) == Date(y, month, 1)
  {
    YearGap(y, month, 1);
    YearGapAtLeast(y, month, 1);
    last := DayNumber(Date(y, month, 1));
    DateAt(last, Date(y, month, 1));
  }

  // If the next first of a month is almost a year away, the last one was just now.
  lemma {:induction false} LastMonthStart(n: int, first: int, month: int)
    requires n + 359 < first <= n + 365 && DateOf(first).month == month && DateOf(first).day == 1
    ensures DateOf(n).month == month && DateOf(n).day <= 22
  {
    var last := YearBefore(first);
    SameMonth(last, n);
  }
}
