/** The search for the next fire time, minute by minute over the Gregorian calendar in UTC. */
module CronSearch {
  import opened Wrappers
  import opened CronSteps
  import opened CronSyntax
  import opened Calendar
  import opened Text
  import CronParser

  const MINUTE := 60_000_000_000 // nanoseconds
  const DAY := 1440              // minutes
  const HORIZON := 366 * DAY

  // ---------------------------------------------------------------- which minutes match

  // Minute `m` counts from the start of 1970-01-01.
  function DayOf(m: int): int { m / DAY }

  function HourOf(m: int): int { m / 60 % 24 }

  function MinuteOf(m: int): int { m % 60 }

  // The two day fields are alternatives when both exclude something, and both required otherwise.
  predicate DayMatches(c: Schedule, n: int) {
    var dom, dow := DateOf(n).day in c.doms, Weekday(n) in c.dows;
    if |c.doms| != 31 && |c.dows| != 7 then dom || dow else dom && dow
  }

  predicate Matches(c: Schedule, m: int) {
    && MinuteOf(m) in c.minutes
    && HourOf(m) in c.hours
    && DateOf(DayOf(m)).month in c.months
    && DayMatches(c, DayOf(m))
  }

  function Interval(low: int, high: int): set<int> {
    Stepped(low, high, 1)
  }

  lemma {:induction false} IntervalSize(low: int, high: int)
    requires low <= high + 1
    ensures |Interval(low, high)| == high + 1 - low
    decreases high + 1 - low
  {
    if low == high + 1 {
      assert Interval(low, high) == {};
    } else {
      IntervalSize(low, high - 1);
      assert Interval(low, high) == Interval(low, high - 1) + {high};
    }
  }

  lemma {:induction false} SubsetSize<T>(a: set<T>, b: set<T>)
    requires a <= b
    ensures |a| <= |b|
    ensures |a| == |b| ==> a == b
  {
    assert b == a + (b - a);
    if a != b { assert b - a != {}; }
  }

  predicate Excludes(values: set<int>, f: Field) {
    exists v | f.Min() <= v <= f.Max() :: v !in values
  }

  // Counting a field's values tells whether it excludes any, as long as they lie in the field.
  lemma {:induction false} CountTellsFull(values: set<int>, f: Field)
    requires Within(values, f)
    ensures |values| != f.Max() + 1 - f.Min() <==> Excludes(values, f)
  {
    IntervalSize(f.Min(), f.Max());
    assert values <= Interval(f.Min(), f.Max());
    SubsetSize(values, Interval(f.Min(), f.Max()));
    if Excludes(values, f) {
      var v :| f.Min() <= v <= f.Max() && v !in values;
      assert v in Interval(f.Min(), f.Max());
    } else {
      assert values == Interval(f.Min(), f.Max());
    }
  }

  // A day matches by either day field if both exclude something, and otherwise by the one that
  // does.
  lemma DayRule(c: Schedule, n: int)
    requires ValidSchedule(c)
    ensures var dom, dow := DateOf(n).day in c.doms, Weekday(n) in c.dows;
      DayMatches(c, n) <==>
        if Excludes(c.doms, DaysOfMonth) && Excludes(c.dows, DaysOfWeek) then dom || dow
        else if Excludes(c.doms, DaysOfMonth) then dom
        else if Excludes(c.dows, DaysOfWeek) then dow
        else true
  {
    CountTellsFull(c.doms, DaysOfMonth);
    CountTellsFull(c.dows, DaysOfWeek);
  }

  // ---------------------------------------------------------------- the search

  function FirstMatch(c: Schedule, m: int, last: int): Option<int>
    decreases last + 1 - m
  {
    if m > last then None else if Matches(c, m) then Some(m) else FirstMatch(c, m + 1, last)
  }

  lemma {:induction false} FirstMatchIsFirst(c: Schedule, m: int, last: int)
    ensures match FirstMatch(c, m, last)
            case Some(k) => m <= k <= last && Matches(c, k) && forall j | m <= j < k :: !Matches(c, j)
            case None => forall j | m <= j <= last :: !Matches(c, j)
    decreases last + 1 - m
  {
    hide Matches;
    if m <= last && !Matches(c, m) { FirstMatchIsFirst(c, m + 1, last); }
  }

  // The first whole minute after an instant.
  function MinuteAfter(from: int): int {
    from / MINUTE + 1
  }

  function Next(expr: string, from: int): Result<int, Error> {
    match ParseSchedule(expr)
    case Err(e) => Err(e)
    case Ok(c) =>
      match FirstMatch(c, MinuteAfter(from), MinuteAfter(from) + HORIZON)
      case None => Err(NoneWithinAYear)
      case Some(m) => Ok(m * MINUTE)
  }

  lemma {:induction false} WholeMinutes(from: int, m: int)
    ensures from < m * MINUTE <==> MinuteAfter(from) <= m
    ensures m * MINUTE % MINUTE == 0 && m * MINUTE / MINUTE == m
  {
  }

  // The next time is the least matching minute strictly after the instant, and there is none
  // exactly when no minute up to the deadline matches. What matches is the schedule as the code
  // reads it, which is the one meant if no step leaves the 64 bits.
  lemma NextIsLeast(expr: string, from: int)
    requires ParseSchedule(expr).Ok?
    ensures var c := ParseSchedule(expr).value;
      match Next(expr, from)
      case Ok(t) =>
        && t % MINUTE == 0 && from < t && Matches(c, t / MINUTE) && t / MINUTE <= MinuteAfter(from) + HORIZON
        && forall m | Matches(c, m) && from < m * MINUTE :: t <= m * MINUTE
      case Err(e) =>
        && e == NoneWithinAYear
        && forall m | Matches(c, m) && from < m * MINUTE :: MinuteAfter(from) + HORIZON < m
    ensures NoOverflow(expr) <==> Meant(expr) == ParseSchedule(expr)
  {
    hide Matches, ParseSchedule, Meant, NoOverflow;
    ParsedAsMeant(expr);
    var c := ParseSchedule(expr).value;
    var found := FirstMatch(c, MinuteAfter(from), MinuteAfter(from) + HORIZON);
    FirstMatchIsFirst(c, MinuteAfter(from), MinuteAfter(from) + HORIZON);
    forall m | Matches(c, m) && from < m * MINUTE ensures MinuteAfter(from) <= m {
      WholeMinutes(from, m);
    }
    if found.Some? { WholeMinutes(from, found.value); }
  }

  method NextCronTime(expr: string, from: int) returns (r: Result<int, Error>)
    ensures r == Next(expr, from)
  {
    hide ParseSchedule;
    hide DateOf;
    var parsed := CronParser.Parse(expr);
    if parsed.Err? { return Err(parsed.error); }
    var c := parsed.value;
    var domRestricted, dowRestricted := |c.doms| != 31, |c.dows| != 7;
    var current := from / MINUTE + 1;
    var deadline := current + HORIZON;
    ghost var start := current;
    while current <= deadline
      invariant start <= current <= deadline + 1
      invariant FirstMatch(c, start, deadline) == FirstMatch(c, current, deadline)
    {
      if MinuteOf(current) !in c.minutes { current := current + 1; continue; }
      if HourOf(current) !in c.hours { current := current + 1; continue; }
      var today := DayOf(current);
      if DateOf(today).month !in c.months { current := current + 1; continue; }
      var domMatch, dowMatch := DateOf(today).day in c.doms, Weekday(today) in c.dows;
      if domRestricted && dowRestricted {
        if !domMatch && !dowMatch { current := current + 1; continue; }
      } else {
        if !domMatch || !dowMatch { current := current + 1; continue; }
      }
      return Ok(current * MINUTE);
    }
    return Err(NoneWithinAYear);
  }

  // ---------------------------------------------------------------- when the search always succeeds

  // Some allowed day of an allowed month occurs in every year.
  predicate YearlyDay(c: Schedule) {
    exists month, day | month in c.months && day in c.doms :: day <= DaysInMonth(false, month)
  }

  predicate Perennial(c: Schedule) {
    Excludes(c.dows, DaysOfWeek) || YearlyDay(c)
  }

  lemma Pick(values: set<int>, f: Field) returns (v: int)
    requires Within(values, f)
    ensures v in values && f.Min() <= v <= f.Max()
  {
    SomeWithin(values, f);
    v :| f.Min() <= v <= f.Max() && v in values;
  }

  predicate DayFits(c: Schedule, n: int) {
    DateOf(n).month in c.months && DayMatches(c, n)
  }

  // Within a year of any day there is one that matches.
  lemma MatchingDay(c: Schedule, n: int) returns (k: int)
    requires ValidSchedule(c) && Perennial(c)
    ensures n <= k <= n + 365 && DayFits(c, k)
  {
    if Excludes(c.dows, DaysOfWeek) {
      var month := Pick(c.months, Months);
      var weekday := Pick(c.dows, DaysOfWeek);
      k := WeekdayWithinAYear(n, month, weekday);
    } else {
      var month, day :| month in c.months && day in c.doms && day <= DaysInMonth(false, month);
      k := DateWithinAYear(n, month, day);
    }
    DayRule(c, k);
  }

  lemma {:induction false} AtTime(n: int, hour: int, minute: int)
    requires 0 <= hour <= 23 && 0 <= minute <= 59
    ensures var m := n * DAY + hour * 60 + minute; DayOf(m) == n && HourOf(m) == hour && MinuteOf(m) == minute
  {
    var m := n * DAY + hour * 60 + minute;
    assert m / 60 == n * 24 + hour;
    assert (m / 60) % 24 == hour;
  }

  // In particular an unrestricted day of the month always suffices.
  lemma EveryDayOfMonthSuffices(c: Schedule)
    requires ValidSchedule(c) && !Excludes(c.doms, DaysOfMonth)
    ensures Perennial(c)
  {
    var month := Pick(c.months, Months);
    assert 1 in c.doms && 1 <= DaysInMonth(false, month);
  }

  // ---------------------------------------------------------------- any schedule

  // Days in a row that must hold a fitting one for the search to succeed: the deadline is 366 days
  // away, and a schedule that includes the first and the last minute of a day gains another.
  function Reach(c: Schedule): int {
    if 0 in c.minutes && 59 in c.minutes && 0 in c.hours && 23 in c.hours then 367 else 366
  }

  predicate WindowFits(c: Schedule, n: int) {
    exists k | n < k <= n + Reach(c) :: DayFits(c, k)
  }

  lemma MatchesAt(c: Schedule, n: int, hour: int, minute: int)
    requires 0 <= hour <= 23 && 0 <= minute <= 59 && hour in c.hours && minute in c.minutes && DayFits(c, n)
    ensures Matches(c, n * DAY + hour * 60 + minute)
  {
    AtTime(n, hour, minute);
  }

  // A fitting day around the first minute of the search gives a match before the deadline.
  lemma MatchInReach(c: Schedule, from: int) returns (m: int)
    requires Fires(c) && forall n :: WindowFits(c, n)
    ensures from <= m <= from + HORIZON && Matches(c, m)
  {
    hide Matches, DayFits;
    var hour :| 0 <= hour <= 23 && hour in c.hours;
    var minute :| 0 <= minute <= 59 && minute in c.minutes;
    var today := DayOf(from);
    assert WindowFits(c, today - 1);
    var k :| today - 1 < k <= today - 1 + Reach(c) && DayFits(c, k);
    if Reach(c) == 367 {
      if k == today { hour, minute := 23, 59; }
      if k == today + 366 { hour, minute := 0, 0; }
    } else if k == today && today * DAY + hour * 60 + minute < from {
      assert WindowFits(c, today);
      k :| today < k <= today + Reach(c) && DayFits(c, k);
    }
    m := k * DAY + hour * 60 + minute;
    MatchesAt(c, k, hour, minute);
  }

  // Without one, the search from the first or from the last minute of a day fails.
  lemma NoMatchInReach(c: Schedule, n: int) returns (first: int)
    requires !WindowFits(c, n)
    ensures forall m | first <= m <= first + HORIZON :: !Matches(c, m)
  {
    hide DateOf, DayMatches;
    first := if 59 in c.minutes && 23 in c.hours then (n + 1) * DAY else n * DAY + DAY - 1;
    forall m | first <= m <= first + HORIZON ensures !Matches(c, m) {
      var k := DayOf(m);
      if n < k <= n + Reach(c) {
        assert !DayFits(c, k);
      } else if k == n {
        AtTime(n, 23, 59);
      } else {
        AtTime(n + 367, 0, 0);
      }
    }
  }

  // The search finds something from this minute.
  predicate Succeeds(c: Schedule, first: int) {
    FirstMatch(c, first, first + HORIZON).Some?
  }

  lemma WindowsDecide(c: Schedule)
    requires Fires(c)
    ensures (forall first :: Succeeds(c, first)) <==> forall n :: WindowFits(c, n)
  {
    hide Matches, WindowFits, FirstMatch, Fires;
    if forall n :: WindowFits(c, n) {
      forall first ensures Succeeds(c, first) {
        var m := MatchInReach(c, first);
        FirstMatchIsFirst(c, first, first + HORIZON);
      }
    } else {
      var n :| !WindowFits(c, n);
      var first := NoMatchInReach(c, n);
      FirstMatchIsFirst(c, first, first + HORIZON);
      assert !Succeeds(c, first);
    }
  }

  // The calendar repeats after 400 years, so the windows of one such era decide.
  lemma EraOfWindows(c: Schedule)
    ensures (forall n :: WindowFits(c, n)) <==> forall n | 0 <= n < ERA :: WindowFits(c, n)
  {
    hide WindowFits;
    if forall n | 0 <= n < ERA :: WindowFits(c, n) {
      forall n ensures WindowFits(c, n) {
        var e := n % ERA;
        assert WindowFits(c, e);
        WindowRepeats(c, e, n / ERA);
      }
    }
  }

  lemma WindowRepeats(c: Schedule, n: int, eras: int)
    requires WindowFits(c, n)
    ensures WindowFits(c, n + eras * ERA)
  {
    hide DateOf;
    var k :| n < k <= n + Reach(c) && DayFits(c, k);
    CalendarRepeats(k, eras);
    assert DayFits(c, k + eras * ERA);
  }

  lemma EveryStart(c: Schedule, expr: string)
    requires ParseSchedule(expr) == Ok(c)
    ensures (forall from :: Next(expr, from).Ok?) <==> forall first :: Succeeds(c, first)
  {
    hide FirstMatch, ParseSchedule;
    if forall from :: Next(expr, from).Ok? {
      forall first ensures Succeeds(c, first) {
        assert MinuteAfter((first - 1) * MINUTE) == first by { WholeMinutes(first, first - 1); }
        assert Next(expr, (first - 1) * MINUTE).Ok?;
      }
    } else {
      var from :| Next(expr, from).Err?;
      assert !Succeeds(c, MinuteAfter(from));
    }
  }

  // ---------------------------------------------------------------- schedules as they are meant

  // The end of 29 February 2028, from where the next one is four years away.
  const LEAP_DAY_OVER := (YearStart(2028) + 60) * DAY * MINUTE

  lemma OnlyLeapDays(c: Schedule, n: int)
    requires ValidSchedule(c) && !Perennial(c) && DayFits(c, n)
    ensures DateOf(n).month == 2 && DateOf(n).day == 29 && Leap(DateOf(n).year)
  {
    DayRule(c, n);
    if !Excludes(c.doms, DaysOfMonth) { EveryDayOfMonthSuffices(c); }
    assert DateOf(n).day > DaysInMonth(false, DateOf(n).month);
  }

  lemma {:induction false} LeapDayNumber(y: int)
    requires Leap(y)
    ensures DayNumber(Date(y, 2, 29)) == YearStart(y) + 59
  {
    assert MonthStart(true, 2) == MonthStart(true, 1) + 31;
  }

  lemma {:induction false} NoLeapDaySoon(n: int)
    requires YearStart(2028) + 60 <= n <= YearStart(2028) + 60 + 366
    ensures !(DateOf(n).month == 2 && DateOf(n).day == 29 && Leap(DateOf(n).year))
  {
    hide DateOf;
    var d := DateOf(n);
    DateRoundTrip(n, d);
    if d.month == 2 && d.day == 29 && Leap(d.year) {
      LeapDayNumber(d.year);
      if d.year <= 2028 { YearStartMonotone(d.year, 2028); }
      if d.year >= 2030 { YearStartMonotone(2030, d.year); }
    }
  }

  lemma SearchFailsAfterLeapDay(c: Schedule)
    requires ValidSchedule(c) && !Perennial(c)
    ensures FirstMatch(c, MinuteAfter(LEAP_DAY_OVER), MinuteAfter(LEAP_DAY_OVER) + HORIZON).None?
  {
    var start := MinuteAfter(LEAP_DAY_OVER);
    var found := FirstMatch(c, start, start + HORIZON);
    FirstMatchIsFirst(c, start, start + HORIZON);
    if found.Some? {
      var n := DayOf(found.value);
      assert start == (YearStart(2028) + 60) * DAY + 1;
      assert YearStart(2028) + 60 <= n <= YearStart(2028) + 60 + 366;
      OnlyLeapDays(c, n);
      NoLeapDaySoon(n);
    }
  }

  lemma FailsAfterLeapDay(expr: string)
    requires Meant(expr).Ok? && NoOverflow(expr) && !Perennial(Meant(expr).value)
    ensures Next(expr, LEAP_DAY_OVER) == Err(NoneWithinAYear)
  {
    hide Matches, YearStart, FirstMatch, ParseSchedule, Meant, Perennial, ValidSchedule, NoOverflow, Fires;
    ParsedAsMeant(expr);
    SearchFailsAfterLeapDay(ParseSchedule(expr).value);
  }

  lemma PerennialWindows(c: Schedule)
    requires ValidSchedule(c) && Perennial(c)
    ensures forall n :: WindowFits(c, n)
  {
    hide Perennial, ValidSchedule, DayFits;
    forall n ensures WindowFits(c, n) { var k := MatchingDay(c, n + 1); }
  }

  // An accepted expression has a next time from every instant exactly when, over 400 years, every
  // stretch of 366 days holds a day that fits (367 if it includes both ends of a day). If no step
  // leaves the 64 bits, that is exactly when the expression restricts the weekday or allows some
  // day that every year has; otherwise it fires on 29 February at most, and the search gives up
  // after each one.
  lemma SearchIsComplete(expr: string)
    requires ParseSchedule(expr).Ok?
    ensures (forall from :: Next(expr, from).Ok?) <==>
              forall n | 0 <= n < ERA :: WindowFits(ParseSchedule(expr).value, n)
    ensures Meant(expr).Ok?
    ensures NoOverflow(expr) ==> ((forall from :: Next(expr, from).Ok?) <==> Perennial(Meant(expr).value))
  {
    hide Next, ParseSchedule, Meant, NoOverflow, Perennial, ValidSchedule, Fires, WindowFits, Succeeds;
    var c := ParseSchedule(expr).value;
    ParsedAsMeant(expr);
    WindowsDecide(c);
    EraOfWindows(c);
    EveryStart(c, expr);
    if NoOverflow(expr) {
      if Perennial(c) { PerennialWindows(c); } else { FailsAfterLeapDay(expr); }
    }
  }

  lemma {:induction false} LeapDaysApart(n1: int, n2: int)
    requires n1 <= n2 <= n1 + 1400
    requires DateOf(n1).month == 2 && DateOf(n1).day == 29 && Leap(DateOf(n1).year)
    requires DateOf(n2).month == 2 && DateOf(n2).day == 29 && Leap(DateOf(n2).year)
    ensures n1 == n2
  {
    hide DateOf;
    var y1, y2 := DateOf(n1).year, DateOf(n2).year;
    DateRoundTrip(n1, DateOf(n1));
    DateRoundTrip(n2, DateOf(n2));
    LeapDayNumber(y1);
    LeapDayNumber(y2);
    hide DayNumber;
    LeapYearsApart(y1, y2);
  }

  lemma {:induction false} FourYears(y1: int, y2: int)
    requires Leap(y1) && Leap(y2) && y1 < y2
    ensures y2 >= y1 + 4
  {
  }

  lemma {:induction false} LeapYearsApart(y1: int, y2: int)
    requires Leap(y1) && Leap(y2) && YearStart(y1) <= YearStart(y2) <= YearStart(y1) + 1400
    ensures y1 == y2
  {
    hide YearStart;
    if y1 < y2 { FourYears(y1, y2); YearStartMonotone(y1, y2); }
    if y2 < y1 { FourYears(y2, y1); YearStartMonotone(y2, y1); }
  }

  // A schedule that only fires on 29 February fires on one such day until the search gives up.
  lemma LeapDayFiresStayTogether(c: Schedule, m: int, next: int)
    requires ValidSchedule(c) && !Perennial(c) && Matches(c, m) && Matches(c, next)
    requires m < next <= m + 1 + HORIZON
    ensures DayOf(m) == DayOf(next)
  {
    hide DateOf;
    OnlyLeapDays(c, DayOf(m));
    OnlyLeapDays(c, DayOf(next));
    LeapDaysApart(DayOf(m), DayOf(next));
  }

  lemma {:induction false} OneSegment(text: string, g: Segment, f: Field, a: Arith)
    requires WellFormed(g) && SegmentText(g) == text && InRange(g, f)
    requires text != "" && NoSpace(text) && ',' !in text
    ensures FieldValues(text, f, a) == Ok(Denotation(g, f, a))
    ensures FieldFits(text, f) <==> StepsFit(g, f)
  {
    hide Denotation, StepsFit, Trim, Split;
    TrimNoSpace(text);
    GrammarIsRead(g);
    SegmentMeaning(text, f, a);
    SplitLast(text, ',');
    assert [text][1..] == [];
    assert Segments([text]) == [text] + Segments([]);
    assert SegmentsOf(text) == [text];
    ListField([text], f, a);
    assert UnionValues([], f, a) == Ok({});
    assert Denotation(g, f, a) + {} == Denotation(g, f, a);
  }

  lemma {:induction false} SingleField(text: string, v: int, f: Field, a: Arith)
    requires Atoi(text) == Some(v) && Plain(text) && f.Min() <= v <= f.Max()
    ensures FieldValues(text, f, a) == Ok({v}) && FieldFits(text, f)
  {
    hide Filled, Stepped;
    NumeralChars(text);
    var g := Segment(Single(text), None);
    OneSegment(text, g, f, a);
    UnitSteps(v, v);
    OneStep(v);
  }

  lemma {:induction false} StarField(f: Field, a: Arith)
    ensures FieldValues("*", f, a) == Ok(Interval(f.Min(), f.Max())) && FieldFits("*", f)
  {
    hide Filled, Stepped;
    OneSegment("*", Segment(Star, None), f, a);
    UnitSteps(f.Min(), f.Max());
  }

  predicate Word(w: string) {
    w != "" && NoSpace(w)
  }

  lemma {:induction false} FiveFields(a: string, b: string, c: string, d: string, e: string)
    requires Word(a) && Word(b) && Word(c) && Word(d) && Word(e)
    ensures Fields(Trim(a + " " + (b + " " + (c + " " + (d + " " + e))))) == [a, b, c, d, e]
  {
    hide Fields;
    hide Trim;
    var fromD := d + " " + e;
    var fromC := c + " " + fromD;
    var fromB := b + " " + fromC;
    var fromA := a + " " + fromB;
    FieldsWord(e, "");
    FieldsWord(d, e);
    FieldsWord(c, fromD);
    FieldsWord(b, fromC);
    FieldsWord(a, fromB);
    assert fromD[|fromD| - 1] == e[|e| - 1];
    assert fromC[|fromC| - 1] == fromD[|fromD| - 1];
    assert fromB[|fromB| - 1] == fromC[|fromC| - 1];
    assert fromA[|fromA| - 1] == fromB[|fromB| - 1] && fromA[0] == a[0];
    TrimmedEnds(fromA);
  }

  // An expression that is accepted and not perennial: midnight on 29 February.
  const LEAP_DAY_EXPR := "0" + " " + ("0" + " " + ("29" + " " + ("2" + " " + "*")))

  lemma {:induction false} LeapDayExpression()
    ensures Meant(LEAP_DAY_EXPR) == Ok(Schedule({0}, {0}, {29}, {2}, Interval(0, 6))) && NoOverflow(LEAP_DAY_EXPR)
    ensures !Perennial(Schedule({0}, {0}, {29}, {2}, Interval(0, 6)))
  {
    hide FieldValues, FieldFits, Fields, Trim, ReadFields;
    FiveFields("0", "0", "29", "2", "*");
    FiveReads(["0", "0", "29", "2", "*"], Unbounded);
    AllFit(["0", "0", "29", "2", "*"]);
    assert DecimalValue("2") == 2 && DecimalValue("29") == 29;
    SingleField("0", 0, Minutes, Unbounded);
    SingleField("0", 0, Hours, Unbounded);
    SingleField("29", 29, DaysOfMonth, Unbounded);
    SingleField("2", 2, Months, Unbounded);
    StarField(DaysOfWeek, Unbounded);
    StarField(DaysOfWeek, Wrapping);
    assert DowValues("*", Unbounded) == FieldValues("*", DaysOfWeek, Unbounded);
  }
}
