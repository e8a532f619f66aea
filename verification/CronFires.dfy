/** When jobs fire, in numbers and names as they are written: instants are nanoseconds since
    1970-01-01, a Thursday. */
module CronFires {
  import opened Wrappers
  import opened Text
  import opened Calendar
  import opened CronSteps
  import opened CronSyntax
  import opened CronSearch

  // ---------------------------------------------------------------- numbers

  lemma {:induction false} AtoiItoa(n: nat)
    requires n <= MAX_INT
    ensures Atoi(Itoa(n)) == Some(n) && Plain(Itoa(n))
  {
    AtoiIs(n);
    hide Itoa, Atoi;
  }

  // The numbers each field takes.
  predicate Allowed(f: Field, n: int) {
    match f
    case Minutes => 0 <= n <= 59
    case Hours => 0 <= n <= 23
    case DaysOfMonth => 1 <= n <= 31
    case Months => 1 <= n <= 12
    case DaysOfWeek => 0 <= n <= 6
  }

  lemma BoundsAre(f: Field, n: int)
    ensures Allowed(f, n) <==> f.Min() <= n <= f.Max()
  {
  }

  // A single number stands for itself if the field takes it and is refused otherwise; an asterisk
  // stands for all that the field takes.
  lemma NumberField(f: Field, n: nat, a: Arith)
    requires n <= MAX_INT
    ensures FieldValues(Itoa(n), f, a).Ok? <==> Allowed(f, n)
    ensures Allowed(f, n) ==> FieldValues(Itoa(n), f, a) == Ok({n})
    ensures FieldValues("*", f, a).Ok? && forall v :: v in FieldValues("*", f, a).value <==> Allowed(f, v)
  {
    hide Itoa, Atoi, FieldValues, Stepped;
    AtoiItoa(n);
    BoundsAre(f, n);
    StarField(f, a);
    forall v ensures v in Interval(f.Min(), f.Max()) <==> Allowed(f, v) { StarHas(f, v); }
    if Allowed(f, n) { SingleField(Itoa(n), n, f, a); } else { NumberRefused(Itoa(n), n, f, a); }
  }

  lemma StarHas(f: Field, v: int)
    ensures v in Interval(f.Min(), f.Max()) <==> Allowed(f, v)
  {
    BoundsAre(f, v);
  }

  lemma {:induction false} NumberRefused(text: string, n: int, f: Field, a: Arith)
    requires Atoi(text) == Some(n) && Plain(text) && !(f.Min() <= n <= f.Max())
    ensures FieldValues(text, f, a).Err?
  {
    NumeralChars(text);
    SegmentRefused(text, Segment(Single(text), None), f, a);
  }

  // "low-high/step" stands for every step-th number from low up to high, and "*/step" from the
  // field's first on. Steps are taken to be small enough not to overflow.
  lemma SteppedField(f: Field, low: nat, high: nat, step: nat, a: Arith)
    requires low <= MAX_INT && high <= MAX_INT && 1 <= step <= 1_000_000_000
    ensures var text := Itoa(low) + "-" + Itoa(high) + "/" + Itoa(step);
      && (FieldValues(text, f, a).Ok? <==> Allowed(f, low) && Allowed(f, high) && low <= high)
      && (FieldValues(text, f, a).Ok? ==>
            forall v :: v in FieldValues(text, f, a).value <==> low <= v <= high && (v - low) % step == 0)
    ensures var text := "*/" + Itoa(step);
      && FieldValues(text, f, a).Ok?
      && forall v :: v in FieldValues(text, f, a).value <==>
           Allowed(f, v) && (v - if f in {DaysOfMonth, Months} then 1 else 0) % step == 0
  {
    hide Itoa, Atoi, FieldValues, Stepped, Filled;
    AtoiItoa(low);
    AtoiItoa(high);
    AtoiItoa(step);
    BoundsAre(f, low);
    BoundsAre(f, high);
    NumeralChars(Itoa(low));
    NumeralChars(Itoa(high));
    NumeralChars(Itoa(step));
    var span := Segment(Span(Itoa(low), Itoa(high)), Some(Itoa(step)));
    var text := Itoa(low) + "-" + Itoa(high) + "/" + Itoa(step);
    assert SegmentText(span) == text;
    if Allowed(f, low) && Allowed(f, high) && low <= high {
      OneSegment(text, span, f, a);
      SmallSteps(low, high, step);
    } else {
      SegmentRefused(text, span, f, a);
    }
    var star := Segment(Star, Some(Itoa(step)));
    assert SegmentText(star) == "*/" + Itoa(step);
    OneSegment("*/" + Itoa(step), star, f, a);
    SmallSteps(f.Min(), f.Max(), step);
    forall v ensures Allowed(f, v) <==> f.Min() <= v <= f.Max() { BoundsAre(f, v); }
  }

  lemma SmallSteps(low: int, high: int, step: int)
    requires 0 <= low <= high <= 1000 && 1 <= step <= 1_000_000_000
    ensures Filled(low, high, step) == Stepped(low, high, step)
    ensures forall v :: v in Stepped(low, high, step) <==> low <= v <= high && (v - low) % step == 0
  {
    FilledIsStepped(low, high, step);
    hide Filled;
  }

  lemma {:induction false} SegmentRefused(text: string, g: Segment, f: Field, a: Arith)
    requires WellFormed(g) && SegmentText(g) == text && !InRange(g, f)
    requires text != "" && NoSpace(text) && ',' !in text
    ensures FieldValues(text, f, a).Err?
  {
    hide Denotation, Trim, Split, FieldValues;
    TrimNoSpace(text);
    GrammarIsRead(g);
    assert SegmentValues(text, f, a).Err?;
    SplitLast(text, ',');
    assert [text][1..] == [];
    assert Segments([text]) == [text] + Segments([]);
    assert SegmentsOf(text) == [text];
    FieldMeaning(text, f, a);
    assert SegmentsOf(text)[0] == text;
  }

  // ---------------------------------------------------------------- a time of day

  // The instant of a minute of a day.
  function Instant(day: int, hour: int, minute: int): int {
    ((day * 24 + hour) * 60 + minute) * 60 * 1_000_000_000
  }

  function Expression(minute: string, hour: string, day: string, month: string, weekday: string): string {
    minute + " " + (hour + " " + (day + " " + (month + " " + weekday)))
  }

  // The next time is the first instant of a time of day, on one of these days, after another.
  ghost predicate IsNext(next: Result<int, Error>, from: int, hour: int, minute: int, days: iset<int>) {
    next.Ok? ==>
      && from < next.value && (exists day :: day in days && next.value == Instant(day, hour, minute))
      && forall day | day in days && from < Instant(day, hour, minute) :: next.value <= Instant(day, hour, minute)
  }

  lemma InstantIs(day: int, hour: int, minute: int)
    ensures Instant(day, hour, minute) == (day * DAY + hour * 60 + minute) * MINUTE
  {
  }

  lemma {:induction false} PartsOfDay(m: int)
    ensures m == DayOf(m) * DAY + HourOf(m) * 60 + MinuteOf(m) && 0 <= HourOf(m) <= 23 && 0 <= MinuteOf(m) <= 59
  {
    assert m / 1440 == m / 60 / 24;
  }

  lemma OneTimeOfDay(c: Schedule, m: int, hour: int, minute: int)
    requires c.hours == {hour} && c.minutes == {minute} && Matches(c, m)
    ensures DayFits(c, DayOf(m)) && m * MINUTE == Instant(DayOf(m), hour, minute)
  {
    PartsOfDay(m);
    InstantIs(DayOf(m), hour, minute);
  }

  // A schedule of one time of day fires at that time on the days that fit it.
  lemma DailyTime(expr: string, c: Schedule, from: int, hour: int, minute: int, days: iset<int>)
    requires ParseSchedule(expr) == Ok(c) && c.hours == {hour} && c.minutes == {minute}
    requires 0 <= hour <= 23 && 0 <= minute <= 59 && forall n :: n in days <==> DayFits(c, n)
    ensures IsNext(Next(expr, from), from, hour, minute, days)
  {
    hide Matches, ParseSchedule, DayFits, Instant;
    NextIsLeast(expr, from);
    var next := Next(expr, from);
    if next.Ok? {
      WholeMinutes(from, next.value / MINUTE);
      var m := next.value / MINUTE;
      assert next.value == m * MINUTE;
      OneTimeOfDay(c, m, hour, minute);
      assert DayOf(m) in days;
      forall day | day in days && from < Instant(day, hour, minute) ensures next.value <= Instant(day, hour, minute) {
        MatchesAt(c, day, hour, minute);
        InstantIs(day, hour, minute);
      }
    }
  }

  // ---------------------------------------------------------------- dates

  lemma {:induction false} NumberWord(n: nat)
    requires n <= MAX_INT
    ensures Word(Itoa(n))
  {
    AtoiItoa(n);
    NumeralChars(Itoa(n));
  }

  // Five numbers, or numbers and an asterisk, in the order of the fields.
  lemma NumberFields(minute: nat, hour: nat, day: nat, month: nat)
    requires minute <= MAX_INT && hour <= MAX_INT && day <= MAX_INT && month <= MAX_INT
    ensures var expr := Expression(Itoa(minute), Itoa(hour), Itoa(day), Itoa(month), "*");
      && (ParseSchedule(expr).Ok? <==> minute <= 59 && hour <= 23 && 1 <= day <= 31 && 1 <= month <= 12)
      && (ParseSchedule(expr).Ok? ==>
            ParseSchedule(expr).value == Schedule({minute}, {hour}, {day}, {month}, Interval(0, 6)))
  {
    hide FieldValues, Fields, Trim, ReadFields, Interval, Itoa;
    NumberWord(minute);
    NumberWord(hour);
    NumberWord(day);
    NumberWord(month);
    FiveFields(Itoa(minute), Itoa(hour), Itoa(day), Itoa(month), "*");
    FiveReads([Itoa(minute), Itoa(hour), Itoa(day), Itoa(month), "*"], Wrapping);
    NumberField(Minutes, minute, Wrapping);
    NumberField(Hours, hour, Wrapping);
    NumberField(DaysOfMonth, day, Wrapping);
    NumberField(Months, month, Wrapping);
    StarField(DaysOfWeek, Wrapping);
  }

  // "minute hour day month *" is accepted for the numbers of the calendar only, and fires at that
  // time on that date of every year that has it.
  lemma YearlyJobs(minute: nat, hour: nat, day: nat, month: nat, from: int)
    requires minute <= MAX_INT && hour <= MAX_INT && day <= MAX_INT && month <= MAX_INT
    ensures var expr := Expression(Itoa(minute), Itoa(hour), Itoa(day), Itoa(month), "*");
      && (ParseSchedule(expr).Ok? <==> minute <= 59 && hour <= 23 && 1 <= day <= 31 && 1 <= month <= 12)
      && (ParseSchedule(expr).Ok? ==>
            IsNext(Next(expr, from), from, hour, minute, iset n | DateOf(n).month == month && DateOf(n).day == day))
  {
    hide ParseSchedule, Next, IsNext, Itoa, DateOf;
    NumberFields(minute, hour, day, month);
    var expr := Expression(Itoa(minute), Itoa(hour), Itoa(day), Itoa(month), "*");
    if ParseSchedule(expr).Ok? {
      var c := ParseSchedule(expr).value;
      forall n ensures DayFits(c, n) <==> DateOf(n).month == month && DateOf(n).day == day {
        DateFits(c, n, day, month);
      }
      DailyTime(expr, c, from, hour, minute, iset n | DateOf(n).month == month && DateOf(n).day == day);
    }
  }

  lemma DateFits(c: Schedule, n: int, day: int, month: int)
    requires c.doms == {day} && c.months == {month} && c.dows == Interval(0, 6)
    ensures DayFits(c, n) <==> DateOf(n).month == month && DateOf(n).day == day
  {
    IntervalSize(0, 6);
    StarHas(DaysOfWeek, Weekday(n));
    hide DateOf, Interval;
  }

  // ---------------------------------------------------------------- day names

  const NAMES := ["SUN", "MON", "TUE", "WED", "THU", "FRI", "SAT"]

  lemma {:induction false} NamesAre(i: nat)
    requires i < 7
    ensures var w := NAMES[i];
      && |w| == 3 && (forall c | c in w :: 'A' <= c <= 'Z') && DayIndex(w) == Some(i)
      && '-' !in w && ',' !in w && '/' !in w && NoSpace(w)
  {
  }

  // A name is no number.
  lemma {:induction false} NamesAreRefused(raw: string, f: Field, a: Arith)
    requires raw != "" && NoSpace(raw) && ',' !in raw && '/' !in raw && !IsDigit(raw[0]) && raw[0] != '-'
        && raw[0] != '+'
    requires raw != "*"
    ensures FieldValues(raw, f, a).Err?
  {
    hide Denotation, Trim, Split, FieldValues;
    TrimNoSpace(raw);
    NotNumeral(raw);
    if '-' in raw {
      var parts := Split(raw, '-');
      if |parts| == 2 {
        SplitTwo(raw, '-');
        assert parts[0] != "" && parts[0][0] == raw[0];
        NotNumeral(parts[0]);
      }
    }
    assert ReadSegment(raw).Err?;
    SplitLast(raw, ',');
    assert [raw][1..] == [];
    assert Segments([raw]) == [raw] + Segments([]);
    assert SegmentsOf(raw) == [raw];
    FieldMeaning(raw, f, a);
    assert SegmentsOf(raw)[0] == raw && SegmentValues(raw, f, a).Err?;
  }

  lemma NotNumeral(text: string)
    requires text != "" && !IsDigit(text[0]) && text[0] != '-' && text[0] != '+'
    ensures !Numeral(text)
  {
    assert text[0] in text;
  }

  lemma OneToken(raw: string, token: string, a: Arith)
    requires Upper(raw) == token && token != "" && NoSpace(raw) && NoSpace(token) && ',' !in token
    requires FieldValues(raw, DaysOfWeek, a).Err?
    ensures DowValues(raw, a).Ok? <==> DayTokenValues(token, a).Ok?
    ensures DowValues(raw, a).Ok? ==> DowValues(raw, a) == DayTokenValues(token, a)
  {
    hide FieldValues, Trim, Split, DayTokenValues;
    TrimNoSpace(raw);
    TrimNoSpace(token);
    SplitLast(token, ',');
    assert [token][1..] == [];
    assert Segments([token]) == [token] + Segments([]);
    assert DayTokens(raw) == [token];
    DowMeaning(raw, a);
    assert UnionDays([], a) == Ok({});
    if DayTokenValues(token, a).Ok? {
      assert DayTokenValues(token, a).value + {} == DayTokenValues(token, a).value;
    }
  }

  lemma UpperLetters(raw: string, name: string)
    requires Upper(raw) == name && name != "" && forall c | c in name :: 'A' <= c <= 'Z'
    ensures raw != "" && NoSpace(raw) && ',' !in raw && '/' !in raw
    ensures raw != "*" && !IsDigit(raw[0]) && raw[0] != '-' && raw[0] != '+'
  {
    assert |raw| == |name| && forall i | 0 <= i < |raw| :: name[i] == UpperChar(raw[i]);
    forall i | 0 <= i < |raw| ensures 'A' <= UpperChar(raw[i]) <= 'Z' { assert name[i] in name; }
  }

  // Each name, in any letter case, stands for its day, Sunday being 0; and two names with a dash for
  // the days from one to the other, if they come in that order in the week.
  lemma NamedDays(i: nat, j: nat, raw: string, a: Arith)
    requires i < 7 && j < 7 && Upper(raw) == NAMES[i]
    ensures DowValues(raw, a) == Ok({i})
    ensures DowValues(NAMES[i] + "-" + NAMES[j], a).Ok? <==> i <= j
    ensures i <= j ==> forall d :: d in DowValues(NAMES[i] + "-" + NAMES[j], a).value <==> i <= d <= j
  {
    hide FieldValues, Split, DowValues, DayIndex, Upper;
    NamesAre(i);
    NamesAre(j);
    UpperLetters(raw, NAMES[i]);
    NamesAreRefused(raw, DaysOfWeek, a);
    OneToken(raw, NAMES[i], a);
    NamedRange(i, j, a);
  }

  lemma NamedRange(i: nat, j: nat, a: Arith)
    requires i < 7 && j < 7
    ensures DowValues(NAMES[i] + "-" + NAMES[j], a).Ok? <==> i <= j
    ensures i <= j ==> forall d :: d in DowValues(NAMES[i] + "-" + NAMES[j], a).value <==> i <= d <= j
  {
    hide FieldValues, Split, DowValues, DayIndex;
    NamesAre(i);
    NamesAre(j);
    var token := NAMES[i] + "-" + NAMES[j];
    assert token[0] == NAMES[i][0] && NAMES[i][0] in NAMES[i] && token[3] == '-';
    assert Upper(token) == token by { UpperStays(token); }
    NamesAreRefused(token, DaysOfWeek, a);
    OneToken(token, token, a);
    SplitPair(NAMES[i], NAMES[j], '-');
    RangeIsNoName(token);
    if i <= j { forall d ensures d in Stepped(i, j, 1) <==> i <= d <= j { SpanOfDays(i, j, d); } }
  }

  lemma UpperStays(s: string)
    requires forall c | c in s :: !('a' <= c <= 'z')
    ensures Upper(s) == s
  {
    assert forall i | 0 <= i < |s| :: s[i] in s;
  }

  lemma RangeIsNoName(token: string)
    requires |token| == 7
    ensures DayIndex(token).None?
  {
  }

  lemma SpanOfDays(i: int, j: int, d: int)
    ensures d in Stepped(i, j, 1) <==> i <= d <= j
  {
  }

  // Day 0, 1 January 1970, is a Thursday.
  predicate OnWeekday(day: int, weekday: int) {
    (day + 4) % 7 == weekday
  }

  // "minute hour * * NAME" fires at that time on every such day of the week and no other.
  lemma WeeklyJobs(minute: nat, hour: nat, i: nat, name: string, from: int)
    requires minute <= 59 && hour <= 23 && i < 7 && Upper(name) == NAMES[i]
    ensures var expr := Expression(Itoa(minute), Itoa(hour), "*", "*", name);
      Next(expr, from).Ok? && IsNext(Next(expr, from), from, hour, minute, iset n | OnWeekday(n, i))
  {
    hide ParseSchedule, Next, IsNext, Itoa, DateOf, Interval, DayFits;
    var expr := Expression(Itoa(minute), Itoa(hour), "*", "*", name);
    var c := Schedule({minute}, {hour}, Interval(1, 31), Interval(1, 12), {i});
    WeeklySchedule(minute, hour, i, name);
    forall n ensures DayFits(c, n) <==> OnWeekday(n, i) { WeekdayFits(c, n, i); }
    DailyTime(expr, c, from, hour, minute, iset n | OnWeekday(n, i));
    EveryWeek(expr, c, i);
  }

  lemma WeeklySchedule(minute: nat, hour: nat, i: nat, name: string)
    requires minute <= 59 && hour <= 23 && i < 7 && Upper(name) == NAMES[i]
    ensures ParseSchedule(Expression(Itoa(minute), Itoa(hour), "*", "*", name))
            == Ok(Schedule({minute}, {hour}, Interval(1, 31), Interval(1, 12), {i}))
  {
    hide FieldValues, Fields, Trim, ReadFields, Interval, Itoa, Upper;
    NumberWord(minute);
    NumberWord(hour);
    NamesAre(i);
    UpperLetters(name, NAMES[i]);
    FiveFields(Itoa(minute), Itoa(hour), "*", "*", name);
    FiveReads([Itoa(minute), Itoa(hour), "*", "*", name], Wrapping);
    NumberField(Minutes, minute, Wrapping);
    NumberField(Hours, hour, Wrapping);
    StarField(DaysOfMonth, Wrapping);
    StarField(Months, Wrapping);
    NamedDays(i, i, name, Wrapping);
  }

  lemma WeekdayFits(c: Schedule, n: int, i: nat)
    requires i < 7 && c.doms == Interval(1, 31) && c.months == Interval(1, 12) && c.dows == {i}
    ensures DayFits(c, n) <==> OnWeekday(n, i)
  {
    IntervalSize(1, 31);
    DateRoundTrip(n, DateOf(n));
    StarHas(DaysOfMonth, DateOf(n).day);
    StarHas(Months, DateOf(n).month);
    hide DateOf, Interval;
  }

  lemma EveryWeek(expr: string, c: Schedule, i: nat)
    requires ParseSchedule(expr) == Ok(c) && i < 7 && forall n :: DayFits(c, n) <==> OnWeekday(n, i)
    ensures forall from :: Next(expr, from).Ok?
  {
    hide Next, ParseSchedule, DayFits, Fires, OnWeekday;
    ParsedAsMeant(expr);
    forall n ensures WindowFits(c, n) {
      var k := WithinAWeek(n, i);
      assert DayFits(c, k);
    }
    SearchIsComplete(expr);
  }

  lemma WithinAWeek(n: int, i: nat) returns (k: int)
    requires i < 7
    ensures n < k <= n + 7 && OnWeekday(k, i)
  {
    var r := (n + 5) % 7;
    k := if r <= i then n + 1 + i - r else n + 8 + i - r;
  }
}
