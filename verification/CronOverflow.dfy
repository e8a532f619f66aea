/** What the parser makes of steps that leave the 64 bits. */
module CronOverflow {
  import opened Wrappers
  import opened Text
  import opened Calendar
  import opened CronSteps
  import opened CronSyntax
  import opened CronSearch

  // The largest step there is, 9223372036854775807.
  const LARGEST := Itoa(MAX_INT)

  lemma {:induction false} LargestNumeral()
    ensures Atoi(LARGEST) == Some(MAX_INT) && NoSpace(LARGEST) && '/' !in LARGEST && ',' !in LARGEST
  {
    hide Itoa, DecimalValue;
    ItoaValue(MAX_INT);
    assert IsDigit(LARGEST[0]);
    NumeralChars(LARGEST);
  }

  // A field of one value and the largest step: the code adds the odd numbers below it.
  lemma {:induction false} OverflowField(text: string, v: int, f: Field)
    requires Atoi(text) == Some(v) && Plain(text) && f.Min() <= v <= f.Max() && Odd(v)
    ensures var field := text + "/" + LARGEST;
      && FieldValues(field, f, Unbounded) == Ok({v})
      && FieldValues(field, f, Wrapping) == Ok(Filled(v, v, MAX_INT))
      && !FieldFits(field, f)
      && Word(field)
  {
    hide Filled, Stepped, Itoa, Atoi, FieldValues, FieldFits;
    LargestNumeral();
    NumeralChars(text);
    var g := Segment(Single(text), Some(LARGEST));
    assert SegmentText(g) == text + "/" + LARGEST;
    OneSegment(text + "/" + LARGEST, g, f, Unbounded);
    OneSegment(text + "/" + LARGEST, g, f, Wrapping);
    OnlyStep(v, MAX_INT);
  }

  lemma OnlyStep(v: int, step: int)
    requires step > 0
    ensures Stepped(v, v, step) == {v}
  {
    assert OnStep(v, v, step);
  }

  // The schedule the code makes of five fields, and the one they mean.
  lemma {:induction false} FiveTexts(a: string, b: string, c: string, d: string)
    requires Word(a) && Word(b) && Word(c) && Word(d)
    requires FieldValues(a, Minutes, Wrapping).Ok? && FieldValues(b, Hours, Wrapping).Ok?
    requires FieldValues(c, DaysOfMonth, Wrapping).Ok? && FieldValues(d, Months, Wrapping).Ok?
    ensures var expr := a + " " + (b + " " + (c + " " + (d + " " + "*")));
      && FieldValues(a, Minutes, Unbounded).Ok? && FieldValues(b, Hours, Unbounded).Ok?
      && FieldValues(c, DaysOfMonth, Unbounded).Ok? && FieldValues(d, Months, Unbounded).Ok?
      && ParseSchedule(expr) == Ok(Schedule(
           FieldValues(a, Minutes, Wrapping).value, FieldValues(b, Hours, Wrapping).value,
           FieldValues(c, DaysOfMonth, Wrapping).value, FieldValues(d, Months, Wrapping).value, Interval(0, 6)))
      && Meant(expr) == Ok(Schedule(
           FieldValues(a, Minutes, Unbounded).value, FieldValues(b, Hours, Unbounded).value,
           FieldValues(c, DaysOfMonth, Unbounded).value, FieldValues(d, Months, Unbounded).value, Interval(0, 6)))
  {
    hide FieldValues, Fields, Trim, ReadFields, Interval;
    var parts := [a, b, c, d, "*"];
    FiveFields(a, b, c, d, "*");
    FiveReads(parts, Wrapping);
    FiveReads(parts, Unbounded);
    FieldIsExact(a, Minutes);
    FieldIsExact(b, Hours);
    FieldIsExact(c, DaysOfMonth);
    FieldIsExact(d, Months);
    StarField(DaysOfWeek, Wrapping);
    StarField(DaysOfWeek, Unbounded);
  }

  lemma SmallNumerals()
    ensures Atoi("0") == Some(0) && Atoi("2") == Some(2)
    ensures Atoi("29") == Some(29) && Atoi("31") == Some(31) && Atoi("59") == Some(59)
  {
    assert DecimalValue("2") == 2 && DecimalValue("3") == 3 && DecimalValue("5") == 5;
    assert DecimalValue("29") == 29 && DecimalValue("31") == 31 && DecimalValue("59") == 59;
  }

  // "59/9223372036854775807 * * * *" means the last minute of every hour; the code fires on every
  // odd one.
  lemma {:induction false} OddMinutesFire()
    ensures var expr := "59/" + LARGEST + " " + ("*" + " " + ("*" + " " + ("*" + " " + "*")));
      && ParseSchedule(expr).Ok? && Meant(expr).Ok? && !NoOverflow(expr)
      && Meant(expr).value.minutes == {59}
      && (forall v | 0 <= v <= 59 :: v in ParseSchedule(expr).value.minutes <==> Odd(v))
  {
    hide FieldValues, Interval, Filled, Itoa, Atoi, ParseSchedule, Meant, NoOverflow;
    SmallNumerals();
    OverflowField("59", 59, Minutes);
    var field := "59" + "/" + LARGEST;
    assert "59/" + LARGEST == field;
    StarField(Hours, Wrapping);
    StarField(DaysOfMonth, Wrapping);
    StarField(Months, Wrapping);
    FiveTexts(field, "*", "*", "*");
    LargestStep(59, 59);
    ParsedAsMeant(field + " " + ("*" + " " + ("*" + " " + ("*" + " " + "*"))));
  }

  // "0 0 31/9223372036854775807 2 *" means 31 February, which never comes; the code fires on odd
  // days of every February, and never gives up.
  lemma {:induction false} ThirtyFirstOfFebruaryFires(from: int)
    ensures var expr := "0" + " " + ("0" + " " + ("31/" + LARGEST + " " + ("2" + " " + "*")));
      && Meant(expr).Ok? && (forall m :: !Matches(Meant(expr).value, m))
      && Next(expr, from).Ok?
  {
    var field := "31" + "/" + LARGEST;
    var expr := "0" + " " + ("0" + " " + (field + " " + ("2" + " " + "*")));
    assert "31/" + LARGEST == field;
    FebruaryOf(field, expr);
    NeverMatches(Meant(expr).value);
    EveryFebruary(expr);
  }

  lemma {:induction false} FebruaryOf(field: string, expr: string)
    requires field == "31" + "/" + LARGEST
    requires expr == "0" + " " + ("0" + " " + (field + " " + ("2" + " " + "*")))
    ensures Meant(expr) == Ok(Schedule({0}, {0}, {31}, {2}, Interval(0, 6)))
    ensures ParseSchedule(expr) == Ok(Schedule({0}, {0}, Filled(31, 31, MAX_INT), {2}, Interval(0, 6)))
  {
    hide FieldValues, Interval, Filled, Itoa, ParseSchedule, Meant;
    hide Atoi;
    SmallNumerals();
    OverflowField("31", 31, DaysOfMonth);
    SingleField("0", 0, Minutes, Wrapping);
    SingleField("0", 0, Minutes, Unbounded);
    SingleField("0", 0, Hours, Wrapping);
    SingleField("0", 0, Hours, Unbounded);
    SingleField("2", 2, Months, Wrapping);
    SingleField("2", 2, Months, Unbounded);
    FiveTexts("0", "0", field, "2");
  }

  lemma NeverMatches(c: Schedule)
    requires c == Schedule({0}, {0}, {31}, {2}, Interval(0, 6))
    ensures forall m :: !Matches(c, m)
  {
    IntervalSize(0, 6);
    hide Interval;
    forall m ensures !Matches(c, m) {
      var d := DateOf(DayOf(m));
      assert d.month == 2 ==> d.day <= 29;
    }
  }

  lemma EveryFebruary(expr: string)
    requires ParseSchedule(expr) == Ok(Schedule({0}, {0}, Filled(31, 31, MAX_INT), {2}, Interval(0, 6)))
    ensures forall from :: Next(expr, from).Ok?
  {
    hide Filled, Next, ParseSchedule;
    var c := ParseSchedule(expr).value;
    LargestStep(31, 31);
    assert Odd(1) && 1 in c.doms;
    assert |c.doms| == 33;
    IntervalSize(0, 6);
    forall n ensures WindowFits(c, n) {
      var k := DateWithinAYear(n + 1, 2, 1);
      assert Weekday(k) in Interval(0, 6);
      assert DayFits(c, k);
    }
    SearchIsComplete(expr);
  }

  // "29/9223372036854775807" as a day of the month excludes 30, yet has 31 values, so the code
  // takes the field for one that excludes nothing.
  lemma {:induction false} ThirtyOneValues()
    ensures var field := "29/" + LARGEST;
      && FieldValues(field, DaysOfMonth, Wrapping).Ok?
      && |FieldValues(field, DaysOfMonth, Wrapping).value| == 31
      && Excludes(FieldValues(field, DaysOfMonth, Wrapping).value, DaysOfMonth)
  {
    hide FieldValues, Filled, Itoa, Atoi;
    SmallNumerals();
    OverflowField("29", 29, DaysOfMonth);
    assert "29" + "/" + LARGEST == "29/" + LARGEST;
    LargestStep(29, 29);
    assert 30 !in Filled(29, 29, MAX_INT);
  }
}
