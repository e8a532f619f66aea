/** The cron parser as it runs: loops that fill a field's set of values in place. */
module CronParser {
  import opened Wrappers
  import opened Text
  import opened CronSteps
  import opened CronSyntax

  class CronField {
    var values: set<int>

    constructor ()
      ensures values == {}
    {
      values := {};
    }

    // The loop adds on 64-bit integers.
    method Fill(rangeStart: int, rangeEnd: int, step: int)
      requires Steppable(rangeStart, rangeEnd, step)
      modifies this
      ensures values == old(values) + Filled(rangeStart, rangeEnd, step)
    {
      var i := rangeStart;
      while i <= rangeEnd
        invariant i <= rangeEnd ==> Steppable(i, rangeEnd, step)
        invariant old(values) + Filled(rangeStart, rangeEnd, step) ==
                  values + (if i <= rangeEnd then Filled(i, rangeEnd, step) else {})
        decreases if i <= rangeEnd then Distance(i, rangeEnd, step) + 1 else 0
      {
        values := values + {i};
        i := Wrap(i + step);
      }
    }

    // A rejected segment leaves the field as it was; an accepted one adds exactly its values.
    method AddSegment(seg: string, f: Field) returns (failure: Option<Error>)
      modifies this
      ensures match SegmentValues(seg, f, Wrapping)
              case Ok(added) => failure == None && values == old(values) + added
              case Err(e) => failure == Some(e) && values == old(values)
    {
      hide Filled, Split, Atoi, SegmentValues;
      SegmentRange(seg, f);
      hide InRange, Low, High, StepOf;
      var step, base := 1, seg;
      ghost var given: Option<string> := None;
      if '/' in seg {
        var parts := Split(seg, '/');
        if |parts| != 2 { return Some(StepSyntax); }
        base := parts[0];
        var v := Atoi(parts[1]);
        if v.None? || v.value <= 0 { return Some(StepValue); }
        step := v.value;
        given := Some(parts[1]);
      }
      assert ReadSegment(seg) == (if ReadBase(base).Ok? then Ok(Segment(ReadBase(base).value, given))
                                  else Err(ReadBase(base).error));
      hide ReadSegment;
      var rangeStart, rangeEnd := f.Min(), f.Max();
      if base == "*" || base == "" {
      } else if '-' in base {
        var parts := Split(base, '-');
        if |parts| != 2 { return Some(RangeSyntax); }
        var a := Atoi(parts[0]);
        if a.None? { return Some(RangeStart); }
        var b := Atoi(parts[1]);
        if b.None? { return Some(RangeEnd); }
        rangeStart, rangeEnd := a.value, b.value;
      } else {
        var v := Atoi(base);
        if v.None? { return Some(BadValue); }
        rangeStart, rangeEnd := v.value, v.value;
      }
      if rangeStart < f.Min() || rangeEnd > f.Max() || rangeStart > rangeEnd { return Some(OutOfRange); }
      Fill(rangeStart, rangeEnd, step);
      failure := None;
    }
  }

  // What a segment adds, from what it was read as.
  lemma SegmentRange(seg: string, f: Field)
    ensures ReadSegment(seg).Err? ==> SegmentValues(seg, f, Wrapping) == Err(ReadSegment(seg).error)
    ensures ReadSegment(seg).Ok? ==>
      var g := ReadSegment(seg).value;
      var low := match g.base case Single(v) => Atoi(v) case Span(v, _) => Atoi(v) case _ => Some(f.Min());
      var high := match g.base case Single(v) => Atoi(v) case Span(_, v) => Atoi(v) case _ => Some(f.Max());
      var step := if g.step.Some? then Atoi(g.step.value) else Some(1);
      && low.Some? && high.Some? && step.Some? && 0 < step.value <= MAX_INT
      && SegmentValues(seg, f, Wrapping) ==
           if f.Min() <= low.value <= high.value <= f.Max() then Ok(Filled(low.value, high.value, step.value))
           else Err(OutOfRange)
  {
    hide Filled, Stepped, Split, Atoi, BaseText;
    if ReadSegment(seg).Ok? { ReadIsWellFormed(seg); }
  }

  // What is left to read, joined to what has been read.
  function Plus(read: set<int>, rest: Result<set<int>, Error>): Result<set<int>, Error> {
    match rest
    case Ok(values) => Ok(read + values)
    case Err(e) => Err(e)
  }

  lemma SegmentsFrom(parts: seq<string>, i: nat)
    requires i < |parts|
    ensures Segments(parts[i..]) ==
            (if Trim(parts[i]) == "" then [] else [Trim(parts[i])]) + Segments(parts[i + 1..])
  {
    assert parts[i..][0] == parts[i] && parts[i..][1..] == parts[i + 1..];
  }

  lemma UnionFrom(read: set<int>, seg: string, rest: seq<string>, f: Field)
    ensures var here := SegmentValues(seg, f, Wrapping);
      Plus(read, UnionValues([seg] + rest, f, Wrapping)) ==
        if here.Ok? then Plus(read + here.value, UnionValues(rest, f, Wrapping)) else here
  {
    assert ([seg] + rest)[1..] == rest;
    if SegmentValues(seg, f, Wrapping).Ok? && UnionValues(rest, f, Wrapping).Ok? {
      var added, values := SegmentValues(seg, f, Wrapping).value, UnionValues(rest, f, Wrapping).value;
      assert read + (added + values) == (read + added) + values;
    }
  }

  lemma NothingLeft(f: Field)
    ensures Segments([]) == [] && UnionValues([], f, Wrapping) == Ok({})
  {
  }

  method ParseField(expr: string, f: Field) returns (r: Result<set<int>, Error>)
    ensures r == FieldValues(expr, f, Wrapping)
  {
    hide Trim, Split, SegmentValues, UnionValues, Segments, IndexOf;
    var text := Trim(expr);
    if text == "" { return Err(EmptyField); }
    var out := new CronField();
    var parts := Split(text, ',');
    ghost var total := UnionValues(Segments(parts), f, Wrapping);
    assert parts[0..] == parts;
    NothingLeft(f);
    if total.Ok? { assert {} + total.value == total.value; }
    for i := 0 to |parts|
      invariant fresh(out)
      invariant total == Plus(out.values, UnionValues(Segments(parts[i..]), f, Wrapping))
    {
      SegmentsFrom(parts, i);
      assert [] + Segments(parts[i + 1..]) == Segments(parts[i + 1..]);
      var seg := Trim(parts[i]);
      if seg != "" {
        UnionFrom(out.values, seg, Segments(parts[i + 1..]), f);
        var failure := out.AddSegment(seg, f);
        if failure.Some? { return Err(failure.value); }
      }
    }
    assert parts[|parts|..] == [];
    if out.values == {} { return Err(NoValues); }
    return Ok(out.values);
  }

  function Prepend(done: seq<string>, rest: Result<seq<string>, Error>): Result<seq<string>, Error> {
    match rest
    case Ok(tokens) => Ok(done + tokens)
    case Err(e) => Err(e)
  }

  lemma TokensFrom(done: seq<string>, v: string, rest: seq<string>)
    ensures var here := NormalToken(v);
      Prepend(done, NormalTokens([v] + rest)) ==
        if here.Ok? then Prepend(done + [here.value], NormalTokens(rest)) else Err(here.error)
  {
    assert ([v] + rest)[1..] == rest;
    if NormalToken(v).Ok? && NormalTokens(rest).Ok? {
      var token, tokens := NormalToken(v).value, NormalTokens(rest).value;
      assert done + ([token] + tokens) == (done + [token]) + tokens;
    }
  }

  method NormalizeDay(v: string) returns (r: Result<string, Error>)
    ensures r == NormalToken(v)
  {
    var mapped := DayIndex(v);
    if mapped.Some? { return Ok(Itoa(mapped.value)); }
    if '-' in v {
      var ends := Split(v, '-');
      if |ends| != 2 { return Err(BadDayToken); }
      var left, right := DayIndex(ends[0]), DayIndex(ends[1]);
      if left.None? || right.None? { return Err(BadDayToken); }
      return Ok(Itoa(left.value) + "-" + Itoa(right.value));
    }
    return Ok(v);
  }

  method NormalizeDays(raw: string) returns (r: Result<string, Error>)
    ensures r == NormalizeDow(raw)
  {
    var parts := Split(Upper(Trim(raw)), ',');
    var out: seq<string> := [];
    ghost var total := NormalTokens(Segments(parts));
    assert parts[0..] == parts;
    if total.Ok? { assert [] + total.value == total.value; }
    for i := 0 to |parts|
      invariant total == Prepend(out, NormalTokens(Segments(parts[i..])))
    {
      SegmentsFrom(parts, i);
      var v := Trim(parts[i]);
      if v != "" {
        TokensFrom(out, v, Segments(parts[i + 1..]));
        var token := NormalizeDay(v);
        if token.Err? { return Err(token.error); }
        out := out + [token.value];
      }
    }
    assert parts[|parts|..] == [];
    assert out + [] == out;
    if |out| == 0 { return Err(NoDays); }
    return Ok(Join(out, ','));
  }

  method Parse(expr: string) returns (r: Result<Schedule, Error>)
    ensures r == ParseSchedule(expr)
  {
    hide ReadFields, FieldValues, NormalizeDow, Fields, Trim;
    var parts := Fields(Trim(expr));
    if |parts| != 5 { return Err(FieldCount); }
    FiveReads(parts, Wrapping);
    var minutes := ParseField(parts[0], Minutes);
    if minutes.Err? { return Err(MinuteField); }
    var hours := ParseField(parts[1], Hours);
    if hours.Err? { return Err(HourField); }
    var doms := ParseField(parts[2], DaysOfMonth);
    if doms.Err? { return Err(DayOfMonthField); }
    var months := ParseField(parts[3], Months);
    if months.Err? { return Err(MonthField); }
    var dows := ParseField(parts[4], DaysOfWeek);
    if dows.Err? {
      var normalized := NormalizeDays(parts[4]);
      if normalized.Ok? { dows := ParseField(normalized.value, DaysOfWeek); }
      if dows.Err? { return Err(DayOfWeekField); }
    }
    return Ok(Schedule(minutes.value, hours.value, doms.value, months.value, dows.value));
  }
}
