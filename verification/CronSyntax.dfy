/** Five-field cron expressions: what a text denotes, and the parser that reads it.
    A field's meaning is given on its grammar; the parser is proved to accept exactly the texts
    of that grammar and to return exactly their meaning. */
module CronSyntax {
  import opened Wrappers
  import opened Text
  import opened CronSteps

  // ---------------------------------------------------------------- grammar of a segment

  datatype Base =
    | Star
    | Blank
    | Single(value: string)
    | Span(first: string, last: string)

  // base, or base/step
  datatype Segment = Segment(base: Base, step: Option<string>)

  function BaseText(b: Base): string {
    match b
    case Star => "*"
    case Blank => ""
    case Single(v) => v
    case Span(a, z) => a + "-" + z
  }

  function SegmentText(g: Segment): string {
    if g.step.Some? then BaseText(g.base) + "/" + g.step.value else BaseText(g.base)
  }

  predicate Numeral(s: string) {
    Atoi(s).Some?
  }

  predicate Plain(s: string) {
    '-' !in s && '/' !in s
  }

  // The texts the grammar allows: numerals without the two separators, a positive step.
  predicate WellFormed(g: Segment) {
    && (match g.base
        case Single(v) => Numeral(v) && Plain(v)
        case Span(a, z) => Numeral(a) && Numeral(z) && Plain(a) && Plain(z)
        case _ => true)
    && (g.step.Some? ==> Numeral(g.step.value) && '/' !in g.step.value && Atoi(g.step.value).value > 0)
  }

  // The five fields and their bounds.
  datatype Field = Minutes | Hours | DaysOfMonth | Months | DaysOfWeek
  {
    function Min(): int {
      if DaysOfMonth? || Months? then 1 else 0
    }

    function Max(): int {
      match this
      case Minutes => 59
      case Hours => 23
      case DaysOfMonth => 31
      case Months => 12
      case DaysOfWeek => 6
    }
  }

  function Low(g: Segment, f: Field): int
    requires WellFormed(g)
  {
    match g.base
    case Single(v) => Atoi(v).value
    case Span(a, _) => Atoi(a).value
    case _ => f.Min()
  }

  function High(g: Segment, f: Field): int
    requires WellFormed(g)
  {
    match g.base
    case Single(v) => Atoi(v).value
    case Span(_, z) => Atoi(z).value
    case _ => f.Max()
  }

  function StepOf(g: Segment): (s: int)
    requires WellFormed(g)
    ensures 0 < s <= MAX_INT
  {
    if g.step.Some? then Atoi(g.step.value).value else 1
  }

  predicate InRange(g: Segment, f: Field)
    requires WellFormed(g)
  {
    f.Min() <= Low(g, f) && High(g, f) <= f.Max() && Low(g, f) <= High(g, f)
  }

  // Steps as numbers, which is what a text means, or as the 64-bit integers the code adds.
  datatype Arith = Unbounded | Wrapping

  function Denotation(g: Segment, f: Field, a: Arith): set<int>
    requires WellFormed(g) && InRange(g, f)
  {
    if a.Unbounded? then Stepped(Low(g, f), High(g, f), StepOf(g)) else Filled(Low(g, f), High(g, f), StepOf(g))
  }

  // The first step is still a 64-bit integer.
  predicate StepsFit(g: Segment, f: Field)
    requires WellFormed(g)
  {
    Fits(Low(g, f), StepOf(g))
  }

  // ---------------------------------------------------------------- reading a segment

  datatype Error =
    | StepSyntax | StepValue | RangeSyntax | RangeStart | RangeEnd | BadValue | OutOfRange
    | EmptyField | NoValues | BadDayToken | NoDays | FieldCount
    | MinuteField | HourField | DayOfMonthField | MonthField | DayOfWeekField
    | NoneWithinAYear

  function ReadBase(base: string): Result<Base, Error> {
    if base == "*" then Ok(Star)
    else if base == "" then Ok(Blank)
    else if '-' in base then
      var parts := Split(base, '-');
      if |parts| != 2 then Err(RangeSyntax)
      else if !Numeral(parts[0]) then Err(RangeStart)
      else if !Numeral(parts[1]) then Err(RangeEnd)
      else Ok(Span(parts[0], parts[1]))
    else if !Numeral(base) then Err(BadValue)
    else Ok(Single(base))
  }

  function ReadSegment(seg: string): Result<Segment, Error> {
    if '/' in seg then
      var parts := Split(seg, '/');
      if |parts| != 2 then Err(StepSyntax)
      else if !Numeral(parts[1]) || Atoi(parts[1]).value <= 0 then Err(StepValue)
      else
        (match ReadBase(parts[0])
         case Ok(b) => Ok(Segment(b, Some(parts[1])))
         case Err(e) => Err(e))
    else
      (match ReadBase(seg)
       case Ok(b) => Ok(Segment(b, None))
       case Err(e) => Err(e))
  }

  // The values a segment stands for, if it stands for any.
  function SegmentValues(seg: string, f: Field, a: Arith): Result<set<int>, Error> {
    match ReadSegment(seg)
    case Err(e) => Err(e)
    case Ok(g) =>
      ReadIsWellFormed(seg);
      if InRange(g, f) then Ok(Denotation(g, f, a)) else Err(OutOfRange)
  }

  lemma NumeralChars(s: string)
    requires Numeral(s)
    ensures s != "" && s != "*" && '/' !in s && ',' !in s && NoSpace(s)
  {
    var digits := if s[0] == '-' || s[0] == '+' then s[1..] else s;
    forall c | c in s ensures c != '/' && c != ',' && !IsSpace(c) {
      assert c == s[0] || c in digits;
    }
  }

  lemma SplitTwo(s: string, c: char)
    requires |Split(s, c)| == 2
    ensures s == Split(s, c)[0] + [c] + Split(s, c)[1]
    ensures c !in Split(s, c)[0] && c !in Split(s, c)[1]
  {
    JoinSplit(s, c);
    var parts := Split(s, c);
    assert parts[0] in parts && parts[1] in parts;
    assert parts[1..] == [parts[1]];
  }

  lemma SplitPair(a: string, b: string, c: char)
    requires c !in a && c !in b
    ensures Split(a + [c] + b, c) == [a, b]
  {
    assert [a, b][1..] == [b];
    assert Join([a, b], c) == a + [c] + b;
    SplitJoin([a, b], c);
  }

  lemma ReadBaseIsBase(base: string)
    requires ReadBase(base).Ok? && '/' !in base
    ensures var b := ReadBase(base).value; BaseText(b) == base && WellFormed(Segment(b, None))
  {
    if base != "*" && base != "" && '-' in base { SplitTwo(base, '-'); }
  }

  // What is read has the text it was read from ...
  lemma ReadIsWellFormed(seg: string)
    requires ReadSegment(seg).Ok?
    ensures WellFormed(ReadSegment(seg).value) && SegmentText(ReadSegment(seg).value) == seg
  {
    if '/' in seg {
      SplitTwo(seg, '/');
      ReadBaseIsBase(Split(seg, '/')[0]);
    } else {
      ReadBaseIsBase(seg);
    }
  }

  lemma BaseIsReadBase(b: Base)
    requires WellFormed(Segment(b, None))
    ensures ReadBase(BaseText(b)) == Ok(b) && '/' !in BaseText(b)
  {
    match b
    case Single(v) => NumeralChars(v);
    case Span(a, z) =>
      NumeralChars(a);
      NumeralChars(z);
      SplitPair(a, z, '-');
      assert BaseText(b)[|a|] == '-';
      assert |BaseText(b)| >= 3;
    case _ =>
  }

  // ... and every text of the grammar is read back as the segment it came from, so a text has
  // at most one reading.
  lemma GrammarIsRead(g: Segment)
    requires WellFormed(g)
    ensures ReadSegment(SegmentText(g)) == Ok(g)
  {
    BaseIsReadBase(g.base);
    if g.step.Some? {
      SplitPair(BaseText(g.base), g.step.value, '/');
      assert SegmentText(g)[|BaseText(g.base)|] == '/';
    }
  }

  predicate Within(values: set<int>, f: Field) {
    values != {} && forall v | v in values :: f.Min() <= v <= f.Max()
  }

  predicate Reaches(values: set<int>, f: Field) {
    exists v | f.Min() <= v <= f.Max() :: v in values
  }

  // No step of the segment leaves the 64 bits.
  predicate SegmentFits(seg: string, f: Field) {
    match ReadSegment(seg)
    case Err(_) => true
    case Ok(g) =>
      ReadIsWellFormed(seg);
      InRange(g, f) ==> StepsFit(g, f)
  }

  // A segment is accepted exactly when it is a text of the grammar whose range fits the field,
  // and then stands for that range's steps.
  lemma SegmentMeaning(seg: string, f: Field, a: Arith)
    ensures SegmentValues(seg, f, a).Ok? <==>
              exists g: Segment :: WellFormed(g) && SegmentText(g) == seg && InRange(g, f)
    ensures forall g: Segment | WellFormed(g) && SegmentText(g) == seg && InRange(g, f) ::
              SegmentValues(seg, f, a) == Ok(Denotation(g, f, a))
    ensures forall g: Segment | WellFormed(g) && SegmentText(g) == seg && InRange(g, f) ::
              SegmentFits(seg, f) <==> StepsFit(g, f)
  {
    hide Denotation, StepsFit;
    if ReadSegment(seg).Ok? { ReadIsWellFormed(seg); }
    forall g: Segment | WellFormed(g) && SegmentText(g) == seg ensures ReadSegment(seg) == Ok(g) { GrammarIsRead(g); }
  }

  lemma SteppedBounds(low: int, high: int, step: int)
    requires step > 0 && low <= high
    ensures low in Stepped(low, high, step) && forall v | v in Stepped(low, high, step) :: low <= v <= high
  {
    assert OnStep(low, low, step);
  }

  // The code's loop gives a segment exactly the values it stands for, and none outside the field,
  // if and only if its first step stays within 64 bits.
  lemma SegmentIsExact(seg: string, f: Field)
    ensures SegmentValues(seg, f, Wrapping).Ok? <==> SegmentValues(seg, f, Unbounded).Ok?
    ensures SegmentValues(seg, f, Wrapping).Err? ==> SegmentValues(seg, f, Wrapping) == SegmentValues(seg, f, Unbounded)
    ensures SegmentValues(seg, f, Wrapping).Ok? ==>
              && (SegmentValues(seg, f, Wrapping) == SegmentValues(seg, f, Unbounded) <==> SegmentFits(seg, f))
              && (Within(SegmentValues(seg, f, Wrapping).value, f) <==> SegmentFits(seg, f))
              && Within(SegmentValues(seg, f, Unbounded).value, f)
              && Reaches(SegmentValues(seg, f, Wrapping).value, f)
  {
    hide Filled, Fits, Stepped;
    if SegmentValues(seg, f, Wrapping).Ok? {
      var g := ReadSegment(seg).value;
      ReadIsWellFormed(seg);
      FilledIsStepped(Low(g, f), High(g, f), StepOf(g));
      SteppedBounds(Low(g, f), High(g, f), StepOf(g));
    }
  }

  // ---------------------------------------------------------------- fields

  // The segments of a comma-separated list; blanks between commas are ignored.
  function Segments(parts: seq<string>): seq<string> {
    if parts == [] then []
    else if Trim(parts[0]) == "" then Segments(parts[1..])
    else [Trim(parts[0])] + Segments(parts[1..])
  }

  // The union of the segments' values, if every segment has some.
  function UnionValues(segs: seq<string>, f: Field, a: Arith): Result<set<int>, Error> {
    if segs == [] then Ok({})
    else
      match SegmentValues(segs[0], f, a)
      case Err(e) => Err(e)
      case Ok(here) =>
        match UnionValues(segs[1..], f, a)
        case Err(e) => Err(e)
        case Ok(rest) => Ok(here + rest)
  }

  function FieldValues(expr: string, f: Field, a: Arith): Result<set<int>, Error> {
    var text := Trim(expr);
    if text == "" then Err(EmptyField)
    else
      match UnionValues(Segments(Split(text, ',')), f, a)
      case Err(e) => Err(e)
      case Ok(values) => if values == {} then Err(NoValues) else Ok(values)
  }

  lemma {:induction false} UnionMeaning(segs: seq<string>, f: Field, a: Arith)
    ensures UnionValues(segs, f, a).Ok? <==> forall i | 0 <= i < |segs| :: SegmentValues(segs[i], f, a).Ok?
    ensures UnionValues(segs, f, a).Ok? ==> forall v :: v in UnionValues(segs, f, a).value <==>
              exists i | 0 <= i < |segs| :: v in SegmentValues(segs[i], f, a).value
  {
    if segs != [] {
      UnionMeaning(segs[1..], f, a);
      var rest := segs[1..];
      assert forall i | 0 <= i < |rest| :: rest[i] == segs[i + 1];
      assert forall i | 0 < i < |segs| :: segs[i] == rest[i - 1];
    }
  }

  function SegmentsOf(expr: string): seq<string> {
    Segments(Split(Trim(expr), ','))
  }

  // A field is accepted exactly when it has a segment and every segment is accepted; its values
  // are the union of theirs.
  lemma FieldMeaning(expr: string, f: Field, a: Arith)
    ensures var segs := SegmentsOf(expr);
      && (FieldValues(expr, f, a).Ok? <==>
            segs != [] && forall i | 0 <= i < |segs| :: SegmentValues(segs[i], f, a).Ok?)
      && (FieldValues(expr, f, a).Ok? ==>
            forall v :: v in FieldValues(expr, f, a).value <==>
              exists i | 0 <= i < |segs| :: v in SegmentValues(segs[i], f, a).value)
      && (FieldValues(expr, f, a).Ok? ==> Reaches(FieldValues(expr, f, a).value, f))
  {
    hide SegmentValues, Reaches;
    var text := Trim(expr);
    var segs := SegmentsOf(expr);
    UnionMeaning(segs, f, a);
    if text == "" { NoSegments(); }
    if UnionValues(segs, f, a).Ok? && segs != [] { UnionReaches(segs, f, a); }
  }

  lemma NoSegments()
    ensures Segments(Split("", ',')) == []
  {
    assert Split("", ',') == [""];
    assert Trim("") == "";
    assert [""][1..] == [];
  }

  lemma UnionReaches(segs: seq<string>, f: Field, a: Arith)
    requires UnionValues(segs, f, a).Ok? && segs != []
    ensures Reaches(UnionValues(segs, f, a).value, f) && UnionValues(segs, f, a).value != {}
  {
    hide SegmentValues;
    UnionMeaning(segs, f, a);
    SegmentIsExact(segs[0], f);
    SomeWithin(SegmentValues(segs[0], f, Unbounded).value, f);
    var v :| f.Min() <= v <= f.Max() && v in SegmentValues(segs[0], f, a).value;
    assert v in UnionValues(segs, f, a).value;
  }

  lemma SomeWithin(values: set<int>, f: Field)
    requires Within(values, f)
    ensures Reaches(values, f)
  {
    if forall v :: v !in values { assert false; }
    var v :| v in values;
  }

  predicate FieldFits(expr: string, f: Field) {
    forall s | s in SegmentsOf(expr) :: SegmentFits(s, f)
  }

  lemma {:induction false} UnionAlike(segs: seq<string>, f: Field)
    ensures UnionValues(segs, f, Wrapping).Ok? <==> UnionValues(segs, f, Unbounded).Ok?
    ensures UnionValues(segs, f, Wrapping).Err? ==> UnionValues(segs, f, Wrapping) == UnionValues(segs, f, Unbounded)
    ensures UnionValues(segs, f, Wrapping).Ok? && (forall s | s in segs :: SegmentFits(s, f)) ==>
              UnionValues(segs, f, Wrapping) == UnionValues(segs, f, Unbounded)
  {
    hide SegmentValues, SegmentFits, Within, Reaches;
    if segs != [] {
      SegmentIsExact(segs[0], f);
      UnionAlike(segs[1..], f);
    }
  }

  lemma UnboundedIsWithin(segs: seq<string>, f: Field, v: int)
    requires UnionValues(segs, f, Unbounded).Ok? && v in UnionValues(segs, f, Unbounded).value
    ensures f.Min() <= v <= f.Max()
  {
    hide SegmentValues, SegmentFits, Reaches;
    UnionMeaning(segs, f, Unbounded);
    var i :| 0 <= i < |segs| && v in SegmentValues(segs[i], f, Unbounded).value;
    SegmentIsExact(segs[i], f);
  }

  lemma OverflowLeavesField(segs: seq<string>, f: Field, s: string) returns (v: int)
    requires UnionValues(segs, f, Wrapping).Ok? && s in segs && !SegmentFits(s, f)
    ensures v in UnionValues(segs, f, Wrapping).value && !(f.Min() <= v <= f.Max())
  {
    hide SegmentValues, SegmentFits;
    UnionMeaning(segs, f, Wrapping);
    var i :| 0 <= i < |segs| && segs[i] == s;
    SegmentIsExact(segs[i], f);
    v :| v in SegmentValues(segs[i], f, Wrapping).value && !(f.Min() <= v <= f.Max());
  }

  // The code reads a field as it is meant, and within its bounds, if and only if no step of any
  // segment leaves the 64 bits.
  lemma FieldIsExact(expr: string, f: Field)
    ensures FieldValues(expr, f, Wrapping).Ok? <==> FieldValues(expr, f, Unbounded).Ok?
    ensures FieldValues(expr, f, Wrapping).Err? ==> FieldValues(expr, f, Wrapping) == FieldValues(expr, f, Unbounded)
    ensures FieldValues(expr, f, Wrapping).Ok? ==>
              && (FieldValues(expr, f, Wrapping) == FieldValues(expr, f, Unbounded) <==> FieldFits(expr, f))
              && (Within(FieldValues(expr, f, Wrapping).value, f) <==> FieldFits(expr, f))
              && Within(FieldValues(expr, f, Unbounded).value, f)
              && Reaches(FieldValues(expr, f, Wrapping).value, f)
  {
    hide SegmentValues, SegmentFits, UnionValues, Reaches;
    var segs := SegmentsOf(expr);
    UnionAlike(segs, f);
    FieldMeaning(expr, f, Wrapping);
    FieldMeaning(expr, f, Unbounded);
    if segs != [] && UnionValues(segs, f, Wrapping).Ok? {
      UnionReaches(segs, f, Wrapping);
      UnionReaches(segs, f, Unbounded);
      forall v | v in UnionValues(segs, f, Unbounded).value ensures f.Min() <= v <= f.Max() {
        UnboundedIsWithin(segs, f, v);
      }
      if !FieldFits(expr, f) {
        var s :| s in segs && !SegmentFits(s, f);
        var v := OverflowLeavesField(segs, f, s);
      }
    }
  }

  // ---------------------------------------------------------------- day names

  function DayIndex(name: string): Option<int> {
    if name == "SUN" then Some(0)
    else if name == "MON" then Some(1)
    else if name == "TUE" then Some(2)
    else if name == "WED" then Some(3)
    else if name == "THU" then Some(4)
    else if name == "FRI" then Some(5)
    else if name == "SAT" then Some(6)
    else None
  }

  // A token as digits: a name, a range of names, or anything else as it stands.
  function NormalToken(token: string): Result<string, Error> {
    if DayIndex(token).Some? then Ok(Itoa(DayIndex(token).value))
    else if '-' in token then
      var ends := Split(token, '-');
      if |ends| != 2 then Err(BadDayToken)
      else if DayIndex(ends[0]).None? || DayIndex(ends[1]).None? then Err(BadDayToken)
      else Ok(Itoa(DayIndex(ends[0]).value) + "-" + Itoa(DayIndex(ends[1]).value))
    else Ok(token)
  }

  function NormalTokens(tokens: seq<string>): Result<seq<string>, Error> {
    if tokens == [] then Ok([])
    else
      match NormalToken(tokens[0])
      case Err(e) => Err(e)
      case Ok(t) =>
        match NormalTokens(tokens[1..])
        case Err(e) => Err(e)
        case Ok(rest) => Ok([t] + rest)
  }

  function NormalizeDow(raw: string): Result<string, Error> {
    match NormalTokens(Segments(Split(Upper(Trim(raw)), ',')))
    case Err(e) => Err(e)
    case Ok(out) => if out == [] then Err(NoDays) else Ok(Join(out, ','))
  }

  // What a day-of-week token means: a named day, the days from one name to a later one, or a
  // numeric segment without a range.
  function DayTokenValues(token: string, a: Arith): Result<set<int>, Error> {
    if DayIndex(token).Some? then Ok({DayIndex(token).value})
    else if '-' in token then
      var ends := Split(token, '-');
      if |ends| != 2 || DayIndex(ends[0]).None? || DayIndex(ends[1]).None? then Err(BadDayToken)
      else
        var first, last := DayIndex(ends[0]).value, DayIndex(ends[1]).value;
        if first > last then Err(OutOfRange) else Ok(Stepped(first, last, 1))
    else SegmentValues(token, DaysOfWeek, a)
  }

  lemma DigitSegment(d: int, a: Arith)
    requires 0 <= d <= 6
    ensures SegmentValues(Itoa(d), DaysOfWeek, a) == Ok({d}) && SegmentFits(Itoa(d), DaysOfWeek)
    ensures |Itoa(d)| == 1 && Numeral(Itoa(d)) && Plain(Itoa(d)) && ',' !in Itoa(d) && Atoi(Itoa(d)) == Some(d)
    ensures NoSpace(Itoa(d))
  {
    hide Stepped, Filled, Fits;
    ItoaValue(d);
    var s := Itoa(d);
    assert s[0] != '-' && s[0] != '+';
    NumeralChars(s);
    var g := Segment(Single(s), None);
    GrammarIsRead(g);
    assert SegmentText(g) == s;
    UnitSteps(d, d);
    OneStep(d);
  }

  // Single steps never leave the field.
  lemma UnitSteps(first: int, last: int)
    requires 0 <= first <= last <= 1000
    ensures Filled(first, last, 1) == Stepped(first, last, 1) && Fits(first, 1)
  {
    FilledIsStepped(first, last, 1);
  }

  lemma OneStep(d: int)
    ensures Stepped(d, d, 1) == {d}
  {
  }

  lemma RangeSegment(first: int, last: int, a: Arith)
    requires 0 <= first <= 6 && 0 <= last <= 6
    ensures var t := Itoa(first) + "-" + Itoa(last);
      && SegmentValues(t, DaysOfWeek, a) == (if first > last then Err(OutOfRange) else Ok(Stepped(first, last, 1)))
      && SegmentFits(t, DaysOfWeek)
      && ',' !in t && t != "" && NoSpace(t)
  {
    hide Stepped, Filled, Fits;
    DigitSegment(first, a);
    DigitSegment(last, a);
    var g := Segment(Span(Itoa(first), Itoa(last)), None);
    GrammarIsRead(g);
    assert SegmentText(g) == Itoa(first) + "-" + Itoa(last);
    if first <= last { UnitSteps(first, last); }
  }

  lemma SegmentsTrimmed(parts: seq<string>, c: char)
    requires forall p | p in parts :: c !in p
    ensures forall s | s in Segments(parts) :: s != "" && c !in s && Trim(s) == s
  {
    if parts != [] {
      TrimKeeps(parts[0], c);
      SegmentsTrimmed(parts[1..], c);
    }
  }

  lemma TrimKeeps(s: string, c: char)
    requires c !in s
    ensures c !in Trim(s) && Trim(Trim(s)) == Trim(s)
  {
    TrimLeftKeeps(s, c);
    TrimRightKeeps(TrimLeft(s), c);
  }

  lemma {:induction false} TrimLeftKeeps(s: string, c: char)
    requires c !in s
    ensures c !in TrimLeft(s)
    ensures TrimLeft(s) != "" ==> !IsSpace(TrimLeft(s)[0])
  {
    if s != "" && IsSpace(s[0]) { TrimLeftKeeps(s[1..], c); }
  }

  lemma {:induction false} TrimRightKeeps(s: string, c: char)
    requires c !in s && (s != "" ==> !IsSpace(s[0]))
    ensures c !in TrimRight(s)
    ensures TrimRight(s) != "" ==> TrimRight(s)[0] == s[0] && !IsSpace(TrimRight(s)[|TrimRight(s)| - 1])
  {
    if s != "" && IsSpace(s[|s| - 1]) { TrimRightKeeps(s[..|s| - 1], c); }
  }

  function UnionDays(tokens: seq<string>, a: Arith): Result<set<int>, Error> {
    if tokens == [] then Ok({})
    else
      match DayTokenValues(tokens[0], a)
      case Err(e) => Err(e)
      case Ok(here) =>
        match UnionDays(tokens[1..], a)
        case Err(e) => Err(e)
        case Ok(rest) => Ok(here + rest)
  }

  predicate ListItem(s: string) {
    s != "" && ',' !in s && Trim(s) == s
  }

  lemma NormalTokenMeaning(token: string, a: Arith)
    requires ListItem(token)
    ensures NormalToken(token).Err? ==> DayTokenValues(token, a) == Err(NormalToken(token).error)
    ensures NormalToken(token).Ok? ==>
              && ListItem(NormalToken(token).value)
              && SegmentValues(NormalToken(token).value, DaysOfWeek, a) == DayTokenValues(token, a)
  {
    hide SegmentValues, Stepped;
    if DayIndex(token).Some? {
      DigitSegment(DayIndex(token).value, a);
      TrimNoSpace(Itoa(DayIndex(token).value));
    } else if '-' in token {
      var ends := Split(token, '-');
      if |ends| == 2 && DayIndex(ends[0]).Some? && DayIndex(ends[1]).Some? {
        var first, last := DayIndex(ends[0]).value, DayIndex(ends[1]).value;
        RangeSegment(first, last, a);
        TrimNoSpace(Itoa(first) + "-" + Itoa(last));
      }
    }
  }

  lemma {:induction false} NormalTokensMeaning(tokens: seq<string>, a: Arith)
    requires forall t | t in tokens :: ListItem(t)
    requires NormalTokens(tokens).Ok?
    ensures var out := NormalTokens(tokens).value;
      && |out| == |tokens|
      && (forall t | t in out :: ListItem(t))
      && UnionValues(out, DaysOfWeek, a) == UnionDays(tokens, a)
  {
    if tokens != [] {
      NormalTokenMeaning(tokens[0], a);
      NormalTokensMeaning(tokens[1..], a);
      var out := NormalTokens(tokens).value;
      assert out[1..] == NormalTokens(tokens[1..]).value;
    }
  }

  lemma ListItemEnds(s: string)
    requires ListItem(s)
    ensures !IsSpace(s[0]) && !IsSpace(s[|s| - 1])
  {
    TrimIsSuffix(s);
    TrimRightShape(TrimLeft(s));
  }

  // Joining trimmed items gives a text whose items are those again.
  lemma {:induction false} JoinedItems(items: seq<string>)
    requires items != [] && forall t | t in items :: ListItem(t)
    ensures var s := Join(items, ','); s != "" && !IsSpace(s[0]) && !IsSpace(s[|s| - 1])
  {
    assert items[0] in items;
    ListItemEnds(items[0]);
    if |items| > 1 {
      JoinedItems(items[1..]);
      var rest := Join(items[1..], ',');
      var s := Join(items, ',');
      assert s == items[0] + [','] + rest;
      assert s[|s| - 1] == rest[|rest| - 1];
    }
  }

  lemma {:induction false} ItemsAreSegments(items: seq<string>)
    requires forall t | t in items :: ListItem(t)
    ensures Segments(items) == items
  {
    if items != [] {
      assert items[0] in items;
      ItemsAreSegments(items[1..]);
    }
  }

  lemma ListField(items: seq<string>, f: Field, a: Arith)
    requires items != [] && forall t | t in items :: ListItem(t)
    ensures FieldValues(Join(items, ','), f, a) == UnionValues(items, f, a)
  {
    var s := Join(items, ',');
    JoinedItems(items);
    TrimmedEnds(s);
    SplitJoin(items, ',');
    ItemsAreSegments(items);
    FieldMeaning(s, f, a);
    UnionMeaning(items, f, a);
  }

  function DayTokens(raw: string): seq<string> {
    Segments(Split(Upper(Trim(raw)), ','))
  }

  lemma DayTokensAreItems(raw: string)
    ensures forall t | t in DayTokens(raw) :: ListItem(t)
  {
    JoinSplit(Upper(Trim(raw)), ',');
    SegmentsTrimmed(Split(Upper(Trim(raw)), ','), ',');
  }

  // The day-of-week field is read as numbers, and failing that as day names.
  function DowValues(raw: string, a: Arith): Result<set<int>, Error> {
    var numeric := FieldValues(raw, DaysOfWeek, a);
    if numeric.Ok? then numeric
    else
      match NormalizeDow(raw)
      case Err(_) => numeric
      case Ok(text) => FieldValues(text, DaysOfWeek, a)
  }

  lemma {:induction false} UnionDaysFails(tokens: seq<string>, a: Arith)
    requires forall t | t in tokens :: ListItem(t)
    requires NormalTokens(tokens).Err?
    ensures UnionDays(tokens, a).Err?
  {
    NormalTokenMeaning(tokens[0], a);
    if NormalToken(tokens[0]).Ok? { UnionDaysFails(tokens[1..], a); }
  }

  // Reading a text of day names through its digits gives exactly the days its tokens name.
  lemma DowMeaning(raw: string, a: Arith)
    ensures FieldValues(raw, DaysOfWeek, a).Ok? ==> DowValues(raw, a) == FieldValues(raw, DaysOfWeek, a)
    ensures FieldValues(raw, DaysOfWeek, a).Err? ==>
              && (DowValues(raw, a).Ok? <==> DayTokens(raw) != [] && UnionDays(DayTokens(raw), a).Ok?)
              && (DowValues(raw, a).Ok? ==> DowValues(raw, a) == UnionDays(DayTokens(raw), a))
  {
    hide FieldValues, NormalTokens, UnionDays, UnionValues;
    var tokens := DayTokens(raw);
    DayTokensAreItems(raw);
    if NormalTokens(tokens).Ok? {
      NormalTokensMeaning(tokens, a);
      if tokens != [] { ListField(NormalTokens(tokens).value, DaysOfWeek, a); }
    } else {
      UnionDaysFails(tokens, a);
    }
  }

  // ---------------------------------------------------------------- schedules

  datatype Schedule = Schedule(
    minutes: set<int>, hours: set<int>, doms: set<int>, months: set<int>, dows: set<int>)

  // The fields in order.
  function FieldAt(i: int): Field {
    if i == 0 then Minutes else if i == 1 then Hours else if i == 2 then DaysOfMonth
    else if i == 3 then Months else DaysOfWeek
  }

  function FieldError(f: Field): Error {
    match f
    case Minutes => MinuteField
    case Hours => HourField
    case DaysOfMonth => DayOfMonthField
    case Months => MonthField
    case DaysOfWeek => DayOfWeekField
  }

  function ReadField(text: string, f: Field, a: Arith): Result<set<int>, Error> {
    var values := if f.DaysOfWeek? then DowValues(text, a) else FieldValues(text, f, a);
    if values.Ok? then values else Err(FieldError(f))
  }

  // Reads the last |parts| fields.
  function ReadFields(parts: seq<string>, a: Arith): (r: Result<seq<set<int>>, Error>)
    ensures r.Ok? ==> |r.value| == |parts|
    decreases |parts|
  {
    if parts == [] then Ok([])
    else
      match ReadField(parts[0], FieldAt(5 - |parts|), a)
      case Err(e) => Err(e)
      case Ok(values) =>
        match ReadFields(parts[1..], a)
        case Err(e) => Err(e)
        case Ok(rest) => Ok([values] + rest)
  }

  function Parsed(expr: string, a: Arith): Result<Schedule, Error> {
    var parts := Fields(Trim(expr));
    if |parts| != 5 then Err(FieldCount)
    else
      match ReadFields(parts, a)
      case Err(e) => Err(e)
      case Ok(v) => Ok(Schedule(v[0], v[1], v[2], v[3], v[4]))
  }

  // What the code makes of an expression ...
  function ParseSchedule(expr: string): Result<Schedule, Error> {
    Parsed(expr, Wrapping)
  }

  // ... and what the expression means.
  function Meant(expr: string): Result<Schedule, Error> {
    Parsed(expr, Unbounded)
  }

  // The first field that fails decides the error.
  lemma FiveReads(parts: seq<string>, a: Arith)
    requires |parts| == 5
    ensures ReadFields(parts, a) ==
      if ReadField(parts[0], Minutes, a).Err? then Err(ReadField(parts[0], Minutes, a).error)
      else if ReadField(parts[1], Hours, a).Err? then Err(ReadField(parts[1], Hours, a).error)
      else if ReadField(parts[2], DaysOfMonth, a).Err? then Err(ReadField(parts[2], DaysOfMonth, a).error)
      else if ReadField(parts[3], Months, a).Err? then Err(ReadField(parts[3], Months, a).error)
      else if ReadField(parts[4], DaysOfWeek, a).Err? then Err(ReadField(parts[4], DaysOfWeek, a).error)
      else Ok([ReadField(parts[0], Minutes, a).value, ReadField(parts[1], Hours, a).value,
               ReadField(parts[2], DaysOfMonth, a).value, ReadField(parts[3], Months, a).value,
               ReadField(parts[4], DaysOfWeek, a).value])
  {
    hide ReadField, ReadFields;
    assert parts[0..] == parts && parts[5..] == [];
    ReadsFrom(parts, 4, a);
    ReadsFrom(parts, 3, a);
    ReadsFrom(parts, 2, a);
    ReadsFrom(parts, 1, a);
    ReadsFrom(parts, 0, a);
    NothingToRead(a);
    if ReadFields(parts, a).Ok? {
      assert ReadFields(parts, a).value ==
        [ReadField(parts[0], Minutes, a).value, ReadField(parts[1], Hours, a).value,
         ReadField(parts[2], DaysOfMonth, a).value, ReadField(parts[3], Months, a).value,
         ReadField(parts[4], DaysOfWeek, a).value];
    }
  }

  lemma ReadsFrom(parts: seq<string>, k: nat, a: Arith)
    requires k < |parts| == 5
    ensures var here, rest := ReadField(parts[k], FieldAt(k), a), ReadFields(parts[k + 1..], a);
      ReadFields(parts[k..], a) ==
        if here.Err? then Err(here.error) else if rest.Err? then rest else Ok([here.value] + rest.value)
  {
    hide ReadField;
    assert parts[k..][0] == parts[k] && parts[k..][1..] == parts[k + 1..];
  }

  lemma NothingToRead(a: Arith)
    ensures ReadFields([], a) == Ok([])
  {
  }

  // ---------------------------------------------------------------- when the code reads what is meant

  // The text the day-of-week field is read from: names become digits only if numbers fail.
  function DowText(raw: string): string {
    if FieldValues(raw, DaysOfWeek, Wrapping).Ok? || NormalizeDow(raw).Err? then raw
    else NormalizeDow(raw).value
  }

  predicate TextFits(text: string, f: Field) {
    FieldFits(if f.DaysOfWeek? then DowText(text) else text, f)
  }

  lemma ReadFieldIsExact(text: string, f: Field)
    ensures ReadField(text, f, Wrapping).Ok? <==> ReadField(text, f, Unbounded).Ok?
    ensures ReadField(text, f, Wrapping).Err? ==> ReadField(text, f, Wrapping) == ReadField(text, f, Unbounded)
    ensures ReadField(text, f, Wrapping).Ok? ==>
              && (ReadField(text, f, Wrapping) == ReadField(text, f, Unbounded) <==> TextFits(text, f))
              && (Within(ReadField(text, f, Wrapping).value, f) <==> TextFits(text, f))
              && Within(ReadField(text, f, Unbounded).value, f)
              && Reaches(ReadField(text, f, Wrapping).value, f)
  {
    hide FieldValues, FieldFits, NormalizeDow, Within, Reaches;
    FieldIsExact(text, f);
    if NormalizeDow(text).Ok? { FieldIsExact(NormalizeDow(text).value, f); }
  }

  // No step of any field of the expression leaves the 64 bits.
  predicate NoOverflow(expr: string) {
    var parts := Fields(Trim(expr));
    |parts| == 5 ==> forall i | 0 <= i < 5 :: TextFits(parts[i], FieldAt(i))
  }

  predicate ValidSchedule(c: Schedule) {
    && Within(c.minutes, Minutes) && Within(c.hours, Hours) && Within(c.doms, DaysOfMonth)
    && Within(c.months, Months) && Within(c.dows, DaysOfWeek)
  }

  // Every field has a value within its bounds, whatever else it has.
  predicate Fires(c: Schedule) {
    && Reaches(c.minutes, Minutes) && Reaches(c.hours, Hours) && Reaches(c.doms, DaysOfMonth)
    && Reaches(c.months, Months) && Reaches(c.dows, DaysOfWeek)
  }

  lemma AllFit(parts: seq<string>)
    requires |parts| == 5
    ensures (forall i | 0 <= i < 5 :: TextFits(parts[i], FieldAt(i))) <==>
              && TextFits(parts[0], Minutes) && TextFits(parts[1], Hours) && TextFits(parts[2], DaysOfMonth)
              && TextFits(parts[3], Months) && TextFits(parts[4], DaysOfWeek)
  {
    hide TextFits;
    if forall i | 0 <= i < 5 :: TextFits(parts[i], FieldAt(i)) {
      assert TextFits(parts[0], FieldAt(0)) && TextFits(parts[1], FieldAt(1)) && TextFits(parts[2], FieldAt(2));
      assert TextFits(parts[3], FieldAt(3)) && TextFits(parts[4], FieldAt(4));
    }
  }

  // The code accepts and rejects what the grammar does. What it makes of an accepted expression is
  // what the expression means, and stays within the fields' bounds, if and only if no step leaves
  // the 64 bits.
  lemma ParsedAsMeant(expr: string)
    ensures ParseSchedule(expr).Ok? <==> Meant(expr).Ok?
    ensures ParseSchedule(expr).Err? ==> ParseSchedule(expr) == Meant(expr)
    ensures ParseSchedule(expr).Ok? ==>
              && (ParseSchedule(expr) == Meant(expr) <==> NoOverflow(expr))
              && (ValidSchedule(ParseSchedule(expr).value) <==> NoOverflow(expr))
              && ValidSchedule(Meant(expr).value)
              && Fires(ParseSchedule(expr).value)
  {
    hide ReadField, ReadFields, Fields, Trim, Within, Reaches, TextFits;
    var parts := Fields(Trim(expr));
    if |parts| == 5 {
      FiveReads(parts, Wrapping);
      FiveReads(parts, Unbounded);
      ReadFieldIsExact(parts[0], Minutes);
      ReadFieldIsExact(parts[1], Hours);
      ReadFieldIsExact(parts[2], DaysOfMonth);
      ReadFieldIsExact(parts[3], Months);
      ReadFieldIsExact(parts[4], DaysOfWeek);
      AllFit(parts);
    }
  }
}
