/** Stepping through a range: every step-th value, and what a loop on 64-bit integers collects. */
module CronSteps {
  import opened Text

  // v is reached from `low` in whole steps.
  predicate OnStep(v: int, low: int, step: int)
    requires step > 0
  {
    (v - low) % step == 0
  }

  // Every step-th value of the range.
  function Stepped(low: int, high: int, step: int): set<int>
    requires step > 0
  {
    set v | low <= v <= high && OnStep(v, low, step)
  }

  // ---------------------------------------------------------------- the loop

  const TWO_64 := 0x1_0000_0000_0000_0000

  // The sum of a 64-bit integer and a positive step, as the machine adds them.
  function Wrap(sum: int): int {
    if sum > MAX_INT then sum - TWO_64 else sum
  }

  // What the loop needs: a small upper end, and 64-bit integers.
  predicate Steppable(i: int, high: int, step: int) {
    -MAX_INT - 1 <= i <= high && 0 <= high <= 1000 && 0 < step <= MAX_INT
  }

  const HALF := 0x4000_0000_0000_0000

  // How far the loop still can go. Once it wraps, it is far below the range every other time and
  // falls by at least two each time it comes back.
  function Distance(i: int, high: int, step: int): nat
    requires Steppable(i, high, step)
  {
    if step <= MAX_INT - high then high - i
    else if i >= -HALF then 2 * (i + HALF)
    else 2 * (i + step + HALF) + 1
  }

  // The values the loop collects from i on.
  function Filled(i: int, high: int, step: int): (r: set<int>)
    requires Steppable(i, high, step)
    decreases Distance(i, high, step)
  {
    var next := Wrap(i + step);
    if next > high then {i} else {i} + Filled(next, high, step)
  }

  // ---------------------------------------------------------------- when the loop is right

  // The first step does not leave the 64 bits. Later ones cannot: they start inside a small range.
  predicate Fits(low: int, step: int) {
    low + step <= MAX_INT
  }

  lemma {:induction false} Multiples(x: int, step: int)
    requires step > 0
    ensures x <= 0 ==> x * step <= 0
    ensures x >= 1 ==> x * step >= step
    ensures x <= -1 ==> x * step <= -step
  {
  }

  lemma {:induction false} Distribute(a: int, b: int, step: int)
    ensures (a - b) * step == a * step - b * step
  {
  }

  // Nothing lies strictly between two neighbouring steps.
  lemma {:induction false} NoStepBetween(low: int, v: int, step: int)
    requires step > 0 && OnStep(v, low, step) && v > low
    ensures v >= low + step
  {
    Multiples((v - low) / step, step);
  }

  lemma {:induction false} Shifted(low: int, v: int, step: int)
    requires step > 0
    ensures OnStep(v, low + step, step) <==> OnStep(v, low, step)
  {
    var a, b := (v - low) / step, (v - low - step) / step;
    var r, s := (v - low) % step, (v - low - step) % step;
    assert v - low == a * step + r && v - low - step == b * step + s;
    Distribute(a, b, step);
    Distribute(a - b, 1, step);
    assert (a - b - 1) * step == s - r;
    Multiples(a - b - 1, step);
  }

  lemma {:induction false} StepHead(low: int, high: int, step: int)
    requires step > 0 && low <= high
    ensures Stepped(low, high, step) == {low} + Stepped(low + step, high, step)
  {
    assert OnStep(low, low, step);
    forall v ensures v in Stepped(low, high, step) <==> v in {low} + Stepped(low + step, high, step) {
      Shifted(low, v, step);
      if v in Stepped(low, high, step) && v != low { NoStepBetween(low, v, step); }
    }
  }

  lemma {:induction false} FilledWithin(i: int, high: int, step: int)
    requires Steppable(i, high, step) && i >= 0 && Fits(i, step)
    ensures Filled(i, high, step) == Stepped(i, high, step)
    decreases high - i
  {
    hide Distance;
    StepHead(i, high, step);
    if i + step <= high {
      FilledWithin(i + step, high, step);
    } else {
      assert Stepped(i + step, high, step) == {};
    }
  }

  // The loop collects exactly every step-th value of the range if and only if its first step stays
  // within 64 bits; otherwise it also collects a negative value.
  lemma FilledIsStepped(low: int, high: int, step: int)
    requires Steppable(low, high, step) && low >= 0
    ensures Filled(low, high, step) == Stepped(low, high, step) <==> Fits(low, step)
    ensures (forall v | v in Filled(low, high, step) :: low <= v <= high) <==> Fits(low, step)
    ensures (forall v | v in Filled(low, high, step) :: v >= 0) <==> Fits(low, step)
    ensures low in Filled(low, high, step)
  {
    hide Distance;
    if Fits(low, step) {
      FilledWithin(low, high, step);
    } else {
      var next := Wrap(low + step);
      assert next in Filled(next, high, step) && next < 0;
    }
  }

  // ---------------------------------------------------------------- what wrapping collects

  lemma {:induction false} LargestStepTwice(x: int, high: int)
    requires Steppable(x, high, MAX_INT) && x >= 1
    ensures Filled(x, high, MAX_INT) == {x, x - MAX_INT - 2} + Filled(x - 2, high, MAX_INT)
  {
    hide Distance;
    var below := x - MAX_INT - 2;
    assert Wrap(x + MAX_INT) == below && Wrap(below + MAX_INT) == x - 2;
    assert Filled(x, high, MAX_INT) == {x} + Filled(below, high, MAX_INT);
    assert Filled(below, high, MAX_INT) == {below} + Filled(x - 2, high, MAX_INT);
  }

  predicate Odd(v: int) {
    v % 2 == 1
  }

  // The odd numbers from -1 to x, and one value far below for each of them but the first.
  predicate OddsAndFarBelow(values: set<int>, x: int) {
    && (forall v | -1 <= v <= x && Odd(v) :: v in values)
    && (forall v | v in values :: (-1 <= v <= x && Odd(v)) || v <= x - MAX_INT - 2)
    && |values| == x + 2
  }

  lemma TwoMore(rest: set<int>, x: int)
    requires OddsAndFarBelow(rest, x - 2) && 1 <= x <= 1000 && Odd(x)
    ensures OddsAndFarBelow({x, x - MAX_INT - 2} + rest, x)
  {
    var y := x - MAX_INT - 2;
    var values := {x, y} + rest;
    assert values == rest + {x} + {y} && x !in rest && y !in rest;
  }

  // With the largest step the loop comes back two lower each time, and leaves one value near the
  // smallest integer in between.
  lemma {:induction false} LargestStep(x: int, high: int)
    requires Steppable(x, high, MAX_INT) && -1 <= x && Odd(x)
    ensures OddsAndFarBelow(Filled(x, high, MAX_INT), x)
    decreases x + 1
  {
    hide Distance, OddsAndFarBelow;
    if x == -1 {
      LargestStepEnds(high);
    } else {
      LargestStepTwice(x, high);
      LargestStep(x - 2, high);
      TwoMore(Filled(x - 2, high, MAX_INT), x);
    }
  }

  lemma LargestStepEnds(high: int)
    requires 0 <= high <= 1000
    ensures OddsAndFarBelow(Filled(-1, high, MAX_INT), -1)
  {
    hide Distance;
    assert Filled(-1, high, MAX_INT) == {-1};
  }
}
