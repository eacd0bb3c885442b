/**
 * How a measurement is shown beside the limit it is judged against
 * (packages/contracts/src/rules.ts), in exact arithmetic: rounding must not
 * make a breach read as equal, nor turn it round.
 */
module SlaRounding {
  datatype Unit = Fraction | Milliseconds | PerSecond | Count

  const READING_DECIMALS := 2
  const PERCENT_DECIMALS := 4
  const WIDEN_BY_AT_MOST := 10

  function Pow10(d: nat): (p: real)
    ensures p >= 1.0
  {
    if d == 0 then 1.0 else 10.0 * Pow10(d - 1)
  }

  /** The nearest integer, halves away from zero: ECMA-262, Number.prototype.toFixed. */
  function Nearest(x: real): int
  {
    if x >= 0.0 then (x + 0.5).Floor else -((-x + 0.5).Floor)
  }

  function Product(x: real, y: real): real { x * y }

  function Ratio(n: int, p: real): real
    requires p > 0.0
  {
    n as real / p
  }

  /** Rounded to a multiple of 1 / p. */
  function RoundBy(x: real, p: real): real
    requires p > 0.0
  {
    Ratio(Nearest(Product(x, p)), p)
  }

  function RoundTo(x: real, decimals: nat): real { RoundBy(x, Pow10(decimals)) }

  predicate Whole(x: real) { x == x.Floor as real }

  /** A multiple of the last of `decimals` decimals. */
  predicate OnGrid(x: real, decimals: nat) { Whole(Product(x, Pow10(decimals))) }

  function Scaled(unit: Unit, x: real): real { if unit.Fraction? then x * 100.0 else x }

  function Decimals(unit: Unit): nat { if unit.Fraction? then PERCENT_DECIMALS else READING_DECIMALS }

  /** What the author's limit shows. Limits of at most fifteen significant digits are shown as they are. */
  function BoundNumber(unit: Unit, threshold: real): real
  {
    if unit.Fraction? then RoundTo(threshold * 100.0, PERCENT_DECIMALS) else threshold
  }

  /** Ever more decimals, until the number no longer reads as the bound. */
  function Widened(scaled: real, bound: real, decimals: nat, left: nat): real
    decreases left
  {
    if left == 0 then scaled
    else
      var shown := RoundTo(scaled, decimals);
      if shown != bound then shown else Widened(scaled, bound, decimals + 1, left - 1)
  }

  function MeasuredNumber(unit: Unit, actual: real, threshold: real): real
  {
    if unit.Count? then actual
    else
      var bound := BoundNumber(unit, threshold);
      if actual == threshold then bound
      else
        var first := RoundTo(Scaled(unit, actual), Decimals(unit));
        if first != bound then first
        else Widened(Scaled(unit, actual), bound, Decimals(unit) + 1, WIDEN_BY_AT_MOST)
  }

  method Measure(unit: Unit, actual: real, threshold: real) returns (shown: real)
    ensures shown == MeasuredNumber(unit, actual, threshold)
  {
    if unit.Count? { return actual; }
    var bound := BoundNumber(unit, threshold);
    if actual == threshold { return bound; }
    var first := if unit.Fraction? then RoundTo(actual * 100.0, PERCENT_DECIMALS)
        else RoundTo(actual, READING_DECIMALS);
    if first != bound { return first; }
    var scaled := if unit.Fraction? then actual * 100.0 else actual;
    var from := (if unit.Fraction? then PERCENT_DECIMALS else READING_DECIMALS) + 1;
    var decimals := from;
    while decimals < from + WIDEN_BY_AT_MOST
      invariant from <= decimals <= from + WIDEN_BY_AT_MOST
      invariant Widened(scaled, bound, decimals, from + WIDEN_BY_AT_MOST - decimals)
          == MeasuredNumber(unit, actual, threshold)
    {
      shown := RoundTo(scaled, decimals);
      if shown != bound { return; }
      decimals := decimals + 1;
    }
    shown := scaled;
  }

  lemma {:induction false} WidenedIsFewest(scaled: real, bound: real, d: nat, left: nat) returns (k: nat)
    ensures d <= k <= d + left && forall j :: d <= j < k ==> RoundTo(scaled, j) == bound
    ensures k < d + left ==> RoundTo(scaled, k) != bound
    ensures Widened(scaled, bound, d, left) == if k < d + left then RoundTo(scaled, k) else scaled
    decreases left
  {
    if left == 0 || RoundTo(scaled, d) != bound {
      k := d;
    } else {
      k := WidenedIsFewest(scaled, bound, d + 1, left - 1);
    }
  }

  /** A measurement that is not its limit is shown with the fewest decimals that tell it from the limit, if any do. */
  lemma MeasuredIsFewest(unit: Unit, actual: real, threshold: real) returns (k: nat)
    requires !unit.Count? && actual != threshold
    ensures Decimals(unit) <= k <= Decimals(unit) + 1 + WIDEN_BY_AT_MOST
    ensures forall j :: Decimals(unit) <= j < k ==> RoundTo(Scaled(unit, actual), j) == BoundNumber(unit, threshold)
    ensures k <= Decimals(unit) + WIDEN_BY_AT_MOST ==>
              && MeasuredNumber(unit, actual, threshold) == RoundTo(Scaled(unit, actual), k)
              && RoundTo(Scaled(unit, actual), k) != BoundNumber(unit, threshold)
    ensures k > Decimals(unit) + WIDEN_BY_AT_MOST ==> MeasuredNumber(unit, actual, threshold) == Scaled(unit, actual)
  {
    var scaled, bound := Scaled(unit, actual), BoundNumber(unit, threshold);
    k := WidenedIsFewest(scaled, bound, Decimals(unit), WIDEN_BY_AT_MOST + 1);
  }

  // ----- Rounding -----

  lemma NearestMonotone(x: real, y: real)
    requires x <= y
    ensures Nearest(x) <= Nearest(y)
  {
  }

  /** No more than half away, halves away from zero, and the same on both sides of it. */
  lemma NearestIs(x: real, n: nat)
    ensures -0.5 <= Nearest(x) as real - x <= 0.5 && Nearest(-x) == -Nearest(x)
    ensures Nearest(n as real + 0.5) == n + 1
  {
  }

  lemma NearestOfInt(n: int)
    ensures Nearest(n as real) == n
  {
  }

  lemma Times(x: real, y: real, p: real)
    requires p > 0.0
    ensures x <= y <==> x * p <= y * p
    ensures x < y <==> x * p < y * p
    ensures x / p * p == x
  {
  }

  lemma DividedMonotone(x: real, y: real, p: real)
    requires p > 0.0 && x <= y
    ensures x / p <= y / p
  {
    Times(x / p, y / p, p);
    Times(x, y, p);
  }

  lemma RoundMonotone(x: real, y: real, p: real)
    requires p > 0.0 && x <= y
    ensures RoundBy(x, p) <= RoundBy(y, p)
  {
    Times(x, y, p);
    var a, b := Product(x, p), Product(y, p);
    NearestMonotone(a, b);
    DividedMonotone(Nearest(a) as real, Nearest(b) as real, p);
  }

  lemma DivideBack(x: real, p: real)
    requires p > 0.0
    ensures x * p / p == x
  {
    Times(x, x, p);
  }

  /** A number on the grid is its own rounding, and is on every finer grid. */
  lemma RoundOnGrid(x: real, p: real)
    requires p > 0.0 && Whole(Product(x, p))
    ensures RoundBy(x, p) == x
  {
    NearestOfInt(Product(x, p).Floor);
    DivideBack(x, p);
  }

  lemma RoundToOnGrid(x: real, d: nat)
    requires OnGrid(x, d)
    ensures RoundTo(x, d) == x
  {
    RoundOnGrid(x, Pow10(d));
  }

  lemma TenTimes(y: real)
    requires Whole(y)
    ensures Whole(10.0 * y)
  {
    assert (10 * y.Floor) as real == 10.0 * y.Floor as real;
  }

  lemma Finer(x: real, d: nat)
    requires OnGrid(x, d)
    ensures OnGrid(x, d + 1)
  {
    var y, z := Product(x, Pow10(d)), Product(x, Pow10(d + 1));
    assert z == 10.0 * y;
    TenTimes(y);
    assert Whole(z);
  }

  // ----- The order of what is shown -----

  /** `a` stands to `b` as `x` to `y`: over, under or equal. */
  predicate SameOrder(a: real, b: real, x: real, y: real)
  {
    (a < b <==> x < y) && (a == b <==> x == y)
  }

  /** Against a bound on the grid, widening keeps to the right side of it. */
  lemma {:induction false} WidenedKeepsSide(scaled: real, bound: real, d: nat, left: nat)
    requires OnGrid(bound, d) && scaled != bound
    ensures SameOrder(Widened(scaled, bound, d, left), bound, scaled, bound)
    decreases left
  {
    if left > 0 {
      RoundToOnGrid(bound, d);
      if scaled < bound { RoundMonotone(scaled, bound, Pow10(d)); } else { RoundMonotone(bound, scaled, Pow10(d)); }
      Finer(bound, d);
      WidenedKeepsSide(scaled, bound, d + 1, left - 1);
    }
  }

  predicate ShownInOrder(unit: Unit, actual: real, threshold: real)
  {
    SameOrder(MeasuredNumber(unit, actual, threshold), BoundNumber(unit, threshold), actual, threshold)
  }

  /** Whatever is measured, what is shown stands to what the limit shows as the measurement stands to the limit. */
  ghost predicate Faithful(unit: Unit, threshold: real)
  {
    forall actual :: ShownInOrder(unit, actual, threshold)
  }

  lemma OnGridIsFaithful(unit: Unit, actual: real, threshold: real)
    requires !unit.Count? ==> OnGrid(Scaled(unit, threshold), Decimals(unit))
    ensures ShownInOrder(unit, actual, threshold)
  {
    if !unit.Count? && actual != threshold {
      var p := Pow10(Decimals(unit));
      var a, t := Scaled(unit, actual), Scaled(unit, threshold);
      RoundToOnGrid(t, Decimals(unit));
      if a < t { RoundMonotone(a, t, p); } else { RoundMonotone(t, a, p); }
      Finer(t, Decimals(unit));
      WidenedKeepsSide(a, t, Decimals(unit) + 1, WIDEN_BY_AT_MOST);
    }
  }

  // ----- And off the grid -----

  lemma Hundred()
    ensures Pow10(2) == 100.0
  {
    assert Pow10(1) == 10.0;
  }

  /** The neighbours of a number that is not on the grid, and what rounds to each. */
  lemma Between(y: real, x: real)
    requires !Whole(y)
    ensures y.Floor as real < y < y.Floor as real + 1.0
    ensures x < y.Floor as real + 0.5 ==> Nearest(x) <= y.Floor
    ensures x > y.Floor as real + 0.5 ==> Nearest(x) >= y.Floor + 1
    ensures y.Floor as real <= x < y.Floor as real + 0.5 ==> Nearest(x) == y.Floor
    ensures y.Floor as real + 0.5 < x <= y.Floor as real + 1.0 ==> Nearest(x) == y.Floor + 1
  {
  }

  /** Two decimals, and a limit between two of them: which side each measurement is shown on. */
  lemma ShownSide(unit: Unit, actual: real, threshold: real)
    requires (unit.Milliseconds? || unit.PerSecond?) && !OnGrid(threshold, READING_DECIMALS) && actual != threshold
    ensures var middle := Product(threshold, 100.0).Floor as real + 0.5;
      && (100.0 * actual < middle ==> MeasuredNumber(unit, actual, threshold) < threshold)
      && (100.0 * actual > middle ==> MeasuredNumber(unit, actual, threshold) > threshold)
  {
    Hundred();
    var y, x := Product(threshold, 100.0), Product(actual, 100.0);
    Between(y, x);
    var shown := Ratio(Nearest(x), 100.0);
    assert RoundTo(actual, 2) == shown;
  }

  lemma MiddleIsFaithful(unit: Unit, threshold: real)
    requires (unit.Milliseconds? || unit.PerSecond?) && !OnGrid(threshold, READING_DECIMALS)
    requires Product(threshold, 100.0) == Product(threshold, 100.0).Floor as real + 0.5
    ensures Faithful(unit, threshold)
  {
    forall actual ensures ShownInOrder(unit, actual, threshold) {
      if actual != threshold { ShownSide(unit, actual, threshold); }
    }
  }

  lemma ElsewhereIsNot(unit: Unit, threshold: real)
    requires (unit.Milliseconds? || unit.PerSecond?) && !OnGrid(threshold, READING_DECIMALS)
    requires Product(threshold, 100.0) != Product(threshold, 100.0).Floor as real + 0.5
    ensures !Faithful(unit, threshold)
  {
    var y := Product(threshold, 100.0);
    var actual := (y + y.Floor as real + 0.5) / 200.0;
    ShownSide(unit, actual, threshold);
    assert !ShownInOrder(unit, actual, threshold);
  }

  lemma WholeTwice(y: real)
    ensures Whole(2.0 * y) <==> Whole(y) || y == y.Floor as real + 0.5
  {
    var n := y.Floor;
    if Whole(y) { IntIsWhole(2.0 * y, 2 * n); }
    if y == n as real + 0.5 { IntIsWhole(2.0 * y, 2 * n + 1); }
    if Whole(2.0 * y) { OddOrEven(y, (2.0 * y).Floor, n); }
  }

  lemma IntIsWhole(x: real, k: int)
    requires x == k as real
    ensures Whole(x)
  {
  }

  lemma OddOrEven(y: real, k: int, n: int)
    requires 2.0 * y == k as real && n as real <= y < n as real + 1.0
    ensures y == n as real || y == n as real + 0.5
  {
    assert k == 2 * n || k == 2 * n + 1;
  }

  /**
   * A limit with more than two decimals is set beside some measurement the
   * wrong way round, unless it is exactly halfway between two of them.
   */
  lemma ReadingsFaithfulIff(unit: Unit, threshold: real)
    requires unit.Milliseconds? || unit.PerSecond?
    ensures Faithful(unit, threshold) <==> Whole(200.0 * threshold)
  {
    Hundred();
    var y := Product(threshold, 100.0);
    WholeTwice(y);
    assert 2.0 * y == 200.0 * threshold;
    if OnGrid(threshold, READING_DECIMALS) {
      forall actual ensures ShownInOrder(unit, actual, threshold) {
        OnGridIsFaithful(unit, actual, threshold);
      }
    } else if y == y.Floor as real + 0.5 {
      MiddleIsFaithful(unit, threshold);
    } else {
      ElsewhereIsNot(unit, threshold);
    }
  }

  lemma RoundedIsOnGrid(x: real, d: nat)
    ensures OnGrid(RoundTo(x, d), d)
  {
    var n := Nearest(Product(x, Pow10(d)));
    Times(n as real, n as real, Pow10(d));
    assert Product(RoundTo(x, d), Pow10(d)) == n as real;
  }

  /** A percentage limit, shown rounded itself, is never exempt: four decimals or some measurement is misplaced. */
  lemma PercentFaithfulIff(threshold: real)
    ensures Faithful(Fraction, threshold) <==> OnGrid(threshold * 100.0, PERCENT_DECIMALS)
  {
    if OnGrid(threshold * 100.0, PERCENT_DECIMALS) {
      forall actual ensures ShownInOrder(Fraction, actual, threshold) {
        OnGridIsFaithful(Fraction, actual, threshold);
      }
    } else {
      var t := threshold * 100.0;
      var bound := RoundTo(t, PERCENT_DECIMALS);
      RoundedIsOnGrid(t, PERCENT_DECIMALS);
      var between := (t + bound) / 2.0;
      var actual := between / 100.0;
      RoundToOnGrid(bound, PERCENT_DECIMALS);
      if bound < t {
        RoundMonotone(bound, between, Pow10(PERCENT_DECIMALS));
        RoundMonotone(between, t, Pow10(PERCENT_DECIMALS));
      } else {
        RoundMonotone(between, bound, Pow10(PERCENT_DECIMALS));
        RoundMonotone(t, between, Pow10(PERCENT_DECIMALS));
      }
      assert RoundTo(between, PERCENT_DECIMALS) == bound && Scaled(Fraction, actual) == between;
      Finer(bound, PERCENT_DECIMALS);
      WidenedKeepsSide(between, bound, PERCENT_DECIMALS + 1, WIDEN_BY_AT_MOST);
      assert !ShownInOrder(Fraction, actual, threshold);
    }
  }

  /** A mean of 100.0041 ms breaks a limit of 100.004 ms, and is shown as 100. */
  lemma OffGridExample()
    ensures MeasuredNumber(Milliseconds, 100.0041, 100.004) == 100.0
  {
    Hundred();
    assert Product(100.0041, 100.0) == 10000.41;
    assert Nearest(10000.41) == 10000;
  }
}
