/** A scored week's floor, points and ceiling. Scores are whole cents, as the league rules round them. */
module Scenario {
  import opened Basics
  import opened LeagueRules
  import opened Sums

  // ----- how far a floor is lifted -----

  const RECEPTION_DECISIVE := 0.25
  const STABILITY_BASE := 0.5
  const MAX_LIFT := 0.25

  function Mean(xs: seq<real>): real
    requires xs != []
  {
    Sum(xs) / |xs| as real
  }

  function Squares(xs: seq<real>, mean: real): seq<real> {
    seq(|xs|, k requires 0 <= k < |xs| => (xs[k] - mean) * (xs[k] - mean))
  }

  function Variance(xs: seq<real>): real
    requires xs != []
  {
    Mean(Squares(xs, Mean(xs)))
  }

  /** The deviation of these is the nonnegative square root of their variance. */
  ghost predicate IsDeviation(xs: seq<real>, deviation: real) {
    xs != [] && deviation >= 0.0 && deviation * deviation == Variance(xs)
  }

  /** One less the relative deviation of the recent targets, within 0 and 1, in thousandths. deviation is
      their deviation, whose square root is taken outside. */
  function Stability(targets: seq<real>, deviation: real): (thousandths: Option<int>)
    requires |targets| >= 3 ==> IsDeviation(targets, deviation)
    ensures thousandths.Some? <==> |targets| >= 3
    ensures thousandths.Some? ==> 0 <= thousandths.value <= 1000
  {
    if |targets| < 3 then None
    else if Mean(targets) <= 0.0 then Some(0)
    else
      var steady := 1.0 - deviation / Mean(targets);
      var clamped := if steady < 0.0 then 0.0 else if steady > 1.0 then 1.0 else steady;
      RoundIsMonotone(0.0, clamped * 1000.0);
      RoundIsMonotone(clamped * 1000.0, 1000.0);
      Some(Round(clamped * 1000.0))
  }

  lemma {:induction false} PositiveProduct(x: real, y: real, product: real)
    requires x > 0.0 && y > 0.0 && product == x * y
    ensures product > 0.0
  {
  }

  lemma {:induction false} NegativeSquare(x: real, square: real)
    requires x < 0.0 && square == x * x
    ensures square > 0.0
  {
    var y := -x;
    assert square == y * y;
    PositiveProduct(y, y, square);
  }

  lemma {:induction false} SquareIsZero(x: real, square: real)
    requires square == x * x
    ensures x > 0.0 ==> square > 0.0
    ensures x < 0.0 ==> square > 0.0
    ensures x == 0.0 ==> square == 0.0
  {
    if x > 0.0 {
      PositiveProduct(x, x, square);
    } else if x < 0.0 {
      NegativeSquare(x, square);
    }
  }

  lemma {:induction false} SumOfSquares(xs: seq<real>, mean: real, squares: seq<real>)
    requires |squares| == |xs| && forall k | 0 <= k < |xs| :: squares[k] == (xs[k] - mean) * (xs[k] - mean)
    ensures Sum(squares) >= 0.0
    ensures Sum(squares) == 0.0 <==> forall k | 0 <= k < |xs| :: xs[k] == mean
    decreases |xs|
  {
    if xs != [] {
      var last := |xs| - 1;
      SquareIsZero(xs[last] - mean, squares[last]);
      SumOfSquares(xs[..last], mean, squares[..last]);
      assert forall k | 0 <= k < last :: xs[..last][k] == xs[k];
    }
  }

  lemma {:induction false} ZeroMean(xs: seq<real>)
    requires xs != []
    ensures Mean(xs) == 0.0 <==> Sum(xs) == 0.0
  {
  }

  /** Targets deviate by nothing exactly when they are all the same; then, if there are any, the player is
      perfectly stable. */
  lemma {:induction false} SteadyIffConstant(targets: seq<real>, deviation: real)
    requires IsDeviation(targets, deviation)
    ensures deviation == 0.0 <==> forall k | 0 <= k < |targets| :: targets[k] == Mean(targets)
    ensures |targets| >= 3 && Mean(targets) > 0.0 && deviation == 0.0 ==> Stability(targets, deviation) == Some(1000)
  {
    SumOfSquares(targets, Mean(targets), Squares(targets, Mean(targets)));
    ZeroMean(Squares(targets, Mean(targets)));
    SquareIsZero(deviation, Variance(targets));
  }

  lemma {:induction false} Rescaled(score: int, ratio: real, mean: real, deviation: real)
    requires mean > 0.0 && ratio * mean == deviation
    requires -0.5 <= (1.0 - ratio) * 1000.0 - score as real < 0.5
    ensures -0.5 * mean <= 1000.0 * (mean - deviation) - score as real * mean <= 0.5 * mean
  {
    var rest := (1.0 - ratio) * 1000.0 - score as real;
    assert rest * mean == 1000.0 * (mean - deviation) - score as real * mean;
    ScaledBounds(rest, mean);
  }

  lemma {:induction false} ScaledBounds(rest: real, mean: real)
    requires mean > 0.0 && -0.5 <= rest <= 0.5
    ensures -0.5 * mean <= rest * mean <= 0.5 * mean
  {
  }

  lemma {:induction false} RatioAbove(deviation: real, mean: real)
    requires mean > 0.0
    ensures deviation / mean * mean == deviation
    ensures deviation >= mean <==> deviation / mean >= 1.0
    ensures deviation >= 0.0 ==> deviation / mean >= 0.0
  {
  }

  /** From three games on, the score is what is left of the mean above the deviation, as a part of the mean,
      to the nearest thousandth; nothing if there is no mean or none of it is left. */
  lemma {:induction false} StabilityIsRelative(targets: seq<real>, deviation: real)
    requires |targets| >= 3 && IsDeviation(targets, deviation)
    ensures var mean, score := Mean(targets), Stability(targets, deviation).value;
      if mean <= 0.0 || mean <= deviation then score == 0
      else -0.5 * mean <= 1000.0 * (mean - deviation) - score as real * mean <= 0.5 * mean
  {
    var mean := Mean(targets);
    if mean > 0.0 {
      var ratio := deviation / mean;
      RatioAbove(deviation, mean);
      if deviation < mean {
        RoundIsNearest((1.0 - ratio) * 1000.0);
        Rescaled(Stability(targets, deviation).value, ratio, mean, deviation);
      } else {
        RoundFixesWhole(0);
        assert 1.0 - ratio <= 0.0;
        assert Round(0.0) == 0;
      }
    }
  }

  /** The lift in hundredths. */
  function FloorLift(stability: Option<int>, receptionShare: Option<real>): (hundredths: int)
    requires stability.Some? ==> stability.value <= 1000
    ensures 0 <= hundredths <= 25
    ensures hundredths > 0 ==>
      stability.Some? && stability.value > 500 && receptionShare.Some? && receptionShare.value >= RECEPTION_DECISIVE
  {
    if stability.None? || receptionShare.None? || receptionShare.value < RECEPTION_DECISIVE then 0
    else
      var s := stability.value as real / 1000.0;
      if s <= STABILITY_BASE then 0
      else
        var lift := (s - STABILITY_BASE) / (1.0 - STABILITY_BASE) * MAX_LIFT * 100.0;
        assert 0.0 <= lift <= 25.0;
        RoundIsMonotone(0.0, lift);
        RoundIsMonotone(lift, 25.0);
        Round(lift)
  }

  /** With decisive receptions the lift grows evenly from nothing at a half to a quarter at full stability, to
      the nearest hundredth. */
  lemma {:induction false} LiftIsEven(stability: int, share: real)
    requires 500 < stability <= 1000 && share >= 0.25
    ensures -10 <= stability - 500 - 20 * FloorLift(Some(stability), Some(share)) < 10
  {
    var lift := (stability as real / 1000.0 - STABILITY_BASE) / (1.0 - STABILITY_BASE) * MAX_LIFT * 100.0;
    assert 20.0 * lift == (stability - 500) as real;
    RoundIsNearest(lift);
  }

  /** A steadier player is never lifted less. */
  lemma {:induction false} LiftIsMonotone(s: int, t: int, share: Option<real>)
    requires s <= t <= 1000
    ensures FloorLift(Some(s), share) <= FloorLift(Some(t), share)
  {
    var a := (s as real / 1000.0 - STABILITY_BASE) / (1.0 - STABILITY_BASE) * MAX_LIFT * 100.0;
    var b := (t as real / 1000.0 - STABILITY_BASE) / (1.0 - STABILITY_BASE) * MAX_LIFT * 100.0;
    RoundIsMonotone(a, b);
  }

  /** A floor moved some hundredths of the way to the mean, in cents. */
  function Lifted(floor: int, mean: int, hundredths: int): int {
    Round(floor as real + (mean - floor) as real * hundredths as real / 100.0)
  }

  /** Rounding to cents never takes a lifted floor past the mean, nor below where it was. */
  lemma {:induction false} LiftStaysBetween(floor: int, mean: int, hundredths: int)
    requires floor <= mean && 0 <= hundredths <= 100
    ensures floor <= Lifted(floor, mean, hundredths) <= mean
  {
    var gap, part := (mean - floor) as real, hundredths as real / 100.0;
    PartOf(gap, part);
    assert gap * hundredths as real / 100.0 == gap * part;
    RoundIsMonotone(floor as real, floor as real + gap * part);
    RoundIsMonotone(floor as real + gap * part, mean as real);
    RoundFixesWhole(floor);
    RoundFixesWhole(mean);
  }

  /** A lifted floor has gone its part of the way to the mean, to the nearest cent. */
  lemma {:induction false} LiftGoesItsPart(floor: int, mean: int, hundredths: int)
    ensures -50 <= 100 * floor + (mean - floor) * hundredths - 100 * Lifted(floor, mean, hundredths) < 50
  {
    var exact := floor as real + (mean - floor) as real * hundredths as real / 100.0;
    ProductOfWhole(mean - floor, hundredths);
    assert 100.0 * exact == (100 * floor + (mean - floor) * hundredths) as real;
    RoundIsNearest(exact);
  }

  lemma {:induction false} ProductOfWhole(a: int, b: int)
    ensures a as real * b as real == (a * b) as real
  {
  }

  lemma {:induction false} NoLift(floor: int, mean: int)
    ensures Lifted(floor, mean, 0) == floor
  {
    RoundFixesWhole(floor);
  }

  lemma {:induction false} PartOf(gap: real, part: real)
    requires 0.0 <= gap && 0.0 <= part <= 1.0
    ensures 0.0 <= gap * part <= gap
  {
  }

  // ----- scored weeks -----

  /** A floor after lifting; that of a week off stays. */
  function AfterLift(floor: Option<int>, mean: int, multiplier: int, hundredths: int): Option<int> {
    if floor.Some? && multiplier != 0 then Some(Lifted(floor.value, mean, hundredths)) else floor
  }

  /** In cents. */
  const TOLERANCE := 0.0000001

  /** multiplier is 0 for a bye or an absence and 1 otherwise. */
  class ScoredWeek {
    const mean: int
    const multiplier: int
    const points: int
    var floor: Option<int>
    var ceiling: Option<int>
    var floorPoints: Option<int>
    var ceilingPoints: Option<int>

    /** Scenario points are the scenarios at the week's multiplier, and no scenario contradicts the mean. */
    ghost predicate Ordered()
      reads this
    {
      && (multiplier == 0 || multiplier == 1) && points == mean * multiplier
      && (floor.Some? ==> floor.value <= mean) && (ceiling.Some? ==> mean <= ceiling.value)
      && floorPoints == (if floor.Some? then Some(floor.value * multiplier) else None)
      && ceilingPoints == (if ceiling.Some? then Some(ceiling.value * multiplier) else None)
    }

    /** Scores every scenario once, and discards a scenario the mean contradicts. Totals are unrounded. */
    constructor (total: real, floorTotal: Option<real>, ceilingTotal: Option<real>, absent: bool)
      ensures Ordered()
      ensures mean == Round(total * 100.0) && multiplier == (if absent then 0 else 1)
      ensures floor == if floorTotal.Some? && Round(floorTotal.value * 100.0) <= mean then
        Some(Round(floorTotal.value * 100.0)) else None
      ensures ceiling == if ceilingTotal.Some? && mean <= Round(ceilingTotal.value * 100.0) then
        Some(Round(ceilingTotal.value * 100.0)) else None
    {
      var cents := Round(total * 100.0);
      var factor := if absent then 0 else 1;
      var low := if floorTotal.Some? then Some(Round(floorTotal.value * 100.0)) else None;
      var high := if ceilingTotal.Some? then Some(Round(ceilingTotal.value * 100.0)) else None;
      if low.Some? && low.value as real > cents as real + TOLERANCE {
        low := None;
      }
      if high.Some? && high.value as real + TOLERANCE < cents as real {
        high := None;
      }
      mean, multiplier, points, floor, ceiling := cents, factor, cents * factor, low, high;
      floorPoints := if low.Some? then Some(low.value * factor) else None;
      ceilingPoints := if high.Some? then Some(high.value * factor) else None;
    }

    method ApplyFloorLift(hundredths: int)
      requires Ordered() && 0 <= hundredths <= 25
      modifies this`floor, this`floorPoints
      ensures Ordered()
      ensures floor == if old(floor).Some? && multiplier != 0 then Some(Lifted(old(floor).value, mean, hundredths))
        else old(floor)
      ensures old(floor).Some? ==> floor.Some? && old(floor).value <= floor.value
    {
      if floor.None? || floorPoints.None? || multiplier == 0 {
        return;
      }
      LiftStaysBetween(floor.value, mean, hundredths);
      var lifted := Lifted(floor.value, mean, hundredths);
      floor := Some(lifted);
      floorPoints := Some(lifted * multiplier);
    }
  }

  /** However a week was scored and lifted, its points lie between those of the scenarios that survive. */
  lemma {:induction false} PointsLieBetween(week: ScoredWeek)
    requires week.Ordered()
    ensures week.floorPoints.Some? ==> week.floorPoints.value <= week.points
    ensures week.ceilingPoints.Some? ==> week.points <= week.ceilingPoints.value
  {
  }

  /** Lifts every week of a player: all weeks stay in order, and no floor falls. */
  method LiftAll(weeks: seq<ScoredWeek>, stability: Option<int>, receptionShare: Option<real>)
    requires stability.Some? ==> stability.value <= 1000
    requires forall i | 0 <= i < |weeks| :: weeks[i].Ordered()
    requires forall i, j | 0 <= i < j < |weeks| :: weeks[i] != weeks[j]
    modifies weeks
    ensures forall i | 0 <= i < |weeks| :: weeks[i].Ordered()
    ensures forall i | 0 <= i < |weeks| ::
      weeks[i].ceiling == old(weeks[i].ceiling) && weeks[i].floor.Some? == old(weeks[i].floor).Some?
    ensures forall i | 0 <= i < |weeks| ::
      weeks[i].floor ==
      AfterLift(old(weeks[i].floor), weeks[i].mean, weeks[i].multiplier, FloorLift(stability, receptionShare))
    ensures forall i | 0 <= i < |weeks| && weeks[i].floor.Some? ::
      old(weeks[i].floor).value <= weeks[i].floor.value <= weeks[i].mean
  {
    var hundredths := FloorLift(stability, receptionShare);
    if hundredths == 0 {
      forall i | 0 <= i < |weeks| && weeks[i].floor.Some?
        ensures Lifted(weeks[i].floor.value, weeks[i].mean, 0) == weeks[i].floor.value
      {
        NoLift(weeks[i].floor.value, weeks[i].mean);
      }
      return;
    }
    for i := 0 to |weeks|
      invariant forall j | 0 <= j < |weeks| :: weeks[j].Ordered() && weeks[j].ceiling == old(weeks[j].ceiling)
      invariant forall j | i <= j < |weeks| :: weeks[j].floor == old(weeks[j].floor)
      invariant forall j | 0 <= j < i :: weeks[j].floor.Some? == old(weeks[j].floor).Some?
      invariant forall j | 0 <= j < i ::
        weeks[j].floor == AfterLift(old(weeks[j].floor), weeks[j].mean, weeks[j].multiplier, hundredths)
      invariant forall j | 0 <= j < i && weeks[j].floor.Some? :: old(weeks[j].floor).value <= weeks[j].floor.value
    {
      weeks[i].ApplyFloorLift(hundredths);
    }
  }
}
