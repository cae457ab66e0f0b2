/** Forecasts derived from provider lines: the split of the long field-goal band, the chance of a long
    attempt and the tier probabilities, against the validators written for them. */
module Derivation {
  import opened LeagueRules
  import opened Sums
  import Scoring
  import Kicker
  import Defense

  // ----- the long band -----

  /** Shares and make rates the split is based on. */
  datatype Basis = Basis(longShare: real, makeRate5059: real, makeRate60p: real)

  predicate BasisValid(b: Basis) {
    0.0 <= b.longShare <= 1.0 && 0.0 <= b.makeRate5059 && 0.0 <= b.makeRate60p
  }

  const NFLVERSE := Basis(0.9, 0.66, 0.4)

  datatype Split = Split(d50: Kicker.Row, d60: Kicker.Row)

  lemma {:induction false} PartOf(a: real, share: real)
    requires 0.0 <= a && 0.0 <= share <= 1.0
    ensures 0.0 <= a * share <= a
  {
  }

  lemma {:induction false} ProductSign(a: real, b: real)
    requires 0.0 <= a && 0.0 <= b
    ensures 0.0 <= a * b
  {
  }

  lemma {:induction false} Ratio(part: real, total: real)
    requires 0.0 <= part <= total && 0.0 < total
    ensures 0.0 <= part / total <= 1.0
  {
  }

  /** The share of the makes that goes to the shorter band before clamping: by expected makes. */
  function Apportioned(makes: real, weight5059: real, weight60p: real): real {
    if weight5059 + weight60p > 0.0 then makes * (weight5059 / (weight5059 + weight60p)) else 0.0
  }

  function ShareOf(makes: real, attempts5059: real, attempts60p: real, b: Basis): real {
    Apportioned(makes, attempts5059 * b.makeRate5059, attempts60p * b.makeRate60p)
  }

  lemma {:induction false} ApportionedWithin(makes: real, weight5059: real, weight60p: real)
    requires 0.0 <= makes && 0.0 <= weight5059 && 0.0 <= weight60p
    ensures 0.0 <= Apportioned(makes, weight5059, weight60p) <= makes
  {
    if weight5059 + weight60p > 0.0 {
      Ratio(weight5059, weight5059 + weight60p);
      PartOf(makes, weight5059 / (weight5059 + weight60p));
    }
  }

  /** Clamping to the attempts; a make displaced from one band moves to the other. */
  method Clamp(attempts5059: real, attempts60p: real, first: real, second: real)
    returns (makes5059: real, makes60p: real)
    requires 0.0 <= attempts5059 && 0.0 <= attempts60p && 0.0 <= first && 0.0 <= second
    ensures 0.0 <= makes5059 <= attempts5059 && 0.0 <= makes60p <= attempts60p
    ensures makes5059 + makes60p == first + second <==> first + second <= attempts5059 + attempts60p
    ensures first <= attempts5059 && second <= attempts60p ==> makes5059 == first && makes60p == second
    ensures first > attempts5059 ==> makes5059 == attempts5059
    ensures second > attempts60p ==> makes60p == attempts60p
    ensures first + second > attempts5059 + attempts60p ==> makes5059 == attempts5059 && makes60p == attempts60p
  {
    makes5059, makes60p := first, second;
    if makes5059 > attempts5059 {
      makes60p := makes60p + (makes5059 - attempts5059);
      makes5059 := attempts5059;
    }
    if makes60p > attempts60p {
      var moved := makes5059 + (makes60p - attempts60p);
      makes5059 := if moved <= attempts5059 then moved else attempts5059;
      makes60p := attempts60p;
    }
  }

  lemma {:induction false} RatioTimes(makes: real, part: real, total: real)
    requires total > 0.0
    ensures (makes * (part / total)) * total == makes * part
  {
    assert (part / total) * total == part;
    Associates(makes, part / total, total);
  }

  lemma {:induction false} Associates(a: real, b: real, c: real)
    ensures (a * b) * c == a * (b * c)
  {
  }

  /** Before clamping each band's share of the makes is its share of the makes expected of its attempts. */
  lemma {:induction false} SharedByExpectedMakes(makes: real, attempts5059: real, attempts60p: real, b: Basis)
    ensures var expected5059, expected60p := attempts5059 * b.makeRate5059, attempts60p * b.makeRate60p;
      var share := ShareOf(makes, attempts5059, attempts60p, b);
      if expected5059 + expected60p > 0.0 then share * (expected5059 + expected60p) == makes * expected5059
      else share == 0.0
  {
    var expected5059, expected60p := attempts5059 * b.makeRate5059, attempts60p * b.makeRate60p;
    if expected5059 + expected60p > 0.0 {
      RatioTimes(makes, expected5059, expected5059 + expected60p);
    }
  }

  method SplitAttempts(attempts: real, share: real) returns (attempts5059: real, attempts60p: real)
    requires 0.0 <= attempts && 0.0 <= share <= 1.0
    ensures 0.0 <= attempts5059 && 0.0 <= attempts60p
    ensures attempts5059 == attempts * share && attempts5059 + attempts60p == attempts
  {
    PartOf(attempts, share);
    attempts5059 := attempts * share;
    attempts60p := attempts - attempts5059;
  }

  method ShareMakes(makes: real, attempts5059: real, attempts60p: real, b: Basis) returns (share: real)
    requires 0.0 <= makes && 0.0 <= attempts5059 && 0.0 <= attempts60p && BasisValid(b)
    ensures 0.0 <= share <= makes && share == ShareOf(makes, attempts5059, attempts60p, b)
  {
    ProductSign(attempts5059, b.makeRate5059);
    ProductSign(attempts60p, b.makeRate60p);
    var weight5059, weight60p := attempts5059 * b.makeRate5059, attempts60p * b.makeRate60p;
    ApportionedWithin(makes, weight5059, weight60p);
    share := Apportioned(makes, weight5059, weight60p);
  }

  /** Attempts are always conserved, and makes exactly when there are no more of them than attempts; no
      band makes more than it attempts; and where no clamp acts, makes are shared by expected makes. */
  method SplitLongBand(attempts: real, makes: real, b: Basis) returns (split: Split)
    requires 0.0 <= attempts && 0.0 <= makes && BasisValid(b)
    ensures split.d50.attempts == attempts * b.longShare && split.d50.attempts + split.d60.attempts == attempts
    ensures Kicker.RowValid(split.d50) && Kicker.RowValid(split.d60)
    ensures split.d50.makes + split.d60.makes == makes <==> makes <= attempts
    ensures var share := ShareOf(makes, split.d50.attempts, split.d60.attempts, b);
      && (share <= split.d50.attempts && makes - share <= split.d60.attempts ==> split.d50.makes == share)
      && (share > split.d50.attempts ==> split.d50.makes == split.d50.attempts)
      && (makes - share > split.d60.attempts ==> split.d60.makes == split.d60.attempts)
  {
    var attempts5059, attempts60p := SplitAttempts(attempts, b.longShare);
    var share := ShareMakes(makes, attempts5059, attempts60p, b);
    var makes5059, makes60p := Clamp(attempts5059, attempts60p, share, makes - share);
    split := Split(Kicker.Row(attempts5059, makes5059), Kicker.Row(attempts60p, makes60p));
  }

  // ----- kicker forecasts -----

  /** A provider's kicker line: five bands, and the chance of a long attempt when it models one. */
  datatype KickerLine = KickerLine(d0: Kicker.Row, d20: Kicker.Row, d30: Kicker.Row, d40: Kicker.Row, d50p: Kicker.Row,
                                   pat: Kicker.Pat, longAttemptProbability: Option<real>)

  predicate KickerLineValid(line: KickerLine) {
    && Kicker.RowValid(line.d0) && Kicker.RowValid(line.d20) && Kicker.RowValid(line.d30) && Kicker.RowValid(line.d40)
    && Kicker.RowValid(line.d50p) && line.pat.makes >= 0.0 && line.pat.misses >= 0.0
  }

  function Clamped(value: real, low: real, high: real): real {
    var capped := if high < value then high else value;
    if low > capped then low else capped
  }

  /** What is used of 1 - exp(-x): it is a probability no larger than x. */
  predicate PoissonBound(p: real, x: real) {
    0.0 <= p <= 1.0 && p <= x
  }

  /** The forecast passes its validator, whatever the line, unless the source supplied its own chance of a
      long attempt and that exceeds its expected long attempts. poisson is 1 - exp(-longAttempts). */
  method DeriveKickerForecast(line: KickerLine, b: Basis, poisson: real) returns (f: Kicker.Forecast)
    requires KickerLineValid(line) && BasisValid(b) && PoissonBound(poisson, line.d50p.attempts)
    ensures f.fieldGoals ==
      Kicker.FieldGoals(line.d0, line.d20, line.d30, line.d40, f.fieldGoals.d50, f.fieldGoals.d60) && f.pat == line.pat
    ensures f.fieldGoals.d50.attempts == line.d50p.attempts * b.longShare
    ensures f.fieldGoals.d50.attempts + f.fieldGoals.d60.attempts == line.d50p.attempts
    ensures f.fieldGoals.d50.makes + f.fieldGoals.d60.makes == line.d50p.makes
    ensures f.misses.byDistance == None && f.misses.total.Some?
    ensures f.misses.total.value + Kicker.AllMakes(f.fieldGoals) == Kicker.AllAttempts(f.fieldGoals)
    ensures var chance := if line.longAttemptProbability.Some? then line.longAttemptProbability.value else poisson;
      var least := if line.d50p.attempts > 0.0 then 0.000001 else 0.0;
      && (least <= chance <= 1.0 ==> f.longAttemptProbability == chance)
      && (chance < least ==> f.longAttemptProbability == least)
      && (1.0 < chance ==> f.longAttemptProbability == 1.0)
    ensures Kicker.Valid(f) <==>
      line.longAttemptProbability.None? ||
        line.longAttemptProbability.value <= line.d50p.attempts + Scoring.TOLERANCE ||
        1.0 <= line.d50p.attempts + Scoring.TOLERANCE
  {
    var long := SplitLongBand(line.d50p.attempts, line.d50p.makes, b);
    var fieldGoals := Kicker.FieldGoals(line.d0, line.d20, line.d30, line.d40, long.d50, long.d60);
    var longAttempts := long.d50.attempts + long.d60.attempts;
    var probability := if line.longAttemptProbability.Some? then line.longAttemptProbability.value else poisson;
    var misses := Kicker.TotalMissed(fieldGoals);
    f := Kicker.Forecast(fieldGoals, line.pat, Kicker.Misses(Some(misses), None),
      Clamped(probability, if longAttempts > 0.0 then Scoring.TOLERANCE else 0.0, 1.0), None, {});
    MissesNonnegative(fieldGoals);
    Kicker.SixBands(Kicker.MissesIn(fieldGoals));
    RowsValid(fieldGoals);
  }

  lemma {:induction false} RowsValid(fg: Kicker.FieldGoals)
    requires Kicker.RowValid(fg.d0) && Kicker.RowValid(fg.d20) && Kicker.RowValid(fg.d30)
    requires Kicker.RowValid(fg.d40) && Kicker.RowValid(fg.d50) && Kicker.RowValid(fg.d60)
    ensures forall b: Kicker.Band :: Kicker.RowValid(Kicker.At(fg, b))
  {
  }

  lemma {:induction false} MissesNonnegative(fg: Kicker.FieldGoals)
    requires Kicker.RowValid(fg.d0) && Kicker.RowValid(fg.d20) && Kicker.RowValid(fg.d30)
    requires Kicker.RowValid(fg.d40) && Kicker.RowValid(fg.d50) && Kicker.RowValid(fg.d60)
    ensures Kicker.TotalMissed(fg) >= 0.0
  {
    NonnegativeSum(Kicker.BANDS, Kicker.MissesIn(fg));
  }

  lemma {:induction false} NonnegativeSum(bs: seq<Kicker.Band>, g: Kicker.Band -> real)
    requires forall b: Kicker.Band :: g(b) >= 0.0
    ensures SumOver(bs, g) >= 0.0
    decreases |bs|
  {
    if bs != [] { NonnegativeSum(bs[1..], g); }
  }

  // ----- tier probabilities -----

  /** Where a cumulative distribution is evaluated. */
  datatype Point = Below | At(x: real) | Above

  predicate Before(p: Point, q: Point) {
    p.Below? || q.Above? || (p.At? && q.At? && p.x <= q.x)
  }

  ghost predicate IsCdf(cdf: Point -> real) {
    cdf(Below) == 0.0 && cdf(Above) == 1.0 && forall p, q | Before(p, q) :: cdf(p) <= cdf(q)
  }

  function Lower(tiers: seq<Defense.Bounds>, i: nat): Point
    requires i < |tiers|
  {
    if i == 0 then Below else At(tiers[i].low as real - 0.5)
  }

  function Upper(tiers: seq<Defense.Bounds>, i: nat): Point
    requires i < |tiers|
  {
    if i == |tiers| - 1 then Above else At(tiers[i].high as real + 0.5)
  }

  function Mass(cdf: Point -> real, tiers: seq<Defense.Bounds>, i: nat): real
    requires i < |tiers|
  {
    var mass := cdf(Upper(tiers, i)) - cdf(Lower(tiers, i));
    if mass > 0.0 then mass else 0.0
  }

  function Masses(cdf: Point -> real, tiers: seq<Defense.Bounds>): seq<real> {
    seq(|tiers|, (i: int) requires 0 <= i < |tiers| => Mass(cdf, tiers, i))
  }

  function Scaled(raw: seq<real>, total: real): seq<real> {
    seq(|raw|, (i: int) requires 0 <= i < |raw| => if total > 0.0 then raw[i] / total else 0.0)
  }

  /** The first index of the largest value among the first n. */
  function Modal(s: seq<real>, n: nat): (best: nat)
    requires 0 < n <= |s|
    ensures best < n && forall i | 0 <= i < n :: s[i] <= s[best]
  {
    if n == 1 then 0
    else
      var best := Modal(s, n - 1);
      if s[n - 1] > s[best] then n - 1 else best
  }

  /** The residue of rescaling goes to the most likely tier. */
  function TierProbabilities(cdf: Point -> real, tiers: seq<Defense.Bounds>): seq<real>
    requires tiers != []
  {
    var raw := Masses(cdf, tiers);
    var scaled := Scaled(raw, Sum(raw));
    var modal := Modal(scaled, |scaled|);
    scaled[modal := scaled[modal] + (1.0 - Sum(scaled))]
  }

  lemma {:induction false} SumNonnegative(s: seq<real>)
    requires forall i | 0 <= i < |s| :: s[i] >= 0.0
    ensures Sum(s) >= 0.0 && forall i | 0 <= i < |s| :: s[i] <= Sum(s)
    decreases |s|
  {
    if s != [] { SumNonnegative(s[..|s| - 1]); }
  }

  lemma {:induction false} DividedSum(a: real, b: real, total: real)
    requires total > 0.0
    ensures (a + b) / total == a / total + b / total
  {
  }

  lemma {:induction false} ScaledSum(raw: seq<real>, total: real)
    requires total > 0.0
    ensures Sum(Scaled(raw, total)) == Sum(raw) / total
    decreases |raw|
  {
    if raw != [] {
      var last := |raw| - 1;
      assert Scaled(raw, total)[..last] == Scaled(raw[..last], total);
      ScaledSum(raw[..last], total);
      DividedSum(Sum(raw[..last]), raw[last], total);
    }
  }

  lemma {:induction false} ZeroSum(s: seq<real>)
    requires forall i | 0 <= i < |s| :: s[i] == 0.0
    ensures Sum(s) == 0.0
    decreases |s|
  {
    if s != [] { ZeroSum(s[..|s| - 1]); }
  }

  lemma {:induction false} Whole(total: real)
    requires 0.0 < total
    ensures total / total == 1.0
  {
  }

  lemma {:induction false} Quotient(a: real, total: real)
    requires 0.0 <= a && 0.0 < total
    ensures 0.0 <= a / total
  {
  }

  lemma {:induction false} MassesNonnegative(cdf: Point -> real, tiers: seq<Defense.Bounds>)
    ensures forall i | 0 <= i < |tiers| :: Masses(cdf, tiers)[i] >= 0.0
  {
  }

  /** Rescaled masses are nonnegative, and sum to one or are all zero. */
  lemma {:induction false} ScaledShape(raw: seq<real>)
    requires forall i | 0 <= i < |raw| :: raw[i] >= 0.0
    ensures forall i | 0 <= i < |raw| :: Scaled(raw, Sum(raw))[i] >= 0.0
    ensures Sum(Scaled(raw, Sum(raw))) == if Sum(raw) > 0.0 then 1.0 else 0.0
  {
    var total := Sum(raw);
    if total > 0.0 {
      ScaledSum(raw, total);
      Whole(total);
      forall i | 0 <= i < |raw| ensures Scaled(raw, total)[i] >= 0.0 { Quotient(raw[i], total); }
    } else {
      ZeroSum(Scaled(raw, total));
    }
  }

  /** Whatever function stands in for the cumulative distribution, the tier probabilities are
      probabilities and sum to one. */
  lemma {:induction false} TiersAreADistribution(cdf: Point -> real, tiers: seq<Defense.Bounds>)
    requires tiers != []
    ensures Sum(TierProbabilities(cdf, tiers)) == 1.0
    ensures Defense.IsDistribution(TierProbabilities(cdf, tiers), |tiers|)
  {
    var raw := Masses(cdf, tiers);
    MassesNonnegative(cdf, tiers);
    ScaledShape(raw);
    var scaled := Scaled(raw, Sum(raw));
    var modal := Modal(scaled, |scaled|);
    SumUpdate(scaled, modal, scaled[modal] + (1.0 - Sum(scaled)));
    SumNonnegative(TierProbabilities(cdf, tiers));
  }

  ghost predicate Contiguous(tiers: seq<Defense.Bounds>) {
    && (forall i | 0 <= i < |tiers| :: tiers[i].low <= tiers[i].high)
    && (forall i | 0 <= i < |tiers| - 1 :: tiers[i + 1].low == tiers[i].high + 1)
  }

  /** Sleeper's tiers leave no gap and do not overlap. */
  lemma {:induction false} TiersAreContiguous()
    ensures Contiguous(Defense.POINTS) && Contiguous(Defense.YARDS)
  {
  }

  /** The mass from half a point below a tier to half a point above it; the outer tiers take all beyond. */
  function Between(cdf: Point -> real, tiers: seq<Defense.Bounds>, i: nat): real
    requires i < |tiers|
  {
    (if i == |tiers| - 1 then 1.0 else cdf(At(tiers[i].high as real + 0.5)))
    - (if i == 0 then 0.0 else cdf(At(tiers[i].low as real - 0.5)))
  }

  lemma {:induction false} MassesTelescope(cdf: Point -> real, tiers: seq<Defense.Bounds>, n: nat)
    requires IsCdf(cdf) && Contiguous(tiers) && 0 < n <= |tiers|
    ensures Sum(Masses(cdf, tiers)[..n]) == cdf(Upper(tiers, n - 1))
    ensures forall i | 0 <= i < n :: Masses(cdf, tiers)[i] == cdf(Upper(tiers, i)) - cdf(Lower(tiers, i))
    decreases n
  {
    var masses := Masses(cdf, tiers);
    assert Before(Lower(tiers, n - 1), Upper(tiers, n - 1));
    if n == 1 {
      assert masses[..1] == [masses[0]];
      assert Sum([masses[0]]) == Sum([masses[0]][..0]) + masses[0];
    } else {
      MassesTelescope(cdf, tiers, n - 1);
      assert masses[..n][..n - 1] == masses[..n - 1];
      assert tiers[n - 2 + 1].low == tiers[n - 2].high + 1;
      assert Lower(tiers, n - 1) == Upper(tiers, n - 2);
    }
  }

  /** Over any cumulative distribution, contiguous tiers lose no probability: each gets exactly the mass
      between its bounds, the outer ones everything beyond theirs. */
  lemma {:induction false} TiersLoseNothing(cdf: Point -> real, tiers: seq<Defense.Bounds>, i: nat)
    requires IsCdf(cdf) && Contiguous(tiers) && i < |tiers|
    ensures TierProbabilities(cdf, tiers)[i] == Between(cdf, tiers, i)
  {
    var raw := Masses(cdf, tiers);
    MassesTelescope(cdf, tiers, |tiers|);
    assert raw[..|tiers|] == raw && Sum(raw) == 1.0;
    assert Scaled(raw, 1.0) == raw;
  }

  // ----- defense forecasts -----

  datatype DefenseLine = DefenseLine(counts: seq<real>, pointsAllowed: real, yardsAllowed: real,
                                     specialTeams: Option<seq<real>>,
                                     pointsDistribution: Option<seq<real>>, yardsDistribution: Option<seq<real>>)

  /** A mean the tiers cannot reach is dropped. Without a possible top tier the upper bound is not a number,
      and no mean counts as reachable. */
  predicate Reachable(mean: real, buckets: seq<real>, tiers: seq<Defense.Bounds>)
    requires |buckets| == |tiers| && tiers != []
  {
    buckets[|buckets| - 1] > 0.0 && mean >= Defense.LeastMean(buckets, tiers) - Scoring.TOLERANCE
  }

  function DeriveAllowed(supplied: Option<seq<real>>, mean: real, cdf: Point -> real,
          tiers: seq<Defense.Bounds>): Defense.Allowed
    requires tiers != [] && (supplied.Some? ==> |supplied.value| == |tiers|)
  {
    var buckets := if supplied.Some? then supplied.value else TierProbabilities(cdf, tiers);
    Defense.Allowed(buckets, if Reachable(mean, buckets, tiers) then Some(mean) else None)
  }

  function DeriveDefenseForecast(line: DefenseLine, pointsCdf: Point -> real, yardsCdf: Point -> real): Defense.Forecast
    requires line.pointsDistribution.Some? ==> |line.pointsDistribution.value| == |Defense.POINTS|
    requires line.yardsDistribution.Some? ==> |line.yardsDistribution.value| == |Defense.YARDS|
  {
    Defense.Forecast(line.counts, DeriveAllowed(line.pointsDistribution, line.pointsAllowed, pointsCdf, Defense.POINTS),
      DeriveAllowed(line.yardsDistribution, line.yardsAllowed, yardsCdf, Defense.YARDS), line.specialTeams, None, {})
  }

  /** The tiers' probabilities are those supplied, or else the masses the distribution puts between their
      bounds. */
  ghost predicate BucketsFrom(buckets: seq<real>, supplied: Option<seq<real>>, cdf: Point -> real,
          tiers: seq<Defense.Bounds>)
  {
    && |buckets| == |tiers|
    && (supplied.Some? ==> buckets == supplied.value)
    && (supplied.None? ==> forall i: nat | i < |tiers| :: buckets[i] == Between(cdf, tiers, i))
  }

  lemma {:induction false} AllowedFrom(supplied: Option<seq<real>>, mean: real, cdf: Point -> real,
          tiers: seq<Defense.Bounds>)
    requires tiers != [] && Contiguous(tiers) && IsCdf(cdf) && (supplied.Some? ==> |supplied.value| == |tiers|)
    ensures BucketsFrom(DeriveAllowed(supplied, mean, cdf, tiers).buckets, supplied, cdf, tiers)
  {
    if supplied.None? {
      forall i: nat | i < |tiers|
        ensures TierProbabilities(cdf, tiers)[i] == Between(cdf, tiers, i)
      {
        TiersLoseNothing(cdf, tiers, i);
      }
    }
  }

  /** A derived forecast repeats the line's counts and special teams, takes points tiers from the line's
      points and yards tiers from its yards, and passes each mean on exactly when its highest tier is possible
      and the mean is no less than the tiers' lower bounds average to. */
  lemma {:induction false} DerivedDefenseSays(line: DefenseLine, pointsCdf: Point -> real, yardsCdf: Point -> real)
    requires IsCdf(pointsCdf) && IsCdf(yardsCdf)
    requires line.pointsDistribution.Some? ==> |line.pointsDistribution.value| == |Defense.POINTS|
    requires line.yardsDistribution.Some? ==> |line.yardsDistribution.value| == |Defense.YARDS|
    ensures var f := DeriveDefenseForecast(line, pointsCdf, yardsCdf);
      var points, yards := f.pointsAllowed.buckets, f.yardsAllowed.buckets;
      && f.counts == line.counts && f.specialTeams == line.specialTeams && f.context == None
      && BucketsFrom(points, line.pointsDistribution, pointsCdf, Defense.POINTS)
      && BucketsFrom(yards, line.yardsDistribution, yardsCdf, Defense.YARDS)
      && f.pointsAllowed.expected == (
        if points[6] > 0.0 && line.pointsAllowed + 0.000001 >= Defense.LeastPoints(points)
        then Some(line.pointsAllowed) else None)
      && f.yardsAllowed.expected == (
        if yards[8] > 0.0 && line.yardsAllowed + 0.000001 >= Defense.LeastYards(yards)
        then Some(line.yardsAllowed) else None)
  {
    TiersAreContiguous();
    AllowedFrom(line.pointsDistribution, line.pointsAllowed, pointsCdf, Defense.POINTS);
    AllowedFrom(line.yardsDistribution, line.yardsAllowed, yardsCdf, Defense.YARDS);
    var f := DeriveDefenseForecast(line, pointsCdf, yardsCdf);
    Defense.PointsLeast(f.pointsAllowed.buckets);
    Defense.YardsLeast(f.yardsAllowed.buckets);
  }

  lemma {:induction false} DerivedAllowed(supplied: Option<seq<real>>, mean: real, cdf: Point -> real,
          tiers: seq<Defense.Bounds>)
    requires tiers != [] && (supplied.Some? ==> |supplied.value| == |tiers|) && mean >= 0.0
    ensures Defense.AllowedValid(DeriveAllowed(supplied, mean, cdf, tiers), tiers) <==>
      supplied.None? || Defense.IsDistribution(supplied.value, |tiers|)
  {
    TiersAreADistribution(cdf, tiers);
  }

  /** A derived forecast passes its validator exactly when the line's own counts are in range and the
      distributions it supplied, if any, are distributions: nothing the derivation adds is ever refused. */
  lemma {:induction false} DerivedDefenseIsValid(line: DefenseLine, pointsCdf: Point -> real, yardsCdf: Point -> real)
    requires line.pointsAllowed >= 0.0 && line.yardsAllowed >= 0.0
    requires line.pointsDistribution.Some? ==> |line.pointsDistribution.value| == |Defense.POINTS|
    requires line.yardsDistribution.Some? ==> |line.yardsDistribution.value| == |Defense.YARDS|
    ensures Defense.Valid(DeriveDefenseForecast(line, pointsCdf, yardsCdf)) <==>
      && Defense.CountsValid(line.counts, Defense.CEILINGS)
      && (line.specialTeams.Some? ==> Defense.CountsValid(line.specialTeams.value, Defense.SPECIAL_CEILINGS))
      && (line.pointsDistribution.Some? ==> Defense.IsDistribution(line.pointsDistribution.value, |Defense.POINTS|))
      && (line.yardsDistribution.Some? ==> Defense.IsDistribution(line.yardsDistribution.value, |Defense.YARDS|))
  {
    DerivedAllowed(line.pointsDistribution, line.pointsAllowed, pointsCdf, Defense.POINTS);
    DerivedAllowed(line.yardsDistribution, line.yardsAllowed, yardsCdf, Defense.YARDS);
  }
}
