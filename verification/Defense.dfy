/** Team-defense forecasts: their validator, their canonical statistics, and how the score is attributed
    to groups. */
module Defense {
  import opened LeagueRules
  import opened Scoring
  import opened Sums

  /** A probability for each tier, and a mean when the provider supplies one. */
  datatype Allowed = Allowed(buckets: seq<real>, expected: Option<real>)

  datatype QuarterbackStatus = ConfirmedStarter | Questionable | Backup | RookieStarter | Unknown

  datatype Pressure = Pressure(sackRateAllowed: real, pressureRateAllowed: real)
  datatype Turnovers = Turnovers(interceptionRate: real, fumbleRate: real)
  datatype OffensiveLine = OffensiveLine(startersOut: real, continuity: Option<real>)

  /** Names and sources are as they read once trimmed. */
  datatype Quarterback = Quarterback(status: QuarterbackStatus, name: Option<string>)
  datatype Game = Game(source: string, licensed: bool, impliedOpponentPoints: real, spread: real)
  datatype Returns = Returns(opportunities: real, yardsAllowed: real, muffRate: Option<real>)

  datatype Context = Context(includedInForecast: bool, pressure: Option<Pressure>, turnovers: Option<Turnovers>,
                             line: Option<OffensiveLine>, quarterback: Option<Quarterback>, game: Option<Game>,
                             returned: Option<Returns>)

  /** counts are sacks, interceptions, forced fumbles, recoveries, safeties, blocked kicks and defensive
      touchdowns; specialTeams are touchdowns, forced fumbles and recoveries. unknownFields are the fields
      supplied anywhere in it beyond these. */
  datatype Forecast = Forecast(counts: seq<real>, pointsAllowed: Allowed, yardsAllowed: Allowed,
                               specialTeams: Option<seq<real>>, context: Option<Context>, unknownFields: set<string>)

  const CEILINGS := [15.0, 8.0, 8.0, 8.0, 3.0, 4.0, 5.0]
  const SPECIAL_CEILINGS := [5.0, 5.0, 5.0]

  /** The inclusive bounds of a tier; the last tier of a list has no upper bound. */
  datatype Bounds = Bounds(low: int, high: int)

  const POINTS: seq<Bounds> :=
    [Bounds(0, 0), Bounds(1, 6), Bounds(7, 13), Bounds(14, 20), Bounds(21, 27), Bounds(28, 34), Bounds(35, 35)]

  const YARDS: seq<Bounds> :=
    [Bounds(0, 99), Bounds(100, 199), Bounds(200, 299), Bounds(300, 349), Bounds(350, 399),
     Bounds(400, 449), Bounds(450, 499), Bounds(500, 549), Bounds(550, 550)]

  /** The least mean the probabilities allow. */
  function LeastMean(buckets: seq<real>, tiers: seq<Bounds>): real
    requires |buckets| == |tiers|
    decreases |buckets|
  {
    if buckets == [] then 0.0 else buckets[0] * tiers[0].low as real + LeastMean(buckets[1..], tiers[1..])
  }

  function LeastPoints(b: seq<real>): real
    requires |b| == 7
  {
    b[1] + 7.0 * b[2] + 14.0 * b[3] + 21.0 * b[4] + 28.0 * b[5] + 35.0 * b[6]
  }

  function LeastYards(b: seq<real>): real
    requires |b| == 9
  {
    100.0 * b[1] + 200.0 * b[2] + 300.0 * b[3] + 350.0 * b[4] + 400.0 * b[5] + 450.0 * b[6] + 500.0 * b[7] +
      550.0 * b[8]
  }

  /** What the lower bounds of Sleeper's points tiers average to, and those of its yards tiers. */
  lemma {:induction false} PointsLeast(b: seq<real>)
    requires |b| == 7
    ensures LeastMean(b, POINTS) == LeastPoints(b)
  {
    LeastFrom(b, POINTS, 6);
    LeastFrom(b, POINTS, 4);
    LeastFrom(b, POINTS, 2);
    LeastFrom(b, POINTS, 0);
    assert b[0..] == b && POINTS[0..] == POINTS;
  }

  lemma {:induction false} YardsLeast(b: seq<real>)
    requires |b| == 9
    ensures LeastMean(b, YARDS) == LeastYards(b)
  {
    YardsLeastAbove(b);
    LeastFrom(b, YARDS, 2);
    LeastFrom(b, YARDS, 0);
    assert b[0..] == b && YARDS[0..] == YARDS;
  }

  lemma {:induction false} YardsLeastAbove(b: seq<real>)
    requires |b| == 9
    ensures LeastMean(b[4..], YARDS[4..]) ==
      350.0 * b[4] + (400.0 * b[5] + (450.0 * b[6] + (500.0 * b[7] + 550.0 * b[8])))
  {
    LeastFrom(b, YARDS, 8);
    LeastFrom(b, YARDS, 6);
    LeastFrom(b, YARDS, 4);
  }

  lemma {:induction false} LeastFrom(buckets: seq<real>, tiers: seq<Bounds>, i: nat)
    requires |buckets| == |tiers| && i < |tiers|
    ensures LeastMean(buckets[i..], tiers[i..]) == buckets[i] * tiers[i].low as real +
      (if i + 1 < |tiers| then buckets[i + 1] * tiers[i + 1].low as real + LeastMean(buckets[i + 2..], tiers[i + 2..])
       else 0.0)
  {
    var b, u := buckets[i..], tiers[i..];
    if i + 1 < |tiers| {
      assert b[1..][1..] == buckets[i + 2..] && u[1..][1..] == tiers[i + 2..];
    }
  }

  predicate IsDistribution(buckets: seq<real>, n: nat) {
    |buckets| == n && (forall i | 0 <= i < n :: 0.0 <= buckets[i] <= 1.0) && Close(Sum(buckets), 1.0)
  }

  /** The validator's upper check on a mean never refuses one: with a possible top tier the bound is
      infinite, and otherwise it is not a number. */
  predicate AllowedValid(a: Allowed, tiers: seq<Bounds>) {
    && IsDistribution(a.buckets, |tiers|)
    && (a.expected.Some? ==> a.expected.value >= 0.0 && a.expected.value >= LeastMean(a.buckets, tiers) - TOLERANCE)
  }

  predicate CountsValid(counts: seq<real>, ceilings: seq<real>) {
    |counts| == |ceilings| && forall i | 0 <= i < |counts| :: 0.0 <= counts[i] <= ceilings[i]
  }

  predicate Within(x: real, low: real, high: real) {
    low <= x <= high
  }

  predicate FractionIfAny(x: Option<real>) {
    x.Some? ==> Within(x.value, 0.0, 1.0)
  }

  predicate ContextValid(c: Context) {
    && (c.pressure.Some? ==>
      Within(c.pressure.value.sackRateAllowed, 0.0, 1.0) && Within(c.pressure.value.pressureRateAllowed, 0.0, 1.0))
    && (c.turnovers.Some? ==>
      Within(c.turnovers.value.interceptionRate, 0.0, 1.0) && Within(c.turnovers.value.fumbleRate, 0.0, 1.0))
    && (c.line.Some? ==> Within(c.line.value.startersOut, 0.0, 5.0) && FractionIfAny(c.line.value.continuity))
    && (c.quarterback.Some? ==> c.quarterback.value.name != Some(""))
    && (c.game.Some? ==> GameValid(c.game.value))
    && (c.returned.Some? ==> ReturnsValid(c.returned.value))
  }

  predicate GameValid(g: Game) {
    g.licensed && g.source != "" && Within(g.impliedOpponentPoints, 0.0, 100.0) && Within(g.spread, -100.0, 100.0)
  }

  predicate ReturnsValid(r: Returns) {
    Within(r.opportunities, 0.0, 20.0) && Within(r.yardsAllowed, 0.0, 100.0) && FractionIfAny(r.muffRate)
  }

  predicate Valid(f: Forecast) {
    && f.unknownFields == {} && (f.context.Some? ==> ContextValid(f.context.value))
    && CountsValid(f.counts, CEILINGS)
    && AllowedValid(f.pointsAllowed, POINTS) && AllowedValid(f.yardsAllowed, YARDS)
    && (f.specialTeams.Some? ==> CountsValid(f.specialTeams.value, SPECIAL_CEILINGS))
  }

  // ----- canonical statistics -----

  /** Scoring keys; the numbered ones are in the order of the forecast. */
  datatype Stat =
    | Count(n: nat) | PointsTier(n: nat) | YardsTier(n: nat) | SpecialTeams(n: nat)
    | PointsMean | YardsMean
    | Other(name: string)

  datatype Family = Counts | PointsTiers | YardsTiers | SpecialTeamsCounts

  function Key(family: Family, i: nat): Stat {
    match family
    case Counts => Count(i)
    case PointsTiers => PointsTier(i)
    case YardsTiers => YardsTier(i)
    case SpecialTeamsCounts => SpecialTeams(i)
  }

  function Numbered(family: Family, amounts: seq<real>, from: nat): Line<Stat>
    decreases |amounts|
  {
    if amounts == [] then [] else [Entry(Key(family, from), amounts[0])] + Numbered(family, amounts[1..], from + 1)
  }

  function Mean(stat: Stat, expected: Option<real>): Line<Stat> {
    if expected.Some? then [Entry(stat, expected.value)] else []
  }

  function DefenseStats(f: Forecast): Line<Stat> {
    Numbered(Counts, f.counts, 0)
    + (Numbered(PointsTiers, f.pointsAllowed.buckets, 0)
    + (Numbered(YardsTiers, f.yardsAllowed.buckets, 0)
    + (Numbered(SpecialTeamsCounts, if f.specialTeams.Some? then f.specialTeams.value else [], 0)
    + (Mean(PointsMean, f.pointsAllowed.expected) + Mean(YardsMean, f.yardsAllowed.expected)))))
  }

  /** Whether the forecast says anything of a key, and whether it says this. */
  predicate Covers(f: Forecast, stat: Stat) {
    match stat
    case Count(n) => n < |f.counts|
    case PointsTier(n) => n < |f.pointsAllowed.buckets|
    case YardsTier(n) => n < |f.yardsAllowed.buckets|
    case SpecialTeams(n) => f.specialTeams.Some? && n < |f.specialTeams.value|
    case PointsMean => f.pointsAllowed.expected.Some?
    case YardsMean => f.yardsAllowed.expected.Some?
    case Other(_) => false
  }

  predicate States(f: Forecast, e: Entry<Stat>) {
    && Covers(f, e.stat)
    && match e.stat
       case Count(n) => e.amount == f.counts[n]
       case PointsTier(n) => e.amount == f.pointsAllowed.buckets[n]
       case YardsTier(n) => e.amount == f.yardsAllowed.buckets[n]
       case SpecialTeams(n) => e.amount == f.specialTeams.value[n]
       case PointsMean => e.amount == f.pointsAllowed.expected.value
       case YardsMean => e.amount == f.yardsAllowed.expected.value
       case Other(_) => true
  }

  function Number(stat: Stat): nat {
    match stat
    case Count(n) => n
    case PointsTier(n) => n
    case YardsTier(n) => n
    case SpecialTeams(n) => n
    case _ => 0
  }

  lemma {:induction false} NumberedHas(family: Family, amounts: seq<real>, from: nat, e: Entry<Stat>)
    ensures e in Numbered(family, amounts, from) <==>
      && e.stat == Key(family, Number(e.stat)) && from <= Number(e.stat) < from + |amounts|
      && e.amount == amounts[Number(e.stat) - from]
    decreases |amounts|
  {
    if amounts != [] {
      var rest := Numbered(family, amounts[1..], from + 1);
      NumberedHas(family, amounts[1..], from + 1, e);
      assert e in Numbered(family, amounts, from) <==> e == Entry(Key(family, from), amounts[0]) || e in rest;
    }
  }

  lemma {:induction false} JoinedHas(a: Line<Stat>, b: Line<Stat>, c: Line<Stat>, d: Line<Stat>, m: Line<Stat>,
          n: Line<Stat>, e: Entry<Stat>)
    ensures e in a + (b + (c + (d + (m + n)))) <==> e in a || e in b || e in c || e in d || e in m || e in n
  {
  }

  lemma {:induction false} MeanHas(stat: Stat, expected: Option<real>, e: Entry<Stat>)
    ensures e in Mean(stat, expected) <==> e.stat == stat && expected == Some(e.amount)
  {
  }

  lemma {:induction false} FamilySays(f: Forecast, family: Family, amounts: seq<real>, e: Entry<Stat>)
    requires amounts == match family
                        case Counts => f.counts
                        case PointsTiers => f.pointsAllowed.buckets
                        case YardsTiers => f.yardsAllowed.buckets
                        case SpecialTeamsCounts => if f.specialTeams.Some? then f.specialTeams.value else []
    ensures e in Numbered(family, amounts, 0) <==> e.stat == Key(family, Number(e.stat)) && States(f, e)
  {
    NumberedHas(family, amounts, 0, e);
  }

  /** The canonical statistics say of every key what the forecast says, and nothing else. */
  lemma {:induction false} DefenseStatsSay(f: Forecast, e: Entry<Stat>)
    ensures e in DefenseStats(f) <==> States(f, e)
  {
    var events := if f.specialTeams.Some? then f.specialTeams.value else [];
    JoinedHas(Numbered(Counts, f.counts, 0), Numbered(PointsTiers, f.pointsAllowed.buckets, 0),
      Numbered(YardsTiers, f.yardsAllowed.buckets, 0), Numbered(SpecialTeamsCounts, events, 0),
      Mean(PointsMean, f.pointsAllowed.expected), Mean(YardsMean, f.yardsAllowed.expected), e);
    MeanHas(PointsMean, f.pointsAllowed.expected, e);
    MeanHas(YardsMean, f.yardsAllowed.expected, e);
    FamilySays(f, Counts, f.counts, e);
    FamilySays(f, PointsTiers, f.pointsAllowed.buckets, e);
    FamilySays(f, YardsTiers, f.yardsAllowed.buckets, e);
    FamilySays(f, SpecialTeamsCounts, events, e);
  }

  function FamilyOf(stat: Stat): nat {
    match stat
    case Count(_) => 0
    case PointsTier(_) => 1
    case YardsTier(_) => 2
    case SpecialTeams(_) => 3
    case PointsMean => 4
    case YardsMean => 5
    case Other(_) => 6
  }

  /** All statistics of a line are of one family, or of families between two. */
  ghost predicate Between(line: Line<Stat>, low: nat, high: nat) {
    forall e | e in line :: low <= FamilyOf(e.stat) <= high
  }

  lemma {:induction false} NumberedUnique(family: Family, amounts: seq<real>, from: nat)
    ensures Unique(Numbered(family, amounts, from))
    ensures forall e | e in Numbered(family, amounts, from) :: exists i: nat :: i >= from && e.stat == Key(family, i)
    ensures Between(Numbered(family, amounts, from), FamilyOf(Key(family, 0)), FamilyOf(Key(family, 0)))
    decreases |amounts|
  {
    if amounts != [] {
      NumberedUnique(family, amounts[1..], from + 1);
      UniqueCons(Entry(Key(family, from), amounts[0]), Numbered(family, amounts[1..], from + 1));
      assert Key(family, from) == Key(family, from);
    }
  }

  /** A family's statistics, each at most once. */
  ghost predicate OneFamily(line: Line<Stat>, family: nat) {
    Unique(line) && Between(line, family, family)
  }

  lemma {:induction false} NumberedIsOneFamily(family: Family, amounts: seq<real>)
    ensures OneFamily(Numbered(family, amounts, 0), FamilyOf(Key(family, 0)))
  {
    NumberedUnique(family, amounts, 0);
  }

  lemma {:induction false} Stacked(a: Line<Stat>, b: Line<Stat>, family: nat)
    requires OneFamily(a, family) && Unique(b) && Between(b, family + 1, 5) && family <= 5
    ensures Unique(a + b) && Between(a + b, family, 5)
  {
    UniqueAppend(a, b);
  }

  lemma {:induction false} StackedAll(counts: Line<Stat>, points: Line<Stat>, yards: Line<Stat>, special: Line<Stat>,
          means: Line<Stat>)
    requires OneFamily(counts, 0) && OneFamily(points, 1) && OneFamily(yards, 2) && OneFamily(special, 3)
    requires Unique(means) && Between(means, 4, 5)
    ensures Unique(counts + (points + (yards + (special + means)))) &&
      Between(counts + (points + (yards + (special + means))), 0, 5)
  {
    Stacked(special, means, 3);
    Stacked(yards, special + means, 2);
    Stacked(points, yards + (special + means), 1);
    Stacked(counts, points + (yards + (special + means)), 0);
  }

  lemma {:induction false} MeansUnique(points: Option<real>, yards: Option<real>)
    ensures Unique(Mean(PointsMean, points) + Mean(YardsMean, yards)) &&
      Between(Mean(PointsMean, points) + Mean(YardsMean, yards), 4, 5)
  {
  }

  lemma {:induction false} DefenseStatsUnique(f: Forecast)
    ensures Unique(DefenseStats(f)) && Between(DefenseStats(f), 0, 5)
  {
    var events := if f.specialTeams.Some? then f.specialTeams.value else [];
    NumberedIsOneFamily(Counts, f.counts);
    NumberedIsOneFamily(PointsTiers, f.pointsAllowed.buckets);
    NumberedIsOneFamily(YardsTiers, f.yardsAllowed.buckets);
    NumberedIsOneFamily(SpecialTeamsCounts, events);
    MeansUnique(f.pointsAllowed.expected, f.yardsAllowed.expected);
    StackedAll(Numbered(Counts, f.counts, 0), Numbered(PointsTiers, f.pointsAllowed.buckets, 0),
      Numbered(YardsTiers, f.yardsAllowed.buckets, 0), Numbered(SpecialTeamsCounts, events, 0),
      Mean(PointsMean, f.pointsAllowed.expected) + Mean(YardsMean, f.yardsAllowed.expected));
  }

  lemma {:induction false} NumberedNonnegative(family: Family, amounts: seq<real>, from: nat)
    requires forall i | 0 <= i < |amounts| :: amounts[i] >= 0.0
    ensures forall e | e in Numbered(family, amounts, from) :: e.amount >= 0.0
    decreases |amounts|
  {
    if amounts != [] { NumberedNonnegative(family, amounts[1..], from + 1); }
  }

  lemma {:induction false} DefenseStatsNonnegative(f: Forecast)
    requires Valid(f)
    ensures forall e | e in DefenseStats(f) :: e.amount >= 0.0
  {
    NumberedNonnegative(Counts, f.counts, 0);
    NumberedNonnegative(PointsTiers, f.pointsAllowed.buckets, 0);
    NumberedNonnegative(YardsTiers, f.yardsAllowed.buckets, 0);
    NumberedNonnegative(SpecialTeamsCounts, if f.specialTeams.Some? then f.specialTeams.value else [], 0);
  }

  // ----- normalization -----

  /** A key the team-defense prefixes match. INDIVIDUAL are the keys a rostered returner scores. */
  predicate IsDefense(stat: Stat) {
    !stat.Other? || exists i | 0 <= i < |PREFIXES| :: StartsWith(stat.name, PREFIXES[i])
  }

  const PREFIXES := ["sack", "int", "ff", "fum_rec", "safe", "blk_kick", "def_td", "def_st_", "pts_allow", "yds_allow"]
  const INDIVIDUAL := ["st_td", "st_ff", "st_fum_rec", "st_tkl_solo"]

  predicate IsIndividual(stat: Stat) {
    stat.Other? && stat.name in INDIVIDUAL
  }

  /** What a rostered returner scores on a line of his own. */
  ghost predicate IsReturners(stat: Stat) {
    stat == Stat.Other("st_td") || stat == Stat.Other("st_ff") || stat == Stat.Other("st_fum_rec")
    || stat == Stat.Other("st_tkl_solo")
  }

  ghost predicate Accepts(line: Line<Stat>, f: Forecast, rates: Rates<Stat>) {
    && Valid(f)
    && (forall e | e in line :: !IsReturners(e.stat))
    && (forall e | e in line && IsDefense(e.stat) :: e.amount >= 0.0)
    && (forall e | States(f, e) && Has(line, e.stat) :: Close(Amount(line, e.stat), e.amount))
    && (Priced(rates, PointsMean) ==> f.pointsAllowed.expected.Some?)
    && (Priced(rates, YardsMean) ==> f.yardsAllowed.expected.Some?)
    && (Priced(rates, SpecialTeams(0)) || Priced(rates, SpecialTeams(1)) || Priced(rates, SpecialTeams(2)) ==>
      f.specialTeams.Some?)
  }

  predicate Priced(rates: Rates<Stat>, stat: Stat) {
    stat in rates && rates[stat] != 0.0
  }

  lemma {:induction false} NothingMissing(f: Forecast, rates: Rates<Stat>)
    ensures Supplied(f, rates) <==>
      && (Priced(rates, PointsMean) ==> f.pointsAllowed.expected.Some?)
      && (Priced(rates, YardsMean) ==> f.yardsAllowed.expected.Some?)
      && (Priced(rates, SpecialTeams(0)) || Priced(rates, SpecialTeams(1)) || Priced(rates, SpecialTeams(2)) ==>
        f.specialTeams.Some?)
  {
    forall n: nat | n < |SPECIAL_CEILINGS|
      ensures SpecialTeams(n) in [SpecialTeams(0), SpecialTeams(1), SpecialTeams(2)]
    {
      assert n == 0 || n == 1 || n == 2;
    }
  }

  lemma {:induction false} MisplacedSays(e: Entry<Stat>)
    ensures !Misplaced(e) <==>
      && !IsReturners(e.stat)
      && (IsDefense(e.stat) ==> e.amount >= 0.0)
  {
  }

  lemma {:induction false} AgreesWithForecast(line: Line<Stat>, f: Forecast)
    ensures Agrees(line, DefenseStats(f)) <==>
      forall e | States(f, e) && Has(line, e.stat) :: Close(Amount(line, e.stat), e.amount)
  {
    forall e ensures e in DefenseStats(f) <==> States(f, e) { DefenseStatsSay(f, e); }
  }

  /** What a normalized line says: of each key the forecast covers, what the forecast says, if the league has
      a rule for it; of any other key, what was supplied. */
  lemma {:induction false} NormalizedSays(line: Line<Stat>, f: Forecast, rates: Rates<Stat>, e: Entry<Stat>)
    ensures e in Replaced(line, DefenseStats(f), rates) <==>
      if Covers(f, e.stat) then States(f, e) && e.stat in rates else e in line
  {
    var c := DefenseStats(f);
    DefenseStatsUnique(f);
    ReplacedHas(line, c, rates, e);
    DefenseStatsSay(f, e);
    StatsHas(c, e.stat);
    if Covers(f, e.stat) {
      var said := Stated(f, e.stat);
      DefenseStatsSay(f, said);
      assert said in c && said.stat == e.stat;
    } else if x :| x in c && x.stat == e.stat {
      DefenseStatsSay(f, x);
    }
  }

  /** What the forecast says of a key. */
  function Stated(f: Forecast, stat: Stat): (e: Entry<Stat>)
    requires Covers(f, stat)
    ensures e.stat == stat && States(f, e)
  {
    match stat
    case Count(n) => Entry(stat, f.counts[n])
    case PointsTier(n) => Entry(stat, f.pointsAllowed.buckets[n])
    case YardsTier(n) => Entry(stat, f.yardsAllowed.buckets[n])
    case SpecialTeams(n) => Entry(stat, f.specialTeams.value[n])
    case PointsMean => Entry(stat, f.pointsAllowed.expected.value)
    case YardsMean => Entry(stat, f.yardsAllowed.expected.value)
  }

  /** What the league prices beyond the counts and tiers, the forecast has to state. */
  predicate Supplied(f: Forecast, rates: Rates<Stat>) {
    && (Rate(rates, PointsMean) != 0.0 ==> f.pointsAllowed.expected.Some?)
    && (Rate(rates, YardsMean) != 0.0 ==> f.yardsAllowed.expected.Some?)
    && (f.specialTeams.None? ==> forall n: nat | n < |SPECIAL_CEILINGS| :: Rate(rates, SpecialTeams(n)) == 0.0)
  }

  datatype Fault =
    | InvalidForecast | NegativeCount(stat: Stat) | IndividualKey(stat: Stat) | Conflict(stat: Stat) | Missing
  datatype Result = Normalized(line: Line<Stat>) | Refused(fault: Fault)

  predicate Misplaced(e: Entry<Stat>) {
    (IsDefense(e.stat) && e.amount < 0.0) || IsIndividual(e.stat)
  }

  method FindMisplaced(line: Line<Stat>) returns (found: Option<Fault>)
    ensures found.None? <==> forall e | e in line :: !Misplaced(e)
  {
    for i := 0 to |line|
      invariant forall j | 0 <= j < i :: !Misplaced(line[j])
    {
      if Misplaced(line[i]) {
        assert line[i] in line;
        return Some(if IsIndividual(line[i].stat) then IndividualKey(line[i].stat) else NegativeCount(line[i].stat));
      }
    }
    found := None;
  }

  method NormalizeDefenseStats(line: Line<Stat>, f: Forecast, rates: Rates<Stat>) returns (result: Result)
    ensures result.Normalized? <==> Accepts(line, f, rates)
    ensures result.Normalized? ==> result.line == Replaced(line, DefenseStats(f), rates)
    ensures result.Normalized? ==> forall e :: e in result.line <==>
      (if Covers(f, e.stat) then States(f, e) && e.stat in rates else e in line)
    ensures result.Normalized? && Unique(line) ==> Unique(result.line)
  {
    DefenseStatsUnique(f);
    AgreesWithForecast(line, f);
    NothingMissing(f, rates);
    forall e | e in line ensures !Misplaced(e) <==>
      (!IsReturners(e.stat)
      && (IsDefense(e.stat) ==> e.amount >= 0.0))
    {
      MisplacedSays(e);
    }
    if !Valid(f) {
      return Refused(InvalidForecast);
    }
    var misplaced := FindMisplaced(line);
    if misplaced.Some? {
      return Refused(misplaced.value);
    }
    var conflict := FindConflict(line, DefenseStats(f));
    if conflict.Some? {
      return Refused(Conflict(conflict.value));
    }
    var normalized := Normalize(line, DefenseStats(f), rates);
    if !Supplied(f, rates) {
      return Refused(Missing);
    }
    result := Normalized(normalized);
    if Unique(line) {
      ReplacedKeepsUnique(line, DefenseStats(f), rates);
    }
    forall e ensures e in normalized <==> if Covers(f, e.stat) then States(f, e) && e.stat in rates else e in line {
      NormalizedSays(line, f, rates, e);
    }
  }

  lemma {:induction false} NothingMisplaced(line: Line<Stat>, c: Line<Stat>, rates: Rates<Stat>, e: Entry<Stat>)
    requires Unique(c) && Between(c, 0, 5) && (forall x | x in c :: x.amount >= 0.0)
    requires (forall x | x in line :: !Misplaced(x)) && e in Replaced(line, c, rates)
    ensures !Misplaced(e)
  {
    ReplacedFrom(line, c, rates, e);
  }

  lemma {:induction false} NothingConflicts(line: Line<Stat>, c: Line<Stat>, rates: Rates<Stat>)
    requires Unique(line) && Unique(c)
    ensures Agrees(Replaced(line, c, rates), c)
  {
    forall e | e in c && Has(Replaced(line, c, rates), e.stat)
      ensures Amount(Replaced(line, c, rates), e.stat) == e.amount
    {
      ReplacedAgrees(line, c, rates, e);
    }
  }

  /** A normalized line is accepted again and left as it is. */
  lemma {:induction false} NormalizingTwice(line: Line<Stat>, f: Forecast, rates: Rates<Stat>)
    requires Unique(line) && Accepts(line, f, rates)
    ensures var once := Replaced(line, DefenseStats(f), rates);
      Accepts(once, f, rates) && Replaced(once, DefenseStats(f), rates) == once
  {
    var c := DefenseStats(f);
    DefenseStatsUnique(f);
    DefenseStatsNonnegative(f);
    ReplacedTwice(line, c, rates);
    NothingConflicts(line, c, rates);
    AgreesWithForecast(Replaced(line, c, rates), f);
    forall e | e in line ensures !Misplaced(e) { MisplacedSays(e); }
    forall e | e in Replaced(line, c, rates) ensures !Misplaced(e) { NothingMisplaced(line, c, rates, e); }
    forall e | e in Replaced(line, c, rates)
      ensures !IsReturners(e.stat)
      ensures IsDefense(e.stat) ==> e.amount >= 0.0
    {
      MisplacedSays(e);
    }
  }

  // ----- attribution -----

  predicate StartsWith(s: string, prefix: string) {
    |prefix| <= |s| && s[..|prefix|] == prefix
  }

  function IsPressure(): Stat -> bool {
    (stat: Stat) => stat == Count(0)
  }

  function IsTurnover(): Stat -> bool {
    (stat: Stat) => stat == Count(1) || stat == Count(2) || stat == Count(3)
  }

  function IsTouchdown(): Stat -> bool {
    (stat: Stat) => stat == Count(6)
  }

  function IsSituational(): Stat -> bool {
    (stat: Stat) => stat == Count(4) || stat == Count(5)
  }

  function IsSpecialTeams(): Stat -> bool {
    (stat: Stat) => stat.SpecialTeams? || (stat.Other? && StartsWith(stat.name, "def_st_"))
  }

  function IsThreshold(): Stat -> bool {
    (stat: Stat) => stat.PointsTier? || stat.YardsTier? || stat.PointsMean? || stat.YardsMean?
      || (stat.Other? && (StartsWith(stat.name, "pts_allow") || StartsWith(stat.name, "yds_allow")))
  }

  function IsOther(): Stat -> bool {
    (stat: Stat) => !IsPressure()(stat) && !IsTurnover()(stat) && !IsTouchdown()(stat)
      && !IsSituational()(stat) && !IsSpecialTeams()(stat) && !IsThreshold()(stat)
  }

  /** How many of the groups claim a statistic. */
  function Claims(stat: Stat): nat {
    (if IsPressure()(stat) then 1 else 0) + (if IsTurnover()(stat) then 1 else 0) +
      (if IsTouchdown()(stat) then 1 else 0)
    + (if IsSituational()(stat) then 1 else 0) + (if IsSpecialTeams()(stat) then 1 else 0)
    + (if IsThreshold()(stat) then 1 else 0) + (if IsOther()(stat) then 1 else 0)
  }

  lemma {:induction false} ClaimedOnce(stat: Stat)
    ensures Claims(stat) == 1
  {
    if stat.Other? {
      var name := stat.name;
      if StartsWith(name, "def_st_") { assert name[..7][0] == name[0] == 'd'; }
      if StartsWith(name, "pts_allow") { assert name[..9][0] == name[0] == 'p'; }
      if StartsWith(name, "yds_allow") { assert name[..9][0] == name[0] == 'y'; }
    }
  }

  function GroupTotal(line: Line<Stat>, rates: Rates<Stat>): real {
    PointsOf(line, rates, IsPressure()) + PointsOf(line, rates, IsTurnover()) + PointsOf(line, rates, IsTouchdown())
    + PointsOf(line, rates, IsSituational()) + PointsOf(line, rates, IsSpecialTeams()) +
      PointsOf(line, rates, IsThreshold())
    + PointsOf(line, rates, IsOther())
  }

  /** The six groups and the rest sum to the unrounded total, for every stat line and every league. */
  lemma {:induction false} GroupsAddUp(line: Line<Stat>, rates: Rates<Stat>)
    ensures GroupTotal(line, rates) == Total(line, rates)
    decreases |line|
  {
    if line != [] {
      GroupsAddUp(line[1..], rates);
      ClaimedOnce(line[0].stat);
      OneClaimCounts(line[0], rates);
    }
  }

  lemma {:induction false} OneClaimCounts(e: Entry<Stat>, rates: Rates<Stat>)
    requires Claims(e.stat) == 1
    ensures Worth(rates, e.stat, e.amount, IsPressure()(e.stat)) + Worth(rates, e.stat, e.amount, IsTurnover()(e.stat))
      + Worth(rates, e.stat, e.amount, IsTouchdown()(e.stat)) + Worth(rates, e.stat, e.amount, IsSituational()(e.stat))
      + Worth(rates, e.stat, e.amount, IsSpecialTeams()(e.stat)) + Worth(rates, e.stat, e.amount, IsThreshold()(e.stat))
      + Worth(rates, e.stat, e.amount, IsOther()(e.stat)) == Worth(rates, e.stat, e.amount, true)
  {
  }

  // ----- what the groups are worth -----

  /** The canonical statistics of a forecast: each key once, with what the forecast says. */
  ghost predicate CanonicalFor(c: Line<Stat>, f: Forecast) {
    Unique(c) && forall e :: e in c <==> States(f, e)
  }

  lemma {:induction false} DefenseStatsAreCanonical(f: Forecast)
    ensures CanonicalFor(DefenseStats(f), f)
  {
    DefenseStatsUnique(f);
    forall e ensures e in DefenseStats(f) <==> States(f, e) { DefenseStatsSay(f, e); }
  }

  /** The worth of one statistic of the forecast, and of a list of them. */
  function WorthAt(f: Forecast, rates: Rates<Stat>, stat: Stat): real
    requires Covers(f, stat)
  {
    Stated(f, stat).amount * Rate(rates, stat)
  }

  ghost predicate AllCovered(f: Forecast, stats: seq<Stat>) {
    forall i | 0 <= i < |stats| :: Covers(f, stats[i])
  }

  ghost function StatedWorth(f: Forecast, rates: Rates<Stat>, stats: seq<Stat>): real
    requires AllCovered(f, stats)
    decreases |stats|
  {
    if stats == [] then 0.0 else WorthAt(f, rates, stats[0]) + StatedWorth(f, rates, stats[1..])
  }

  lemma {:induction false} StatedAmounts(line: Line<Stat>, c: Line<Stat>, f: Forecast, rates: Rates<Stat>,
          stats: seq<Stat>)
    requires Unique(line) && CanonicalFor(c, f) && AllCovered(f, stats)
    ensures AmountsOf(Replaced(line, c, rates), rates, stats) == StatedWorth(f, rates, stats)
    decreases |stats|
  {
    if stats != [] {
      var e := Stated(f, stats[0]);
      assert e in c <==> States(f, e);
      ReplacedWorth(line, c, rates, e);
      StatedAmounts(line, c, f, rates, stats[1..]);
    }
  }

  /** Every selected statistic of the line and the forecast is among these. */
  ghost predicate Selects(selected: Stat -> bool, line: Line<Stat>, f: Forecast, stats: seq<Stat>) {
    && AllCovered(f, stats) && (forall i | 0 <= i < |stats| :: selected(stats[i]))
    && (forall i, j | 0 <= i < j < |stats| :: stats[i] != stats[j])
    && (forall e | e in line && selected(e.stat) :: e.stat in stats)
    && (forall e | States(f, e) && selected(e.stat) :: e.stat in stats)
  }

  lemma {:induction false} GroupIsWorth(line: Line<Stat>, c: Line<Stat>, f: Forecast, rates: Rates<Stat>,
          selected: Stat -> bool, stats: seq<Stat>)
    requires Unique(line) && CanonicalFor(c, f) && Selects(selected, line, f, stats)
    ensures PointsOf(Replaced(line, c, rates), rates, selected) == StatedWorth(f, rates, stats)
  {
    ReplacedKeepsUnique(line, c, rates);
    forall e | e in Replaced(line, c, rates) && selected(e.stat) ensures e.stat in stats {
      ReplacedFrom(line, c, rates, e);
      assert e in c <==> States(f, e);
    }
    PointsByStat(Replaced(line, c, rates), rates, selected, stats);
    StatedAmounts(line, c, f, rates, stats);
  }

  lemma {:induction false} EventGroup(line: Line<Stat>, c: Line<Stat>, f: Forecast, rates: Rates<Stat>,
          selected: Stat -> bool, numbers: seq<nat>, stats: seq<Stat>)
    requires Unique(line) && CanonicalFor(c, f) && stats == Counted(numbers)
    requires forall i | 0 <= i < |numbers| :: numbers[i] < |f.counts|
    requires forall i, j | 0 <= i < j < |numbers| :: numbers[i] < numbers[j]
    requires forall s: Stat :: selected(s) <==> s.Count? && s.n in numbers
    ensures AllCovered(f, stats)
    ensures PointsOf(Replaced(line, c, rates), rates, selected) == StatedWorth(f, rates, stats)
  {
    CountedSelected(selected, line, f, numbers);
    GroupIsWorth(line, c, f, rates, selected, stats);
  }

  /** On a normalized line the pressure group is worth the forecast's sacks. */
  lemma {:induction false} PressureGroup(line: Line<Stat>, c: Line<Stat>, f: Forecast, rates: Rates<Stat>)
    requires Unique(line) && CanonicalFor(c, f) && |f.counts| == 7
    ensures PointsOf(Replaced(line, c, rates), rates, IsPressure()) == StatedWorth(f, rates, [Count(0)])
  {
    EventGroup(line, c, f, rates, IsPressure(), [0], [Count(0)]);
  }

  /** The turnovers are worth its interceptions, forced fumbles and recoveries. */
  lemma {:induction false} TurnoverGroup(line: Line<Stat>, c: Line<Stat>, f: Forecast, rates: Rates<Stat>)
    requires Unique(line) && CanonicalFor(c, f) && |f.counts| == 7
    ensures PointsOf(Replaced(line, c, rates), rates, IsTurnover()) ==
      StatedWorth(f, rates, [Count(1), Count(2), Count(3)])
  {
    EventGroup(line, c, f, rates, IsTurnover(), [1, 2, 3], [Count(1), Count(2), Count(3)]);
  }

  /** The touchdowns are worth its defensive touchdowns. */
  lemma {:induction false} TouchdownGroup(line: Line<Stat>, c: Line<Stat>, f: Forecast, rates: Rates<Stat>)
    requires Unique(line) && CanonicalFor(c, f) && |f.counts| == 7
    ensures PointsOf(Replaced(line, c, rates), rates, IsTouchdown()) == StatedWorth(f, rates, [Count(6)])
  {
    EventGroup(line, c, f, rates, IsTouchdown(), [6], [Count(6)]);
  }

  /** The situational group is worth its safeties and blocked kicks. */
  lemma {:induction false} SituationalGroup(line: Line<Stat>, c: Line<Stat>, f: Forecast, rates: Rates<Stat>)
    requires Unique(line) && CanonicalFor(c, f) && |f.counts| == 7
    ensures PointsOf(Replaced(line, c, rates), rates, IsSituational()) == StatedWorth(f, rates, [Count(4), Count(5)])
  {
    EventGroup(line, c, f, rates, IsSituational(), [4, 5], [Count(4), Count(5)]);
  }

  function Counted(numbers: seq<nat>): seq<Stat> {
    seq(|numbers|, i requires 0 <= i < |numbers| => Count(numbers[i]))
  }

  lemma {:induction false} CountedSelected(selected: Stat -> bool, line: Line<Stat>, f: Forecast, numbers: seq<nat>)
    requires forall i | 0 <= i < |numbers| :: numbers[i] < |f.counts|
    requires forall i, j | 0 <= i < j < |numbers| :: numbers[i] < numbers[j]
    requires forall s: Stat :: selected(s) <==> s.Count? && s.n in numbers
    ensures Selects(selected, line, f, Counted(numbers))
  {
    var stats := Counted(numbers);
    forall s: Stat | selected(s) ensures s in stats {
      var i :| 0 <= i < |numbers| && numbers[i] == s.n;
      assert stats[i] == s;
    }
  }

  /** The special-teams group is worth the forecast's three special-teams counts, if the supplied line has no
      further keys of the group. */
  lemma {:induction false} SpecialTeamsGroup(line: Line<Stat>, c: Line<Stat>, f: Forecast, rates: Rates<Stat>)
    requires Unique(line) && CanonicalFor(c, f) && f.specialTeams.Some? && |f.specialTeams.value| == 3
    requires forall e | e in line && IsSpecialTeams()(e.stat) :: e.stat.SpecialTeams? && e.stat.n < 3
    ensures PointsOf(Replaced(line, c, rates), rates, IsSpecialTeams()) ==
      StatedWorth(f, rates, [SpecialTeams(0), SpecialTeams(1), SpecialTeams(2)])
  {
    SpecialTeamsSelected(line, f);
    GroupIsWorth(line, c, f, rates, IsSpecialTeams(), [SpecialTeams(0), SpecialTeams(1), SpecialTeams(2)]);
  }

  lemma {:induction false} SpecialTeamsSelected(line: Line<Stat>, f: Forecast)
    requires f.specialTeams.Some? && |f.specialTeams.value| == 3
    requires forall e | e in line && IsSpecialTeams()(e.stat) :: e.stat.SpecialTeams? && e.stat.n < 3
    ensures Selects(IsSpecialTeams(), line, f, [SpecialTeams(0), SpecialTeams(1), SpecialTeams(2)])
  {
    var stats := [SpecialTeams(0), SpecialTeams(1), SpecialTeams(2)];
    forall s: Stat | s.SpecialTeams? && s.n < 3 ensures s in stats {
      assert s == stats[s.n];
    }
    forall e | States(f, e) && IsSpecialTeams()(e.stat) ensures e.stat in stats {
      assert e.stat.SpecialTeams? && e.stat.n < 3;
    }
  }

  /** Nothing the forecast covers is in the rest: normalizing leaves the points outside the groups. */
  lemma {:induction false} RestIsNotTheForecasts(line: Line<Stat>, c: Line<Stat>, f: Forecast, rates: Rates<Stat>)
    requires Unique(line) && CanonicalFor(c, f) && |f.counts| == 7
    ensures PointsOf(Replaced(line, c, rates), rates, IsOther()) == PointsOf(line, rates, IsOther())
  {
    forall e | e in c ensures !IsOther()(e.stat) {
      assert States(f, e);
      CoveredIsGrouped(f, e.stat);
    }
    OthersKeepPoints(line, c, rates, IsOther());
  }

  lemma {:induction false} CoveredIsGrouped(f: Forecast, stat: Stat)
    requires |f.counts| == 7 && Covers(f, stat)
    ensures !IsOther()(stat)
  {
    match stat
    case Count(n) => CountIsGrouped(n);
    case SpecialTeams(_) => assert IsSpecialTeams()(stat);
    case _ => assert IsThreshold()(stat);
  }

  lemma {:induction false} CountIsGrouped(n: nat)
    requires n < 7
    ensures !IsOther()(Count(n))
  {
    assert n == 0 ==> IsPressure()(Count(n));
    assert n == 1 || n == 2 || n == 3 ==> IsTurnover()(Count(n));
    assert n == 4 || n == 5 ==> IsSituational()(Count(n));
    assert n == 6 ==> IsTouchdown()(Count(n));
  }
}
