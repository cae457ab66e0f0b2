/** Kicker forecasts: their validator, their canonical statistics, and how the score is attributed to
    distance bands. Amounts are reals; what a finite number may be is left to them. */
module Kicker {
  import opened LeagueRules
  import opened Scoring
  import opened Sums

  datatype Band = B0_19 | B20_29 | B30_39 | B40_49 | B50_59 | B60p
  datatype Row = Row(attempts: real, makes: real)
  datatype FieldGoals = FieldGoals(d0: Row, d20: Row, d30: Row, d40: Row, d50: Row, d60: Row)
  datatype Pat = Pat(makes: real, misses: real)

  /** Misses count every attempt that did not score; a total, a breakdown by band, or both. */
  datatype Misses = Misses(total: Option<real>, byDistance: Option<seq<real>>)

  datatype Roof = Indoor | Outdoor | RetractableOpen | RetractableClosed
  datatype Offense = Offense(drivesPerGame: real, scoringDriveRate: real)
  datatype Weather = Weather(windMph: real, precipitationProbability: real, temperatureF: real)

  /** Names and sources are as they read once trimmed. */
  datatype Stadium = Stadium(name: string, roof: Roof)
  datatype Game = Game(source: string, licensed: bool, impliedTeamPoints: real, spread: real)

  datatype Context = Context(includedInForecast: bool, offense: Option<Offense>, opponentRedZoneRate: Option<real>,
                             stadium: Option<Stadium>, weather: Option<Weather>, game: Option<Game>)

  /** unknownFields are the fields supplied anywhere in it beyond these. */
  datatype Forecast = Forecast(fieldGoals: FieldGoals, pat: Pat, misses: Misses, longAttemptProbability: real,
                               context: Option<Context>, unknownFields: set<string>)

  const BANDS: seq<Band> := [B0_19, B20_29, B30_39, B40_49, B50_59, B60p]

  function At(fg: FieldGoals, band: Band): Row {
    match band
    case B0_19 => fg.d0
    case B20_29 => fg.d20
    case B30_39 => fg.d30
    case B40_49 => fg.d40
    case B50_59 => fg.d50
    case B60p => fg.d60
  }

  function Missed(row: Row): real {
    row.attempts - row.makes
  }

  /** The sum over the six bands. */
  function SumBands(g: Band -> real): real {
    SumOver(BANDS, g)
  }

  function MakesIn(fg: FieldGoals): Band -> real {
    (b: Band) => At(fg, b).makes
  }

  function MissesIn(fg: FieldGoals): Band -> real {
    (b: Band) => Missed(At(fg, b))
  }

  function TotalMissed(fg: FieldGoals): real {
    SumBands(MissesIn(fg))
  }

  function LongAttempts(fg: FieldGoals): real {
    fg.d50.attempts + fg.d60.attempts
  }

  predicate RowValid(row: Row) {
    0.0 <= row.makes <= row.attempts
  }

  predicate ByDistanceValid(misses: seq<real>, fg: FieldGoals) {
    && |misses| == |BANDS|
    && forall i | 0 <= i < |BANDS| :: misses[i] >= 0.0 && Close(misses[i], Missed(At(fg, BANDS[i])))
  }

  predicate MissesValid(m: Misses, fg: FieldGoals) {
    && (m.total.Some? || m.byDistance.Some?)
    && (m.total.Some? ==> m.total.value >= 0.0 && Close(m.total.value, TotalMissed(fg)))
    && (m.byDistance.Some? ==> ByDistanceValid(m.byDistance.value, fg))
  }

  predicate ProbabilityValid(p: real, longAttempts: real) {
    0.0 <= p <= 1.0 && p <= longAttempts + TOLERANCE && !(longAttempts > 0.0 && p == 0.0)
  }

  predicate CountsValid(fg: FieldGoals, pat: Pat) {
    (forall b: Band :: RowValid(At(fg, b))) && pat.makes >= 0.0 && pat.misses >= 0.0
  }

  predicate Within(x: real, low: real, high: real) {
    low <= x <= high
  }

  predicate ContextValid(c: Context) {
    && (c.offense.Some? ==>
      Within(c.offense.value.drivesPerGame, 0.0, 30.0) && Within(c.offense.value.scoringDriveRate, 0.0, 1.0))
    && (c.opponentRedZoneRate.Some? ==> Within(c.opponentRedZoneRate.value, 0.0, 1.0))
    && (c.stadium.Some? ==> c.stadium.value.name != "")
    && (c.weather.Some? ==> WeatherValid(c.weather.value))
    && (c.game.Some? ==> GameValid(c.game.value))
  }

  predicate WeatherValid(w: Weather) {
    Within(w.windMph, 0.0, 200.0) && Within(w.precipitationProbability, 0.0, 1.0) &&
      Within(w.temperatureF, -100.0, 150.0)
  }

  predicate GameValid(g: Game) {
    g.licensed && g.source != "" && Within(g.impliedTeamPoints, 0.0, 100.0) && Within(g.spread, -100.0, 100.0)
  }

  /** What the forecast validator accepts. */
  predicate Valid(f: Forecast) {
    && f.unknownFields == {} && (f.context.Some? ==> ContextValid(f.context.value))
    && CountsValid(f.fieldGoals, f.pat)
    && MissesValid(f.misses, f.fieldGoals)
    && ProbabilityValid(f.longAttemptProbability, LongAttempts(f.fieldGoals))
  }

  // ----- canonical statistics -----

  /** Scoring keys. OtherMiss is any further key the prefix of the misses by distance matches, and OtherKick
      any further key the kicking prefixes match. */
  datatype Stat =
    | Made(band: Band) | AllMade | LongMade
    | Miss(missedBand: Band) | AllMissed | LongMissed
    | XpMade | XpMissed
    | OtherMiss(miss: string)
    | OtherKick(kick: string)
    | Other(name: string)

  /** The keys in the order they are set. */
  const CANONICAL: seq<Stat> :=
    [XpMade, XpMissed, Made(B0_19), Miss(B0_19), Made(B20_29), Miss(B20_29), Made(B30_39), Miss(B30_39),
     Made(B40_49), Miss(B40_49), Made(B50_59), Miss(B50_59), Made(B60p), Miss(B60p), AllMade, AllMissed, LongMade,
       LongMissed]

  function Count(f: Forecast, stat: Stat): real {
    var fg := f.fieldGoals;
    match stat
    case XpMade => f.pat.makes
    case XpMissed => f.pat.misses
    case Made(b) => At(fg, b).makes
    case Miss(b) => Missed(At(fg, b))
    case AllMade => SumBands(MakesIn(fg))
    case AllMissed => TotalMissed(fg)
    case LongMade => fg.d50.makes + fg.d60.makes
    case LongMissed => Missed(fg.d50) + Missed(fg.d60)
    case _ => 0.0
  }

  function Counts(f: Forecast, stats: seq<Stat>): Line<Stat>
    decreases |stats|
  {
    if stats == [] then [] else [Entry(stats[0], Count(f, stats[0]))] + Counts(f, stats[1..])
  }

  function KickerStats(f: Forecast): Line<Stat> {
    Counts(f, CANONICAL)
  }

  predicate IsCanonical(stat: Stat) {
    !stat.OtherMiss? && !stat.OtherKick? && !stat.Other?
  }

  /** Where a key stands in the list. */
  function Position(stat: Stat): nat {
    match stat
    case XpMade => 0
    case XpMissed => 1
    case Made(b) => 2 + 2 * Order(b)
    case Miss(b) => 3 + 2 * Order(b)
    case AllMade => 14
    case AllMissed => 15
    case LongMade => 16
    case LongMissed => 17
    case _ => 18
  }

  function Order(b: Band): nat {
    match b case B0_19 => 0 case B20_29 => 1 case B30_39 => 2 case B40_49 => 3 case B50_59 => 4 case B60p => 5
  }

  lemma {:induction false} Listed(i: nat)
    requires i < |CANONICAL|
    ensures Position(CANONICAL[i]) == i && IsCanonical(CANONICAL[i])
  {
  }

  lemma {:induction false} ListedAt(stat: Stat)
    requires IsCanonical(stat)
    ensures Position(stat) < |CANONICAL| && CANONICAL[Position(stat)] == stat
  {
    match stat
    case Made(b) => match b { case B0_19 => case B20_29 => case B30_39 => case B40_49 => case B50_59 => case B60p => }
    case Miss(b) => match b { case B0_19 => case B20_29 => case B30_39 => case B40_49 => case B50_59 => case B60p => }
    case _ =>
  }

  lemma {:induction false} CountsHas(f: Forecast, stats: seq<Stat>, e: Entry<Stat>)
    ensures e in Counts(f, stats) <==> e.stat in stats && e.amount == Count(f, e.stat)
    decreases |stats|
  {
    if stats != [] {
      CountsHas(f, stats[1..], e);
      assert stats == [stats[0]] + stats[1..];
    }
  }

  lemma {:induction false} CountsUnique(f: Forecast, stats: seq<Stat>)
    requires forall i, j | 0 <= i < j < |stats| :: stats[i] != stats[j]
    ensures Unique(Counts(f, stats))
    decreases |stats|
  {
    if stats != [] {
      CountsUnique(f, stats[1..]);
      forall x | x in Counts(f, stats[1..]) ensures x.stat != stats[0] { CountsHas(f, stats[1..], x); }
      UniqueCons(Entry(stats[0], Count(f, stats[0])), Counts(f, stats[1..]));
    }
  }

  predicate SaysMade(fg: FieldGoals, band: Band, amount: real) {
    match band
    case B0_19 => amount == fg.d0.makes
    case B20_29 => amount == fg.d20.makes
    case B30_39 => amount == fg.d30.makes
    case B40_49 => amount == fg.d40.makes
    case B50_59 => amount == fg.d50.makes
    case B60p => amount == fg.d60.makes
  }

  predicate SaysMissed(fg: FieldGoals, band: Band, amount: real) {
    match band
    case B0_19 => amount + fg.d0.makes == fg.d0.attempts
    case B20_29 => amount + fg.d20.makes == fg.d20.attempts
    case B30_39 => amount + fg.d30.makes == fg.d30.attempts
    case B40_49 => amount + fg.d40.makes == fg.d40.attempts
    case B50_59 => amount + fg.d50.makes == fg.d50.attempts
    case B60p => amount + fg.d60.makes == fg.d60.attempts
  }

  function AllMakes(fg: FieldGoals): real {
    fg.d0.makes + fg.d20.makes + fg.d30.makes + fg.d40.makes + fg.d50.makes + fg.d60.makes
  }

  function AllAttempts(fg: FieldGoals): real {
    fg.d0.attempts + fg.d20.attempts + fg.d30.attempts + fg.d40.attempts + fg.d50.attempts + fg.d60.attempts
  }

  /** The forecast says this of a canonical key. */
  predicate States(f: Forecast, e: Entry<Stat>) {
    match e.stat
    case XpMade => e.amount == f.pat.makes
    case XpMissed => e.amount == f.pat.misses
    case Made(b) => SaysMade(f.fieldGoals, b, e.amount)
    case Miss(b) => SaysMissed(f.fieldGoals, b, e.amount)
    case AllMade => e.amount == AllMakes(f.fieldGoals)
    case AllMissed => e.amount + AllMakes(f.fieldGoals) == AllAttempts(f.fieldGoals)
    case LongMade => e.amount == f.fieldGoals.d50.makes + f.fieldGoals.d60.makes
    case LongMissed => e.amount + f.fieldGoals.d50.makes + f.fieldGoals.d60.makes ==
      f.fieldGoals.d50.attempts + f.fieldGoals.d60.attempts
    case _ => false
  }

  /** The canonical statistics of a forecast: every canonical key once, with what the forecast says. */
  ghost predicate CanonicalFor(c: Line<Stat>, f: Forecast) {
    Unique(c) && forall e :: e in c <==> States(f, e)
  }

  lemma {:induction false} SixBands(g: Band -> real)
    ensures SumBands(g) == g(B0_19) + g(B20_29) + g(B30_39) + g(B40_49) + g(B50_59) + g(B60p)
  {
    var b := BANDS;
    assert b == [b[0]] + b[1..] && b[1..] == [b[1]] + b[2..] && b[2..] == [b[2]] + b[3..];
    assert b[3..] == [b[3]] + b[4..] && b[4..] == [b[4]] + b[5..] && b[5..] == [b[5]] + [];
  }

  lemma {:induction false} CountStates(f: Forecast, e: Entry<Stat>)
    ensures States(f, e) <==> IsCanonical(e.stat) && e.amount == Count(f, e.stat)
  {
    SixBands(MakesIn(f.fieldGoals));
    SixBands(MissesIn(f.fieldGoals));
  }

  lemma {:induction false} CanonicalDistinct()
    ensures forall i, j | 0 <= i < j < |CANONICAL| :: CANONICAL[i] != CANONICAL[j]
  {
    forall i, j | 0 <= i < j < |CANONICAL| ensures CANONICAL[i] != CANONICAL[j] {
      Listed(i);
      Listed(j);
    }
  }

  lemma {:induction false} CanonicalHas(stat: Stat)
    ensures stat in CANONICAL <==> IsCanonical(stat)
  {
    if IsCanonical(stat) { ListedAt(stat); }
    if i: nat :| i < |CANONICAL| && CANONICAL[i] == stat { Listed(i); }
  }

  lemma {:induction false} CountsAreCanonical(f: Forecast, stats: seq<Stat>)
    requires forall i, j | 0 <= i < j < |stats| :: stats[i] != stats[j]
    requires forall stat :: stat in stats <==> IsCanonical(stat)
    ensures CanonicalFor(Counts(f, stats), f)
  {
    CountsUnique(f, stats);
    forall e ensures e in Counts(f, stats) <==> States(f, e) {
      CountsHas(f, stats, e);
      CountStates(f, e);
    }
  }

  lemma {:induction false} KickerStatsAreCanonical(f: Forecast)
    ensures CanonicalFor(KickerStats(f), f)
  {
    CanonicalDistinct();
    forall stat ensures stat in CANONICAL <==> IsCanonical(stat) { CanonicalHas(stat); }
    CountsAreCanonical(f, CANONICAL);
  }

  lemma {:induction false} CanonicalStats(f: Forecast, c: Line<Stat>, stat: Stat)
    requires CanonicalFor(c, f)
    ensures stat in Stats(c) <==> IsCanonical(stat)
  {
    StatsHas(c, stat);
    var said := Entry(stat, Count(f, stat));
    CountStates(f, said);
    assert said in c <==> States(f, said);
    if e :| e in c && e.stat == stat {
      CountStates(f, e);
    }
  }

  // ----- normalization -----

  const YARDS := OtherKick("fgm_yds")
  const YARDS_OVER_30 := OtherKick("fgm_yds_over_30")

  predicate IsKick(stat: Stat) {
    !stat.Other?
  }

  datatype Fault = InvalidForecast | NegativeCount(stat: Stat) | Conflict(stat: Stat) | YardageRequired(stat: Stat)
  datatype Result = Normalized(line: Line<Stat>) | Refused(fault: Fault)

  predicate YardageGiven(line: Line<Stat>, rates: Rates<Stat>, stat: Stat) {
    Rate(rates, stat) != 0.0 ==> Has(line, stat) && Amount(line, stat) >= 0.0
  }

  /** What normalization accepts: no negative kick, no count that contradicts the forecast, and yardage
      whenever the league scores it. */
  ghost predicate Accepts(line: Line<Stat>, f: Forecast, rates: Rates<Stat>) {
    && Valid(f)
    && (forall i | 0 <= i < |line| && IsKick(line[i].stat) :: line[i].amount >= 0.0)
    && (forall e | States(f, e) && Has(line, e.stat) :: Close(Amount(line, e.stat), e.amount))
    && (Priced(rates, "fgm_yds") ==> Has(line, OtherKick("fgm_yds")) && Amount(line, OtherKick("fgm_yds")) >= 0.0)
    && (Priced(rates, "fgm_yds_over_30") ==>
      Has(line, OtherKick("fgm_yds_over_30")) && Amount(line, OtherKick("fgm_yds_over_30")) >= 0.0)
  }

  predicate Priced(rates: Rates<Stat>, kick: string) {
    OtherKick(kick) in rates && rates[OtherKick(kick)] != 0.0
  }

  method FindNegative(line: Line<Stat>) returns (found: Option<Stat>)
    ensures found.None? <==> forall i | 0 <= i < |line| && IsKick(line[i].stat) :: line[i].amount >= 0.0
  {
    for i := 0 to |line|
      invariant forall j | 0 <= j < i && IsKick(line[j].stat) :: line[j].amount >= 0.0
    {
      if IsKick(line[i].stat) && line[i].amount < 0.0 {
        return Some(line[i].stat);
      }
    }
    found := None;
  }

  method NormalizeWith(line: Line<Stat>, f: Forecast, canonical: Line<Stat>, rates: Rates<Stat>)
    returns (result: Result)
    requires CanonicalFor(canonical, f)
    ensures result.Normalized? <==> Accepts(line, f, rates)
    ensures result.Normalized? ==> result.line == Replaced(line, canonical, rates)
  {
    if !Valid(f) {
      return Refused(InvalidForecast);
    }
    var negative := FindNegative(line);
    if negative.Some? {
      return Refused(NegativeCount(negative.value));
    }
    var conflict := FindConflict(line, canonical);
    if conflict.Some? {
      return Refused(Conflict(conflict.value));
    }
    var normalized := Normalize(line, canonical, rates);
    if !YardageGiven(line, rates, YARDS) {
      return Refused(YardageRequired(YARDS));
    }
    if !YardageGiven(line, rates, YARDS_OVER_30) {
      return Refused(YardageRequired(YARDS_OVER_30));
    }
    result := Normalized(normalized);
  }

  method NormalizeKickerStats(line: Line<Stat>, f: Forecast, rates: Rates<Stat>) returns (result: Result)
    ensures result.Normalized? <==> Accepts(line, f, rates)
    ensures result.Normalized? ==> result.line == Replaced(line, KickerStats(f), rates)
    ensures result.Normalized? ==> forall e :: e in result.line <==>
      (if IsCanonical(e.stat) then States(f, e) && e.stat in rates else e in line)
    ensures result.Normalized? && Unique(line) ==> Unique(result.line)
  {
    KickerStatsAreCanonical(f);
    if Unique(line) {
      ReplacedKeepsUnique(line, KickerStats(f), rates);
    }
    forall e
      ensures e in Replaced(line, KickerStats(f), rates) <==>
        if IsCanonical(e.stat) then States(f, e) && e.stat in rates else e in line
    {
      ReplacedElsewhere(line, f, KickerStats(f), rates, e);
    }
    result := NormalizeWith(line, f, KickerStats(f), rates);
  }

  lemma {:induction false} CanonicalIsNonnegative(f: Forecast, stat: Stat)
    requires CountsValid(f.fieldGoals, f.pat)
    ensures Count(f, stat) >= 0.0
  {
    var fg := f.fieldGoals;
    assert RowValid(At(fg, B0_19)) && RowValid(At(fg, B20_29)) && RowValid(At(fg, B30_39));
    assert RowValid(At(fg, B40_49)) && RowValid(At(fg, B50_59)) && RowValid(At(fg, B60p));
  }

  lemma {:induction false} ReplacedElsewhere(line: Line<Stat>, f: Forecast, c: Line<Stat>, rates: Rates<Stat>,
          e: Entry<Stat>)
    requires CanonicalFor(c, f)
    ensures e in Replaced(line, c, rates) <==>
      if IsCanonical(e.stat) then States(f, e) && e.stat in rates else e in line
  {
    ReplacedHas(line, c, rates, e);
    CanonicalStats(f, c, e.stat);
    CountStates(f, e);
    assert e in c <==> States(f, e);
  }

  lemma {:induction false} HasEntry(line: Line<Stat>, stat: Stat)
    requires Unique(line)
    ensures Has(line, stat) <==> Entry(stat, Amount(line, stat)) in line
  {
    if i :| 0 <= i < |line| && line[i].stat == stat {
      UniqueAmount(line, line[i]);
    }
  }

  lemma {:induction false} YardageStays(line: Line<Stat>, f: Forecast, c: Line<Stat>, rates: Rates<Stat>, stat: Stat)
    requires Unique(line) && CanonicalFor(c, f) && !IsCanonical(stat) && YardageGiven(line, rates, stat)
    ensures YardageGiven(Replaced(line, c, rates), rates, stat)
  {
    var e := Entry(stat, Amount(line, stat));
    ReplacedKeepsUnique(line, c, rates);
    HasEntry(line, stat);
    ReplacedElsewhere(line, f, c, rates, e);
    if e in line {
      UniqueAmount(Replaced(line, c, rates), e);
    }
  }

  lemma {:induction false} CanonicalAgrees(line: Line<Stat>, f: Forecast, c: Line<Stat>, rates: Rates<Stat>,
          e: Entry<Stat>)
    requires Unique(line) && CanonicalFor(c, f) && e in c && Has(Replaced(line, c, rates), e.stat)
    ensures Amount(Replaced(line, c, rates), e.stat) == e.amount
  {
    var replaced := Replaced(line, c, rates);
    ReplacedKeepsUnique(line, c, rates);
    HasEntry(replaced, e.stat);
    ReplacedElsewhere(line, f, c, rates, Entry(e.stat, Amount(replaced, e.stat)));
  }

  lemma {:induction false} StaysNonnegative(line: Line<Stat>, f: Forecast, c: Line<Stat>, rates: Rates<Stat>,
          e: Entry<Stat>)
    requires CanonicalFor(c, f) && CountsValid(f.fieldGoals, f.pat) && e in Replaced(line, c, rates)
    requires e in line ==> e.amount >= 0.0
    ensures e.amount >= 0.0
  {
    ReplacedElsewhere(line, f, c, rates, e);
    CountStates(f, e);
    CanonicalIsNonnegative(f, e.stat);
  }

  /** With the canonical statistics c of its forecast, a normalized line is accepted again and left as it
      is. */
  lemma {:induction false} NormalizingTwice(line: Line<Stat>, f: Forecast, c: Line<Stat>, rates: Rates<Stat>)
    requires Unique(line) && CanonicalFor(c, f) && Accepts(line, f, rates)
    ensures Accepts(Replaced(line, c, rates), f, rates) &&
      Replaced(Replaced(line, c, rates), c, rates) == Replaced(line, c, rates)
  {
    var once := Replaced(line, c, rates);
    forall e | e in once && IsKick(e.stat) ensures e.amount >= 0.0 { StaysNonnegative(line, f, c, rates, e); }
    forall e | e in c && Has(once, e.stat) ensures Close(Amount(once, e.stat), e.amount) {
      CanonicalAgrees(line, f, c, rates, e);
    }
    YardageStays(line, f, c, rates, YARDS);
    YardageStays(line, f, c, rates, YARDS_OVER_30);
    ReplacedTwice(line, c, rates);
  }

  // ----- attribution -----

  function RateOf(rates: Rates<Stat>, all: Stat, one: Stat, long: Stat, isLong: bool): real {
    if isLong then Rate(rates, all) + Rate(rates, one) + Rate(rates, long) else Rate(rates, all) + Rate(rates, one)
  }

  predicate IsLong(b: Band) {
    b.B50_59? || b.B60p?
  }

  function MakePoints(fg: FieldGoals, rates: Rates<Stat>, b: Band): real {
    At(fg, b).makes * RateOf(rates, AllMade, Made(b), LongMade, IsLong(b))
  }

  function MissPoints(fg: FieldGoals, rates: Rates<Stat>, b: Band): real {
    Missed(At(fg, b)) * RateOf(rates, AllMissed, Miss(b), LongMissed, IsLong(b))
  }

  function IsMake(): Stat -> bool {
    (stat: Stat) => stat.Made? || stat.AllMade? || stat.LongMade?
  }

  function IsCanonicalMiss(): Stat -> bool {
    (stat: Stat) => stat.Miss? || stat.AllMissed? || stat.LongMissed?
  }

  function IsOtherMiss(): Stat -> bool {
    (stat: Stat) => stat.OtherMiss?
  }

  /** What the score reports as field-goal misses. */
  function IsMiss(): Stat -> bool {
    (stat: Stat) => stat.Miss? || stat.AllMissed? || stat.LongMissed? || stat.OtherMiss?
  }

  function IsRest(): Stat -> bool {
    (stat: Stat) => !IsMake()(stat) && !IsMiss()(stat)
  }

  function IsFieldGoal(): Stat -> bool {
    (stat: Stat) => IsMake()(stat) || IsMiss()(stat)
  }

  const MAKES: seq<Stat> :=
    [Made(B0_19), Made(B20_29), Made(B30_39), Made(B40_49), Made(B50_59), Made(B60p), AllMade, LongMade]
  const MISSES: seq<Stat> :=
    [Miss(B0_19), Miss(B20_29), Miss(B30_39), Miss(B40_49), Miss(B50_59), Miss(B60p), AllMissed, LongMissed]

  function WorthIn(f: Forecast, rates: Rates<Stat>): Stat -> real {
    (stat: Stat) => Worth(rates, stat, Count(f, stat), true)
  }

  function WorthOf(f: Forecast, rates: Rates<Stat>, stats: seq<Stat>): real {
    SumOver(stats, WorthIn(f, rates))
  }

  lemma {:induction false} SameWorth(line: Line<Stat>, f: Forecast, c: Line<Stat>, rates: Rates<Stat>, stats: seq<Stat>)
    requires Unique(line) && CanonicalFor(c, f) && forall stat | stat in stats :: IsCanonical(stat)
    ensures AmountsOf(Replaced(line, c, rates), rates, stats) == WorthOf(f, rates, stats)
    decreases |stats|
  {
    if stats != [] {
      assert stats[0] in stats && forall stat | stat in stats[1..] :: stat in stats;
      ReplacedWorth(line, c, rates, Entry(stats[0], Count(f, stats[0])));
      SameWorth(line, f, c, rates, stats[1..]);
    }
  }

  /** The points of the makes, or of the misses, in the score of a normalized line. */
  lemma {:induction false} SelectedPoints(line: Line<Stat>, f: Forecast, c: Line<Stat>, rates: Rates<Stat>,
          selected: Stat -> bool, stats: seq<Stat>)
    requires Unique(line) && CanonicalFor(c, f)
    requires forall stat: Stat :: selected(stat) <==> stat in stats
    requires forall stat | stat in stats :: IsCanonical(stat)
    requires forall i, j | 0 <= i < j < |stats| :: stats[i] != stats[j]
    ensures PointsOf(Replaced(line, c, rates), rates, selected) == WorthOf(f, rates, stats)
  {
    ReplacedKeepsUnique(line, c, rates);
    forall i | 0 <= i < |stats| ensures selected(stats[i]) { assert stats[i] in stats; }
    PointsByStat(Replaced(line, c, rates), rates, selected, stats);
    SameWorth(line, f, c, rates, stats);
  }

  function Scaled(n: Band -> real, rate: real): Band -> real {
    (b: Band) => n(b) * rate
  }

  function LongScaled(n: Band -> real, rate: real): Band -> real {
    (b: Band) => if IsLong(b) then n(b) * rate else 0.0
  }

  lemma {:induction false} ScaledSum(bs: seq<Band>, n: Band -> real, rate: real)
    ensures SumOver(bs, Scaled(n, rate)) == SumOver(bs, n) * rate
    decreases |bs|
  {
    if bs != [] {
      ScaledSum(bs[1..], n, rate);
      SumTimes(n(bs[0]), SumOver(bs[1..], n), rate);
    }
  }

  lemma {:induction false} SumTimes(a: real, b: real, rate: real)
    ensures (a + b) * rate == a * rate + b * rate
  {
  }

  lemma {:induction false} PartsAddUp(bs: seq<Band>, points: Band -> real, own: Band -> real, all: Band -> real,
          long: Band -> real)
    requires forall b: Band :: points(b) == own(b) + all(b) + long(b)
    ensures SumOver(bs, points) == SumOver(bs, own) + SumOver(bs, all) + SumOver(bs, long)
    decreases |bs|
  {
    if bs != [] { PartsAddUp(bs[1..], points, own, all, long); }
  }

  function Through(worth: Stat -> real, one: Band -> Stat): Band -> real {
    (b: Band) => worth(one(b))
  }

  /** Eight keys: one for each band, one for all of them and one for the long ones. */
  lemma {:induction false} KeysByBand(s: seq<Stat>, worth: Stat -> real, one: Band -> Stat)
    requires |s| == 8 && forall b: Band :: s[Order(b)] == one(b)
    ensures SumOver(s, worth) == SumBands(Through(worth, one)) + worth(s[6]) + worth(s[7])
  {
    KeysFrom(s, worth, one, 0);
    assert s[0..] == s && BANDS[0..] == BANDS;
  }

  lemma {:induction false} KeysFrom(s: seq<Stat>, worth: Stat -> real, one: Band -> Stat, i: nat)
    requires |s| == 8 && i <= 6 && forall b: Band :: s[Order(b)] == one(b)
    ensures SumOver(s[i..], worth) == SumOver(BANDS[i..], Through(worth, one)) + worth(s[6]) + worth(s[7])
    decreases 6 - i
  {
    if i == 6 {
      assert BANDS[6..] == [] && s[6..] == [s[6], s[7]] && s[6..][1..] == [s[7]] && [s[7]][1..] == [];
      assert SumOver([s[7]], worth) == worth(s[7]);
    } else {
      KeysFrom(s, worth, one, i + 1);
      assert s[i..][1..] == s[i + 1..] && BANDS[i..][1..] == BANDS[i + 1..];
      assert Order(BANDS[i]) == i && s[i] == one(BANDS[i]);
    }
  }

  /** Keys by band, for all and for the long ones add up to the bands' points, part by part. */
  lemma {:induction false} KeysAddUp(s: seq<Stat>, worth: Stat -> real, one: Band -> Stat,
                                     own: Band -> real, all: Band -> real, long: Band -> real, points: Band -> real)
    requires |s| == 8 && forall b: Band :: s[Order(b)] == one(b)
    requires forall b: Band :: worth(one(b)) == own(b)
    requires worth(s[6]) == SumBands(all) && worth(s[7]) == SumBands(long)
    requires forall b: Band :: points(b) == own(b) + all(b) + long(b)
    ensures SumOver(s, worth) == SumBands(points)
  {
    KeysByBand(s, worth, one);
    SumOverEqual(BANDS, Through(worth, one), own);
    PartsAddUp(BANDS, points, own, all, long);
  }

  /** Two of the six bands are long. */
  lemma {:induction false} LongOnes(g: Band -> real)
    requires forall b: Band :: !IsLong(b) ==> g(b) == 0.0
    ensures SumBands(g) == g(B50_59) + g(B60p)
  {
    var b1, b2, b3, b4, b5 := BANDS[1..], BANDS[2..], BANDS[3..], BANDS[4..], BANDS[5..];
    assert b1[1..] == b2 && b2[1..] == b3 && b3[1..] == b4 && b4[1..] == b5 && b5[1..] == [];
    assert SumOver(b5, g) == g(B60p);
    assert SumOver(b4, g) == g(B50_59) + g(B60p);
    assert SumOver(b3, g) == SumOver(b4, g);
    assert SumOver(b2, g) == SumOver(b3, g);
    assert SumOver(b1, g) == SumOver(b2, g);
  }

  lemma {:induction false} LongSum(n: Band -> real, rate: real)
    ensures SumBands(LongScaled(n, rate)) == (n(B50_59) + n(B60p)) * rate
  {
    LongOnes(LongScaled(n, rate));
    SumTimes(n(B50_59), n(B60p), rate);
  }

  function MakePointsIn(fg: FieldGoals, rates: Rates<Stat>): Band -> real {
    (b: Band) => MakePoints(fg, rates, b)
  }

  function MissPointsIn(fg: FieldGoals, rates: Rates<Stat>): Band -> real {
    (b: Band) => MissPoints(fg, rates, b)
  }

  function OneMade(): Band -> Stat {
    (b: Band) => Made(b)
  }

  function OneMissed(): Band -> Stat {
    (b: Band) => Miss(b)
  }

  function Own(n: Band -> real, rates: Rates<Stat>, one: Band -> Stat): Band -> real {
    (b: Band) => n(b) * Rate(rates, one(b))
  }

  lemma {:induction false} MakeOrder()
    ensures forall b: Band :: MAKES[Order(b)] == OneMade()(b)
  {
  }

  lemma {:induction false} MakeKeys(f: Forecast, rates: Rates<Stat>)
    ensures forall b: Band :: WorthIn(f, rates)(OneMade()(b)) == Own(MakesIn(f.fieldGoals), rates, OneMade())(b)
  {
  }

  lemma {:induction false} MakeParts(fg: FieldGoals, rates: Rates<Stat>)
    ensures forall b: Band :: (MakePointsIn(fg, rates)(b) ==
      Own(MakesIn(fg), rates, OneMade())(b) + Scaled(MakesIn(fg), Rate(rates, AllMade))(b) +
        LongScaled(MakesIn(fg), Rate(rates, LongMade))(b))
  {
  }

  lemma {:induction false} MakeTotals(f: Forecast, rates: Rates<Stat>)
    ensures WorthIn(f, rates)(AllMade) == SumBands(Scaled(MakesIn(f.fieldGoals), Rate(rates, AllMade)))
    ensures WorthIn(f, rates)(LongMade) == SumBands(LongScaled(MakesIn(f.fieldGoals), Rate(rates, LongMade)))
  {
    ScaledSum(BANDS, MakesIn(f.fieldGoals), Rate(rates, AllMade));
    LongSum(MakesIn(f.fieldGoals), Rate(rates, LongMade));
  }

  lemma {:induction false} MakesAddUp(f: Forecast, rates: Rates<Stat>)
    ensures WorthOf(f, rates, MAKES) == SumBands(MakePointsIn(f.fieldGoals, rates))
  {
    var n := MakesIn(f.fieldGoals);
    MakeOrder();
    MakeKeys(f, rates);
    MakeParts(f.fieldGoals, rates);
    MakeTotals(f, rates);
    KeysAddUp(MAKES, WorthIn(f, rates), OneMade(), Own(n, rates, OneMade()), Scaled(n, Rate(rates, AllMade)),
      LongScaled(n, Rate(rates, LongMade)), MakePointsIn(f.fieldGoals, rates));
  }

  lemma {:induction false} MissOrder()
    ensures forall b: Band :: MISSES[Order(b)] == OneMissed()(b)
  {
  }

  lemma {:induction false} MissKeys(f: Forecast, rates: Rates<Stat>)
    ensures forall b: Band :: WorthIn(f, rates)(OneMissed()(b)) == Own(MissesIn(f.fieldGoals), rates, OneMissed())(b)
  {
  }

  lemma {:induction false} MissParts(fg: FieldGoals, rates: Rates<Stat>)
    ensures forall b: Band :: (MissPointsIn(fg, rates)(b) ==
      Own(MissesIn(fg), rates, OneMissed())(b) + Scaled(MissesIn(fg), Rate(rates, AllMissed))(b) +
        LongScaled(MissesIn(fg), Rate(rates, LongMissed))(b))
  {
  }

  lemma {:induction false} MissTotals(f: Forecast, rates: Rates<Stat>)
    ensures WorthIn(f, rates)(AllMissed) == SumBands(Scaled(MissesIn(f.fieldGoals), Rate(rates, AllMissed)))
    ensures WorthIn(f, rates)(LongMissed) == SumBands(LongScaled(MissesIn(f.fieldGoals), Rate(rates, LongMissed)))
  {
    ScaledSum(BANDS, MissesIn(f.fieldGoals), Rate(rates, AllMissed));
    LongSum(MissesIn(f.fieldGoals), Rate(rates, LongMissed));
  }

  lemma {:induction false} MissesAddUp(f: Forecast, rates: Rates<Stat>)
    ensures WorthOf(f, rates, MISSES) == SumBands(MissPointsIn(f.fieldGoals, rates))
  {
    var n := MissesIn(f.fieldGoals);
    MissOrder();
    MissKeys(f, rates);
    MissParts(f.fieldGoals, rates);
    MissTotals(f, rates);
    KeysAddUp(MISSES, WorthIn(f, rates), OneMissed(), Own(n, rates, OneMissed()), Scaled(n, Rate(rates, AllMissed)),
      LongScaled(n, Rate(rates, LongMissed)), MissPointsIn(f.fieldGoals, rates));
  }

  /** The bands' make points sum to the field-goal makes of the league's own score and their miss points to
      its canonical misses, although that score counts each kick up to three times, by band, in total and as
      long. */
  lemma {:induction false} CanonicalBandsAddUp(line: Line<Stat>, f: Forecast, c: Line<Stat>, rates: Rates<Stat>)
    requires Unique(line) && CanonicalFor(c, f)
    ensures SumBands(MakePointsIn(f.fieldGoals, rates)) == PointsOf(Replaced(line, c, rates), rates, IsMake())
    ensures SumBands(MissPointsIn(f.fieldGoals, rates)) == PointsOf(Replaced(line, c, rates), rates, IsCanonicalMiss())
  {
    MakesListed();
    MissesListed();
    SelectedPoints(line, f, c, rates, IsMake(), MAKES);
    SelectedPoints(line, f, c, rates, IsCanonicalMiss(), MISSES);
    MakesAddUp(f, rates);
    MissesAddUp(f, rates);
  }

  lemma {:induction false} OtherMissesStay(line: Line<Stat>, f: Forecast, c: Line<Stat>, rates: Rates<Stat>)
    requires Unique(line) && CanonicalFor(c, f)
    ensures PointsOf(Replaced(line, c, rates), rates, IsOtherMiss()) == PointsOf(line, rates, IsOtherMiss())
  {
    assert forall e | e in c :: !IsOtherMiss()(e.stat) by {
      forall e | e in c ensures IsCanonical(e.stat) { CountStates(f, e); }
    }
    OthersKeepPoints(line, c, rates, IsOtherMiss());
  }

  /** The bands and the rest make up the unrounded total but for further keys that score as misses; so the
      bands account for the misses the score reports exactly when such keys contribute nothing on the
      supplied line. */
  lemma {:induction false} BandsAddUp(line: Line<Stat>, f: Forecast, c: Line<Stat>, rates: Rates<Stat>)
    requires Unique(line) && CanonicalFor(c, f)
    ensures var scored, others := Replaced(line, c, rates), PointsOf(line, rates, IsOtherMiss());
      var makes, misses := SumBands(MakePointsIn(f.fieldGoals, rates)), SumBands(MissPointsIn(f.fieldGoals, rates));
      && makes == PointsOf(scored, rates, IsMake())
      && PointsOf(scored, rates, IsMiss()) == misses + others
      && (misses == PointsOf(scored, rates, IsMiss()) <==> others == 0.0)
      && makes + misses + others + PointsOf(scored, rates, IsRest()) == Total(scored, rates)
  {
    var scored := Replaced(line, c, rates);
    CanonicalBandsAddUp(line, f, c, rates);
    OtherMissesStay(line, f, c, rates);
    SplitPoints(scored, rates, IsCanonicalMiss(), IsOtherMiss(), IsMiss());
    SplitPoints(scored, rates, IsMake(), IsMiss(), IsFieldGoal());
    SplitTotal(scored, rates, IsFieldGoal(), IsRest());
  }

  /** A league that prices blocked kicks under a key of their own: every forecast, with one such kick on its
      line, reports a miss point that no band accounts for. */
  lemma {:induction false} BlockedKickIsInNoBand(f: Forecast, c: Line<Stat>)
    requires CanonicalFor(c, f)
    ensures var blocked := OtherMiss("fgmiss_blocked");
      var line, rates := [Entry(blocked, 1.0)], map[blocked := -1.0];
      && SumBands(MissPointsIn(f.fieldGoals, rates)) == 0.0
      && PointsOf(Replaced(line, c, rates), rates, IsMiss()) == -1.0
  {
    var blocked := OtherMiss("fgmiss_blocked");
    var line, rates := [Entry(blocked, 1.0)], map[blocked := -1.0];
    OneEntry(blocked, 1.0, rates, IsOtherMiss());
    NoMissPriced(f.fieldGoals, rates);
    BandsAddUp(line, f, c, rates);
  }

  lemma {:induction false} OneEntry(stat: Stat, amount: real, rates: Rates<Stat>, selected: Stat -> bool)
    ensures PointsOf([Entry(stat, amount)], rates, selected) == Worth(rates, stat, amount, selected(stat))
  {
    PointsCons(Entry(stat, amount), [], rates, selected);
    assert [Entry(stat, amount)] + [] == [Entry(stat, amount)];
  }

  lemma {:induction false} NoMissPriced(fg: FieldGoals, rates: Rates<Stat>)
    requires forall stat | IsCanonical(stat) :: Rate(rates, stat) == 0.0
    ensures SumBands(MissPointsIn(fg, rates)) == 0.0
  {
    forall b: Band ensures MissPointsIn(fg, rates)(b) == 0.0 {
      NothingPriced(Missed(At(fg, b)), RateOf(rates, AllMissed, Miss(b), LongMissed, IsLong(b)));
    }
    ZeroSum(BANDS, MissPointsIn(fg, rates));
  }

  lemma {:induction false} NothingPriced(count: real, rate: real)
    requires rate == 0.0
    ensures count * rate == 0.0
  {
  }

  lemma {:induction false} ZeroSum(bs: seq<Band>, g: Band -> real)
    requires forall b: Band :: g(b) == 0.0
    ensures SumOver(bs, g) == 0.0
    decreases |bs|
  {
    if bs != [] { ZeroSum(bs[1..], g); }
  }

  lemma {:induction false} MakesListed()
    ensures forall stat: Stat :: IsMake()(stat) <==> stat in MAKES
    ensures forall stat | stat in MAKES :: IsCanonical(stat)
    ensures forall i, j | 0 <= i < j < |MAKES| :: MAKES[i] != MAKES[j]
  {
    forall stat: Stat ensures IsMake()(stat) <==> stat in MAKES {
      if stat.Made? { assert MAKES[Order(stat.band)] == stat; }
      if stat.AllMade? { assert MAKES[6] == stat; }
      if stat.LongMade? { assert MAKES[7] == stat; }
    }
  }

  lemma {:induction false} MissesListed()
    ensures forall stat: Stat :: IsCanonicalMiss()(stat) <==> stat in MISSES
    ensures forall stat | stat in MISSES :: IsCanonical(stat)
    ensures forall i, j | 0 <= i < j < |MISSES| :: MISSES[i] != MISSES[j]
  {
    forall stat: Stat ensures IsCanonicalMiss()(stat) <==> stat in MISSES {
      if stat.Miss? { assert MISSES[Order(stat.missedBand)] == stat; }
      if stat.AllMissed? { assert MISSES[6] == stat; }
      if stat.LongMissed? { assert MISSES[7] == stat; }
    }
  }
}
