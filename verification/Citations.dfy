/** Stored advice, what it cites and what grades it: the store's foreign keys, as an invariant over every
    sequence of repository calls. */
module Citations {
  import opened Basics
  import opened LeagueRules
  import opened Observations

  type LeagueId = string
  type ScoringId = string
  type AdviceId = string

  /** points is zero when none are given. */
  datatype Explanation = Explanation(ordinal: int, coverageGap: bool, points: real)

  datatype Advice = Advice(id: AdviceId, league: LeagueId, scoring: ScoringId, forecast: Option<ObservationId>,
                           explanations: seq<Explanation>, generatedAt: int, body: string)

  datatype Outcome = Outcome(id: string, advice: AdviceId, observedAt: int, followed: bool, actualPoints: Option<real>)

  /** The part of the stored document that cites or is cited. */
  datatype Document = Document(scoring: map<LeagueId, seq<ScoringId>>, forecasts: Log, rosters: Log,
                               advice: map<AdviceId, Advice>, outcomes: seq<Outcome>)

  const EMPTY := Document(map[], [], [], map[], [])

  datatype Fault =
    | UnknownScoring(id: AdviceId)
    | UnknownForecast(id: AdviceId)
    | RepeatedOrdinal(id: AdviceId)
    | WeightedGap(id: AdviceId)
    | UnknownAdvice(id: AdviceId)
    | FollowedWithoutPoints(outcome: string)

  datatype Result = Done(doc: Document) | Refused(fault: Fault)

  // ----- what each call does -----

  function ScoringOf(d: Document, league: LeagueId): seq<ScoringId> {
    if league in d.scoring then d.scoring[league] else []
  }

  /** Recording a league records the scoring observation it carries, once. */
  function ScoringRecorded(d: Document, league: LeagueId, scoring: Option<ScoringId>): Document {
    if scoring.None? then d
    else
      var history := ScoringOf(d, league);
      d.(scoring := d.scoring[league := if scoring.value in history then history else history + [scoring.value]])
  }

  function Synced(d: Document, league: LeagueId, scoring: Option<ScoringId>, rosters: seq<Observation>): Document {
    ScoringRecorded(d, league, scoring).(rosters := AppendedAll(d.rosters, rosters))
  }

  /** An empty forecast id is no citation. */
  predicate Cites(a: Advice) {
    a.forecast.Some? && a.forecast.value != ""
  }

  function CitedForecasts(d: Document): set<ObservationId> {
    set k | k in d.advice && Cites(d.advice[k]) :: d.advice[k].forecast.value
  }

  function ExplanationFault(id: AdviceId, seen: set<int>, es: seq<Explanation>): Option<Fault>
    decreases |es|
  {
    if es == [] then None
    else if es[0].ordinal in seen then Some(RepeatedOrdinal(id))
    else if es[0].coverageGap && es[0].points != 0.0 then Some(WeightedGap(id))
    else ExplanationFault(id, seen + {es[0].ordinal}, es[1..])
  }

  function AdviceFault(d: Document, a: Advice): Option<Fault> {
    if a.scoring !in ScoringOf(d, a.league) then Some(UnknownScoring(a.id))
    else if Cites(a) && !Has(d.forecasts, a.forecast.value) then Some(UnknownForecast(a.id))
    else ExplanationFault(a.id, {}, a.explanations)
  }

  /** One write: the first faulty record refuses the whole batch. */
  function Advised(d: Document, records: seq<Advice>): Result
    decreases |records|
  {
    if records == [] then Done(d)
    else
      var fault := AdviceFault(d, records[0]);
      if fault.Some? then Refused(fault.value)
      else Advised(d.(advice := d.advice[records[0].id := records[0]]), records[1..])
  }

  predicate SameOutcome(a: Outcome, b: Outcome) {
    a.advice == b.advice && a.observedAt == b.observedAt
  }

  function Graded(d: Document, o: Outcome): Result {
    if o.advice !in d.advice then Refused(UnknownAdvice(o.advice))
    else if o.followed && o.actualPoints.None? then Refused(FollowedWithoutPoints(o.id))
    else if exists i | 0 <= i < |d.outcomes| :: SameOutcome(d.outcomes[i], o) then Done(d)
    else Done(d.(outcomes := d.outcomes + [o]))
  }

  /** The outcomes that grade none of these. */
  function OutcomesBut(outcomes: seq<Outcome>, ids: set<AdviceId>): seq<Outcome>
    decreases |outcomes|
  {
    if outcomes == [] then []
    else (if outcomes[0].advice !in ids then [outcomes[0]] else []) + OutcomesBut(outcomes[1..], ids)
  }

  /** Removes advice; the outcomes that grade it follow. */
  function Forgotten(d: Document, ids: set<AdviceId>): Document {
    d.(advice := d.advice - ids, outcomes := OutcomesBut(d.outcomes, ids))
  }

  predicate GradedSince(outcomes: seq<Outcome>, id: AdviceId, cutoff: int) {
    exists i | 0 <= i < |outcomes| :: outcomes[i].advice == id && outcomes[i].observedAt >= cutoff
  }

  function AgedAdvice(d: Document, before: int): set<AdviceId> {
    set k | k in d.advice && d.advice[k].generatedAt < before && !GradedSince(d.outcomes, k, before)
  }

  function AdvicePruned(d: Document, before: int): Document {
    Forgotten(d, AgedAdvice(d, before))
  }

  function ForecastsPruned(d: Document, before: int, keep: int): Document {
    d.(forecasts := Pruned(d.forecasts, before, keep, CitedForecasts(d)))
  }

  function RostersPruned(d: Document, before: int, keep: int): Document {
    d.(rosters := Pruned(d.rosters, before, keep, {}))
  }

  function AdviceOf(d: Document, league: LeagueId): set<AdviceId> {
    set k | k in d.advice && d.advice[k].league == league
  }

  function OutsideLeague(league: LeagueId): Observation -> bool {
    (o: Observation) => !(o.group.RosterOf? && o.group.league == league)
  }

  function LeaguePruned(d: Document, league: LeagueId): Document {
    Forgotten(d, AdviceOf(d, league)).(scoring := d.scoring - {league},
      rosters := Keep(d.rosters, OutsideLeague(league)))
  }

  /** How many records go with a league: roster observations, advice and scoring observations. */
  function RemovedWith(d: Document, league: LeagueId): nat {
    KeepIsShorter(d.rosters, OutsideLeague(league));
    (|d.rosters| - |Keep(d.rosters, OutsideLeague(league))|) + |AdviceOf(d, league)| + |ScoringOf(d, league)|
  }

  // ----- any call, and any sequence of calls -----

  datatype Call =
    | Sync(league: LeagueId, scoring: Option<ScoringId>, observations: seq<Observation>)
    | SaveForecast(forecast: Observation)
    | RecordRosters(observations: seq<Observation>)
    | SaveAdvice(records: seq<Advice>)
    | RecordOutcome(outcome: Outcome)
    | PruneForecasts(before: int, keep: int)
    | PruneRosters(before: int, keep: int)
    | PruneAdvice(before: int)
    | PruneLeague(league: LeagueId)

  function Answer(d: Document, c: Call): Result {
    match c
    case Sync(league, scoring, observations) => Done(Synced(d, league, scoring, observations))
    case SaveForecast(forecast) => Done(d.(forecasts := Appended(d.forecasts, forecast)))
    case RecordRosters(observations) => Done(d.(rosters := AppendedAll(d.rosters, observations)))
    case SaveAdvice(records) => Advised(d, records)
    case RecordOutcome(outcome) => Graded(d, outcome)
    case PruneForecasts(before, keep) => Done(ForecastsPruned(d, before, keep))
    case PruneRosters(before, keep) => Done(RostersPruned(d, before, keep))
    case PruneAdvice(before) => Done(AdvicePruned(d, before))
    case PruneLeague(league) => Done(LeaguePruned(d, league))
  }

  /** A refused call stores nothing. */
  function Stored(d: Document, c: Call): Document {
    var answer := Answer(d, c);
    if answer.Done? then answer.doc else d
  }

  function StoredAll(d: Document, calls: seq<Call>): Document
    decreases |calls|
  {
    if calls == [] then d else StoredAll(Stored(d, calls[0]), calls[1..])
  }

  // ----- the foreign keys -----

  ghost predicate Intact(d: Document) {
    && (forall k | k in d.advice :: Sourced(d, k, d.advice[k]))
    && (forall i | 0 <= i < |d.outcomes| :: d.outcomes[i].advice in d.advice)
    && (forall i, j | 0 <= i < j < |d.outcomes| :: !SameOutcome(d.outcomes[i], d.outcomes[j]))
    && UniqueIds(d.forecasts) && UniqueIds(d.rosters)
  }

  /** A record cites a scoring observation of its own league and, if any, a stored forecast. */
  predicate Sourced(d: Document, k: AdviceId, a: Advice) {
    a.id == k && a.scoring in ScoringOf(d, a.league) && (Cites(a) ==> Has(d.forecasts, a.forecast.value))
  }

  lemma {:induction false} AppendedKeepsUnique(log: Log, o: Observation)
    requires UniqueIds(log)
    ensures UniqueIds(Appended(log, o)) && forall id :: Has(log, id) ==> Has(Appended(log, o), id)
  {
    forall id | Has(log, id) ensures Has(Appended(log, o), id) {
      var i :| 0 <= i < |log| && log[i].id == id;
      assert Appended(log, o)[i].id == id;
    }
  }

  lemma {:induction false} AppendedAllKeepsUnique(log: Log, os: seq<Observation>)
    requires UniqueIds(log)
    ensures UniqueIds(AppendedAll(log, os))
    decreases |os|
  {
    if os != [] {
      AppendedKeepsUnique(log, os[0]);
      AppendedAllKeepsUnique(Appended(log, os[0]), os[1..]);
    }
  }

  lemma {:induction false} AdvisedKeepsIntact(d: Document, records: seq<Advice>)
    requires Intact(d)
    ensures Advised(d, records).Done? ==> Intact(Advised(d, records).doc)
    decreases |records|
  {
    if records != [] && AdviceFault(d, records[0]).None? {
      AdvisedKeepsIntact(d.(advice := d.advice[records[0].id := records[0]]), records[1..]);
    }
  }

  lemma {:induction false} OutcomesButHas(outcomes: seq<Outcome>, ids: set<AdviceId>, o: Outcome)
    ensures o in OutcomesBut(outcomes, ids) <==> o in outcomes && o.advice !in ids
    decreases |outcomes|
  {
    if outcomes != [] {
      OutcomesButHas(outcomes[1..], ids, o);
      assert outcomes == [outcomes[0]] + outcomes[1..];
    }
  }

  ghost predicate DistinctOutcomes(outcomes: seq<Outcome>) {
    forall i, j | 0 <= i < j < |outcomes| :: !SameOutcome(outcomes[i], outcomes[j])
  }

  lemma {:induction false} OutcomesButDistinct(outcomes: seq<Outcome>, ids: set<AdviceId>)
    requires DistinctOutcomes(outcomes)
    ensures DistinctOutcomes(OutcomesBut(outcomes, ids))
    decreases |outcomes|
  {
    if outcomes != [] {
      OutcomesButDistinct(outcomes[1..], ids);
      var rest := OutcomesBut(outcomes[1..], ids);
      forall i | 0 <= i < |rest| ensures !SameOutcome(outcomes[0], rest[i]) {
        OutcomesButHas(outcomes[1..], ids, rest[i]);
        var j :| 0 <= j < |outcomes[1..]| && outcomes[1..][j] == rest[i];
        assert outcomes[j + 1] == rest[i];
      }
    }
  }

  lemma {:induction false} ForgottenKeepsIntact(d: Document, ids: set<AdviceId>)
    requires Intact(d)
    ensures Intact(Forgotten(d, ids))
  {
    var kept := OutcomesBut(d.outcomes, ids);
    OutcomesButDistinct(d.outcomes, ids);
    forall i | 0 <= i < |kept| ensures kept[i].advice in d.advice - ids {
      OutcomesButHas(d.outcomes, ids, kept[i]);
    }
  }

  lemma {:induction false} OutcomesButTwice(outcomes: seq<Outcome>, ids: set<AdviceId>, more: set<AdviceId>)
    ensures OutcomesBut(OutcomesBut(outcomes, ids), more) == OutcomesBut(outcomes, ids + more)
    ensures OutcomesBut(outcomes, {}) == outcomes
    decreases |outcomes|
  {
    if outcomes != [] {
      OutcomesButTwice(outcomes[1..], ids, more);
      var left := OutcomesBut(outcomes, ids);
      if outcomes[0].advice in ids {
        assert left == OutcomesBut(outcomes[1..], ids);
      } else {
        assert left[0] == outcomes[0] && left[1..] == OutcomesBut(outcomes[1..], ids);
        assert OutcomesBut(left, more) == (if left[0].advice !in more then [left[0]] else []) +
          OutcomesBut(left[1..], more);
      }
    }
  }

  lemma {:induction false} ForgottenTwice(d: Document, ids: set<AdviceId>, more: set<AdviceId>)
    ensures Forgotten(Forgotten(d, ids), more) == Forgotten(d, ids + more)
    ensures Forgotten(d, {}) == d
  {
    assert (d.advice - ids) - more == d.advice - (ids + more);
    assert d.advice - {} == d.advice;
    OutcomesButTwice(d.outcomes, ids, more);
  }

  lemma {:induction false} ForecastPruningKeepsIntact(d: Document, before: int, keep: int)
    requires Intact(d)
    ensures Intact(ForecastsPruned(d, before, keep))
  {
    var cited := CitedForecasts(d);
    var kept := Pruned(d.forecasts, before, keep, cited);
    KeepKeepsUnique(d.forecasts, NotIn(PruneIds(d.forecasts, before, keep, cited)));
    forall id | Has(d.forecasts, id) && id in cited ensures Has(kept, id) {
      var i :| 0 <= i < |d.forecasts| && d.forecasts[i].id == id;
      CitedStay(d.forecasts, before, keep, cited, d.forecasts[i]);
    }
    forall k | k in d.advice ensures Sourced(ForecastsPruned(d, before, keep), k, d.advice[k]) {
      assert Sourced(d, k, d.advice[k]);
    }
  }

  lemma {:induction false} SyncKeepsIntact(d: Document, league: LeagueId, scoring: Option<ScoringId>,
          observations: seq<Observation>)
    requires Intact(d)
    ensures Intact(Synced(d, league, scoring, observations))
  {
    AppendedAllKeepsUnique(d.rosters, observations);
    forall k | k in d.advice ensures Sourced(Synced(d, league, scoring, observations), k, d.advice[k]) {
      assert Sourced(d, k, d.advice[k]);
    }
  }

  lemma {:induction false} LeaguePruningKeepsIntact(d: Document, league: LeagueId)
    requires Intact(d)
    ensures Intact(LeaguePruned(d, league))
  {
    ForgottenKeepsIntact(d, AdviceOf(d, league));
    KeepKeepsUnique(d.rosters, OutsideLeague(league));
  }

  /** Every call keeps every foreign key, whether it succeeds or is refused. */
  lemma {:induction false} CallKeepsIntact(d: Document, c: Call)
    requires Intact(d)
    ensures Intact(Stored(d, c))
  {
    match c
    case Sync(league, scoring, observations) => SyncKeepsIntact(d, league, scoring, observations);
    case SaveForecast(forecast) => AppendedKeepsUnique(d.forecasts, forecast);
    case RecordRosters(observations) => AppendedAllKeepsUnique(d.rosters, observations);
    case SaveAdvice(records) => AdvisedKeepsIntact(d, records);
    case RecordOutcome(outcome) =>
    case PruneForecasts(before, keep) => ForecastPruningKeepsIntact(d, before, keep);
    case PruneRosters(before, keep) => KeepKeepsUnique(d.rosters, NotIn(PruneIds(d.rosters, before, keep, {})));
    case PruneAdvice(before) => ForgottenKeepsIntact(d, AgedAdvice(d, before));
    case PruneLeague(league) => LeaguePruningKeepsIntact(d, league);
  }

  /** After any sequence of repository calls, nothing dangles. */
  lemma {:induction false} AlwaysIntact(d: Document, calls: seq<Call>)
    requires Intact(d)
    ensures Intact(StoredAll(d, calls))
    decreases |calls|
  {
    if calls != [] {
      CallKeepsIntact(d, calls[0]);
      AlwaysIntact(Stored(d, calls[0]), calls[1..]);
    }
  }

  /** So nothing ever dangles. */
  lemma {:induction false} NeverDangles(calls: seq<Call>)
    ensures Intact(StoredAll(EMPTY, calls))
  {
    AlwaysIntact(EMPTY, calls);
  }

  // ----- what a citation is worth -----

  /** What the record store accepts, said without its loop. */
  ghost predicate Acceptable(d: Document, a: Advice) {
    && a.league in d.scoring && a.scoring in d.scoring[a.league]
    && (a.forecast.Some? && a.forecast.value != "" ==> exists o :: o in d.forecasts && o.id == a.forecast.value)
    && (forall i, j | 0 <= i < j < |a.explanations| :: a.explanations[i].ordinal != a.explanations[j].ordinal)
    && (forall i | 0 <= i < |a.explanations| :: a.explanations[i].coverageGap ==> a.explanations[i].points == 0.0)
  }

  lemma {:induction false} FaultlessExplanations(id: AdviceId, seen: set<int>, es: seq<Explanation>)
    ensures ExplanationFault(id, seen, es).None? <==>
      && (forall i | 0 <= i < |es| :: es[i].ordinal !in seen && (es[i].coverageGap ==> es[i].points == 0.0))
      && (forall i, j | 0 <= i < j < |es| :: es[i].ordinal != es[j].ordinal)
    decreases |es|
  {
    if es != [] {
      FaultlessExplanations(id, seen + {es[0].ordinal}, es[1..]);
      assert es == [es[0]] + es[1..];
    }
  }

  lemma {:induction false} FaultlessIffAcceptable(d: Document, a: Advice)
    ensures AdviceFault(d, a).None? <==> Acceptable(d, a)
  {
    FaultlessExplanations(a.id, {}, a.explanations);
    if Cites(a) {
      HasSome(d.forecasts, a.forecast.value);
    }
  }

  lemma {:induction false} HasSome(log: Log, id: ObservationId)
    ensures Has(log, id) <==> exists o :: o in log && o.id == id
  {
    if i :| 0 <= i < |log| && log[i].id == id {
      assert log[i] in log;
    }
  }

  /** The last record of a batch under an id, or what was stored before. */
  function LastUnder(before: map<AdviceId, Advice>, records: seq<Advice>, id: AdviceId): Option<Advice>
    decreases |records|
  {
    if records == [] then (if id in before then Some(before[id]) else None)
    else if records[|records| - 1].id == id then Some(records[|records| - 1])
    else LastUnder(before, records[..|records| - 1], id)
  }

  lemma {:induction false} LastUnderCons(before: map<AdviceId, Advice>, records: seq<Advice>, id: AdviceId)
    requires records != []
    ensures LastUnder(before, records, id) == LastUnder(before[records[0].id := records[0]], records[1..], id)
    decreases |records|
  {
    if |records| > 1 {
      var n := |records| - 1;
      assert records[..n][1..] == records[1..][..n - 1];
      LastUnderCons(before, records[..n], id);
    }
  }

  /** A batch is stored exactly when each of its records is acceptable; then it is stored whole, and
      nothing else changes. */
  lemma {:induction false} BatchIsAllOrNothing(d: Document, records: seq<Advice>)
    ensures Advised(d, records).Done? <==> forall i | 0 <= i < |records| :: Acceptable(d, records[i])
    ensures Advised(d, records).Done? ==> Advised(d, records).doc == d.(advice := Advised(d, records).doc.advice)
    ensures Advised(d, records).Done? ==>
      forall id :: LastUnder(d.advice, records, id) == if id in Advised(d, records).doc.advice then
        Some(Advised(d, records).doc.advice[id]) else None
    decreases |records|
  {
    if records != [] {
      var d' := d.(advice := d.advice[records[0].id := records[0]]);
      FaultlessIffAcceptable(d, records[0]);
      forall i | 0 <= i < |records| ensures Acceptable(d, records[i]) == Acceptable(d', records[i]) {}
      BatchIsAllOrNothing(d', records[1..]);
      forall id ensures LastUnder(d.advice, records, id) == LastUnder(d'.advice, records[1..], id) {
        LastUnderCons(d.advice, records, id);
      }
    }
  }

  ghost predicate StaysStored(d: Document, calls: seq<Call>, a: Advice)
    decreases |calls|
  {
    && a.id in d.advice && d.advice[a.id] == a
    && (calls == [] || StaysStored(Stored(d, calls[0]), calls[1..], a))
  }

  lemma {:induction false} CallKeepsCited(d: Document, c: Call, a: Advice)
    requires Intact(d) && a.id in d.advice && d.advice[a.id] == a && Cites(a)
    ensures Find(d.forecasts, a.forecast.value).Some?
    ensures Find(Stored(d, c).forecasts, a.forecast.value) == Find(d.forecasts, a.forecast.value)
  {
    assert Sourced(d, a.id, a);
    var id := a.forecast.value;
    match c
    case SaveForecast(forecast) => AppendedFinds(d.forecasts, forecast, id);
    case PruneForecasts(before, keep) =>
      var cited := CitedForecasts(d);
      assert id in cited;
      CitedStay(d.forecasts, before, keep, cited, Find(d.forecasts, id).value);
      var kept := NotIn(PruneIds(d.forecasts, before, keep, cited));
      KeepHas(d.forecasts, kept, Find(d.forecasts, id).value);
      KeepFinds(d.forecasts, kept, id);
    case SaveAdvice(records) => BatchIsAllOrNothing(d, records);
    case _ =>
  }

  /** For as long as a piece of advice stays stored, the forecast it cites can be looked up and reads
      exactly as it did, whatever is saved or pruned in between. */
  lemma {:induction false} CitedForecastNeverChanges(d: Document, calls: seq<Call>, a: Advice)
    requires Intact(d) && StaysStored(d, calls, a) && Cites(a)
    ensures Find(d.forecasts, a.forecast.value).Some?
    ensures Find(StoredAll(d, calls).forecasts, a.forecast.value) == Find(d.forecasts, a.forecast.value)
    decreases |calls|
  {
    assert Sourced(d, a.id, a);
    if calls != [] {
      CallKeepsIntact(d, calls[0]);
      CallKeepsCited(d, calls[0], a);
      CitedForecastNeverChanges(Stored(d, calls[0]), calls[1..], a);
    }
  }

  /** Aging removes exactly the advice that is old itself and was not graded since; an outcome goes if and
      only if the advice it grades does. */
  lemma {:induction false} AgingSparesWhatIsGraded(d: Document, before: int, k: AdviceId, o: Outcome)
    requires Intact(d)
    ensures k in AdvicePruned(d, before).advice <==>
      k in d.advice && (d.advice[k].generatedAt >= before
        || exists x :: x in d.outcomes && x.advice == k && x.observedAt >= before)
    ensures o in AdvicePruned(d, before).outcomes <==> o in d.outcomes && o.advice in AdvicePruned(d, before).advice
  {
    OutcomesButHas(d.outcomes, AgedAdvice(d, before), o);
    GradedBySome(d.outcomes, k, before);
  }

  lemma {:induction false} GradedBySome(outcomes: seq<Outcome>, id: AdviceId, cutoff: int)
    ensures GradedSince(outcomes, id, cutoff) <==>
      exists x :: x in outcomes && x.advice == id && x.observedAt >= cutoff
  {
    if i :| 0 <= i < |outcomes| && outcomes[i].advice == id && outcomes[i].observedAt >= cutoff {
      assert outcomes[i] in outcomes;
    }
  }

  // ----- what each call stores -----

  /** A synchronization records the scoring observation it carries once, at the end of its league's, and the
      roster observations that are new. */
  lemma {:induction false} SyncStores(d: Document, league: LeagueId, scoring: Option<ScoringId>,
          rosters: seq<Observation>,
          id: ObservationId)
    ensures var d' := Synced(d, league, scoring, rosters);
      && d'.forecasts == d.forecasts && d'.advice == d.advice && d'.outcomes == d.outcomes
      && (forall l | l != league :: l in d'.scoring <==> l in d.scoring)
      && (forall l | l != league && l in d.scoring :: d'.scoring[l] == d.scoring[l])
      && (scoring.None? ==> d'.scoring == d.scoring)
      && (scoring.Some? && league !in d.scoring ==> league in d'.scoring && d'.scoring[league] == [scoring.value])
      && (scoring.Some? && league in d.scoring ==>
        league in d'.scoring && ScoringStored(d.scoring[league], scoring.value, d'.scoring[league]))
      && RostersStored(d.rosters, rosters, d'.rosters, id)
  {
    AppendedAllStores(d.rosters, rosters, id);
  }

  /** An observation is recorded once, after those from before. */
  predicate ScoringStored(before: seq<ScoringId>, id: ScoringId, after: seq<ScoringId>) {
    after == if id in before then before else before + [id]
  }

  /** What was recorded stays in front; an id finds the first observation recorded or given under it. */
  ghost predicate RostersStored(before: Log, given: seq<Observation>, after: Log, id: ObservationId) {
    && before <= after
    && ((exists o :: o in after && o.id == id) <==>
      (exists o :: o in before && o.id == id) || (exists o :: o in given && o.id == id))
    && (Find(before, id).Some? ==> Find(after, id) == Find(before, id))
    && (Find(before, id).None? ==> Find(after, id) == Find(given, id))
  }

  lemma {:induction false} AppendedAllStores(log: Log, os: seq<Observation>, id: ObservationId)
    ensures RostersStored(log, os, AppendedAll(log, os), id)
    decreases |os|
  {
    HasSome(log, id);
    HasSome(os, id);
    if os != [] {
      AppendedAllStores(Appended(log, os[0]), os[1..], id);
      AppendedOneStores(log, os[0], id);
    }
    HasSome(AppendedAll(log, os), id);
  }

  lemma {:induction false} AppendedOneStores(log: Log, o: Observation, id: ObservationId)
    ensures log <= Appended(log, o)
    ensures Find(Appended(log, o), id) == if Find(log, id).Some? then Find(log, id) else if o.id == id then Some(o)
      else None
  {
    if Has(log, id) {
      AppendedFinds(log, o, id);
    } else if !Has(log, o.id) {
      FindLast(log, o, id);
    }
  }

  lemma {:induction false} FindLast(log: Log, o: Observation, id: ObservationId)
    requires !Has(log, id)
    ensures Find(log + [o], id) == if o.id == id then Some(o) else None
    decreases |log|
  {
    if log == [] {
      assert log + [o] == [o];
    } else {
      assert log[0].id != id;
      forall i | 0 <= i < |log[1..]| ensures log[1..][i].id != id { assert log[i + 1].id != id; }
      FindLast(log[1..], o, id);
      assert (log + [o])[1..] == log[1..] + [o];
    }
  }

  /** An outcome is taken exactly if its advice is stored and, if the advice was followed, it has points; it
      is then recorded at the end, unless one of the same advice and time is. */
  lemma {:induction false} GradingStores(d: Document, o: Outcome)
    ensures Graded(d, o).Done? <==> o.advice in d.advice && (o.followed ==> o.actualPoints.Some?)
    ensures Graded(d, o).Done? ==>
      var repeated := exists x :: x in d.outcomes && x.advice == o.advice && x.observedAt == o.observedAt;
      Graded(d, o).doc == d.(outcomes := if repeated then d.outcomes else d.outcomes + [o])
  {
    if x :| x in d.outcomes && x.advice == o.advice && x.observedAt == o.observedAt {
      var i :| 0 <= i < |d.outcomes| && d.outcomes[i] == x;
      assert SameOutcome(d.outcomes[i], o);
    }
    if i :| 0 <= i < |d.outcomes| && SameOutcome(d.outcomes[i], o) {
      assert d.outcomes[i] in d.outcomes;
    }
  }

  // ----- removing several leagues -----

  function AdviceOfAny(d: Document, leagues: set<LeagueId>): set<AdviceId> {
    set k | k in d.advice && d.advice[k].league in leagues
  }

  function OutsideLeagues(leagues: set<LeagueId>): Observation -> bool {
    (o: Observation) => !(o.group.RosterOf? && o.group.league in leagues)
  }

  function LeaguesPruned(d: Document, leagues: set<LeagueId>): Document {
    Forgotten(d, AdviceOfAny(d, leagues)).(scoring := d.scoring - leagues,
      rosters := Keep(d.rosters, OutsideLeagues(leagues)))
  }

  lemma {:induction false} NoLeaguesPruned(d: Document)
    ensures LeaguesPruned(d, {}) == d
  {
    assert AdviceOfAny(d, {}) == {} && d.scoring - {} == d.scoring;
    ForgottenTwice(d, {}, {});
    KeepAll(d.rosters, OutsideLeagues({}));
  }

  /** Removing leagues one by one, in any order, is removing them together. */
  lemma {:induction false} LeaguesPrunedGrow(d: Document, leagues: set<LeagueId>, league: LeagueId)
    ensures LeaguePruned(LeaguesPruned(d, leagues), league) == LeaguesPruned(d, leagues + {league})
  {
    var before, more := AdviceOfAny(d, leagues), AdviceOf(LeaguesPruned(d, leagues), league);
    assert before + more == AdviceOfAny(d, leagues + {league});
    ForgottenTwice(d, before, more);
    assert d.scoring - leagues - {league} == d.scoring - (leagues + {league});
    KeepBoth(d.rosters, OutsideLeagues(leagues), OutsideLeague(league), OutsideLeagues(leagues + {league}));
  }

  function OfLeague(league: LeagueId): Observation -> bool {
    (o: Observation) => o.group.RosterOf? && o.group.league == league
  }

  /** The outcomes that grade these. */
  function OutcomesOf(outcomes: seq<Outcome>, ids: set<AdviceId>): seq<Outcome>
    decreases |outcomes|
  {
    if outcomes == [] then []
    else (if outcomes[0].advice in ids then [outcomes[0]] else []) + OutcomesOf(outcomes[1..], ids)
  }

  /** A league's scoring observations, roster history, advice and its advice's outcomes, and every forecast,
      are the same in both documents. */
  ghost predicate Untouched(d: Document, d': Document, league: LeagueId) {
    && (league in d'.scoring <==> league in d.scoring) && ScoringOf(d', league) == ScoringOf(d, league)
    && Keep(d'.rosters, OfLeague(league)) == Keep(d.rosters, OfLeague(league))
    && AdviceOf(d', league) == AdviceOf(d, league) &&
      (forall k | k in AdviceOf(d, league) :: d'.advice[k] == d.advice[k])
    && OutcomesOf(d'.outcomes, AdviceOf(d, league)) == OutcomesOf(d.outcomes, AdviceOf(d, league))
    && d'.forecasts == d.forecasts
  }

  lemma {:induction false} OtherOutcomesStay(outcomes: seq<Outcome>, gone: set<AdviceId>, ids: set<AdviceId>)
    requires gone !! ids
    ensures OutcomesOf(OutcomesBut(outcomes, gone), ids) == OutcomesOf(outcomes, ids)
    decreases |outcomes|
  {
    if outcomes != [] {
      OtherOutcomesStay(outcomes[1..], gone, ids);
      var rest := OutcomesBut(outcomes[1..], gone);
      if outcomes[0].advice in gone {
        assert OutcomesBut(outcomes, gone) == rest;
      } else {
        assert OutcomesBut(outcomes, gone)[1..] == rest;
      }
    }
  }

  /** Removing leagues touches no other league. */
  lemma {:induction false} OthersUntouched(d: Document, leagues: set<LeagueId>, league: LeagueId)
    requires league !in leagues
    ensures Untouched(d, LeaguesPruned(d, leagues), league)
  {
    KeepBoth(d.rosters, OutsideLeagues(leagues), OfLeague(league), OfLeague(league));
    OtherOutcomesStay(d.outcomes, AdviceOfAny(d, leagues), AdviceOf(d, league));
    assert AdviceOf(LeaguesPruned(d, leagues), league) == AdviceOf(d, league);
  }

  /** Nothing of a removed league is left, and no outcome grades what is not there. */
  lemma {:induction false} PrunedAreGone(d: Document, leagues: set<LeagueId>, league: LeagueId, o: Observation,
          grade: Outcome)
    requires league in leagues
    ensures var d' := LeaguesPruned(d, leagues);
      && league !in d'.scoring && (forall k | k in d'.advice :: d'.advice[k].league != league)
      && (o in d'.rosters && o.group.RosterOf? ==> o.group.league != league)
      && (grade in d'.outcomes ==> !(grade.advice in d.advice && d.advice[grade.advice].league == league))
  {
    KeepHas(d.rosters, OutsideLeagues(leagues), o);
    OutcomesButHas(d.outcomes, AdviceOfAny(d, leagues), grade);
  }
}
