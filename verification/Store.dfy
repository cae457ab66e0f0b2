/** The document store: each method is one serialized write, or one read, of the document its fields
    hold. Object keys have no order here; no result depends on it. */
module Store {
  import opened Basics
  import opened LeagueRules
  import opened Leases
  import opened Observations
  import Citations
  import Connections
  import Resources
  import Sessions

  type LeagueId = string

  datatype LeaseGuard = LeaseGuard(key: Key, owner: Owner, now: int)

  /** What one synchronization publishes in one write. */
  datatype SyncWrite = SyncWrite(guard: Option<LeaseGuard>, sync: Resources.Sync, rosterObservations: seq<Observation>)

  /** The scoring observation a write records. */
  function ScoringGiven(sync: Resources.Sync): Option<Citations.ScoringId> {
    if sync.league.Some? then sync.league.value.scoring else None
  }

  class JsonStore {
    var leases: LeaseTable
    var sessions: Sessions.SessionTable
    var accounts: Connections.Accounts
    var connections: Connections.Table
    var leagues: map<LeagueId, Resources.League>
    var items: map<Resources.ItemKey, Resources.Item>
    var weekly: seq<Resources.Weekly>
    var freshness: map<Resources.FreshKey, string>
    var snapshots: map<LeagueId, string>
    var runs: seq<Resources.SyncRun>
    var scoring: map<LeagueId, seq<Citations.ScoringId>>
    var forecasts: Log
    var rosters: Log
    var advice: map<Citations.AdviceId, Citations.Advice>
    var outcomes: seq<Citations.Outcome>

    /** The cited and citing part of the document. */
    function Document(): Citations.Document
      reads this`scoring, this`forecasts, this`rosters, this`advice, this`outcomes
    {
      Citations.Document(scoring, forecasts, rosters, advice, outcomes)
    }

    /** The synchronized part. */
    function Shared(): Resources.Shared
      reads this`leagues, this`items, this`weekly, this`freshness, this`snapshots, this`runs
    {
      Resources.Shared(leagues, items, weekly, freshness, snapshots, runs)
    }

    /** No foreign key dangles. */
    ghost predicate Valid()
      reads this`scoring, this`forecasts, this`rosters, this`advice, this`outcomes
    {
      Citations.Intact(Document())
    }

    constructor ()
      ensures leases == map[] && sessions == map[] && accounts == map[] && connections == map[]
      ensures Document() == Citations.EMPTY && Shared() == Resources.NOTHING
      ensures Valid()
    {
      leases, sessions, accounts, connections := map[], map[], map[], map[];
      leagues, items, weekly, freshness, snapshots, runs := map[], map[], [], map[], map[], [];
      scoring, forecasts, rosters, advice, outcomes := map[], [], [], map[], [];
    }

    // ----- leases -----

    method AcquireLease(key: Key, owner: Owner, ttlMs: int, now: int) returns (granted: Option<Lease>)
      modifies this`leases
      ensures leases == Acquired(old(leases), key, owner, ttlMs, now)
      ensures granted == if Blocked(old(leases), key, owner, now) then None else Some(leases[key])
    {
      var live := key in leases && leases[key].expiresAt > now;
      if live && leases[key].owner != owner {
        return None;
      }
      var since := if live && leases[key].owner == owner then leases[key].acquiredAt else now;
      leases := leases[key := Lease(owner, since, now + ttlMs)];
      granted := Some(leases[key]);
    }

    method ReleaseLease(key: Key, owner: Owner)
      modifies this`leases
      ensures leases == Released(old(leases), key, owner)
    {
      if key in leases && leases[key].owner == owner {
        leases := leases - {key};
      }
    }

    // ----- publication -----

    /** Refused as a whole, changing nothing, when its guard no longer holds. */
    method ApplySync(write: SyncWrite) returns (landed: bool)
      modifies this`leagues, this`items, this`weekly, this`freshness, this`scoring, this`rosters
      ensures landed <==> (write.guard.None? ||
        GuardHolds(leases, write.guard.value.key, write.guard.value.owner, write.guard.value.now))
      ensures !landed ==> Shared() == old(Shared()) && Document() == old(Document())
      ensures landed ==> Shared() == Resources.Merged(old(Shared()), write.sync)
      ensures landed ==>
        Document() == Citations.Synced(old(Document()), write.sync.leagueId, ScoringGiven(write.sync),
          write.rosterObservations)
      ensures old(Valid()) ==> Valid()
    {
      if write.guard.Some? {
        var guard := write.guard.value;
        if guard.key !in leases || leases[guard.key].owner != guard.owner || leases[guard.key].expiresAt <= guard.now {
          return false;
        }
      }
      landed := true;
      ghost var was := Document();
      RecordLeague(write.sync);
      MergeRecords(write.sync);
      RecordNew(write.rosterObservations);
      Kept(was, Citations.Sync(write.sync.leagueId, ScoringGiven(write.sync), write.rosterObservations));
    }

    /** The league record, and with it the scoring observation it carries. */
    method RecordLeague(sync: Resources.Sync)
      modifies this`leagues, this`scoring
      ensures leagues == if sync.league.Some? then old(leagues)[sync.leagueId := sync.league.value] else old(leagues)
      ensures Document() == Citations.ScoringRecorded(old(Document()), sync.leagueId, ScoringGiven(sync))
    {
      if sync.league.None? {
        return;
      }
      leagues := leagues[sync.leagueId := sync.league.value];
      if sync.league.value.scoring.Some? {
        var id := sync.league.value.scoring.value;
        var history := if sync.leagueId in scoring then scoring[sync.leagueId] else [];
        if id !in history {
          history := history + [id];
        }
        scoring := scoring[sync.leagueId := history];
      }
    }

    /** The records of the collections, the weekly snapshot and the freshness marks. */
    method MergeRecords(sync: Resources.Sync)
      modifies this`items, this`weekly, this`freshness
      ensures Shared() == Resources.Merged(old(Shared()), sync).(leagues := leagues)
    {
      if Resources.ReplacesPicks(sync) {
        DropPicks(sync);
      } else {
        assert items == Resources.Spared(items, sync);
      }
      ghost var spared := items;
      var i := 0;
      while i < |sync.items|
        invariant 0 <= i <= |sync.items| && items == Resources.Upserted(spared, sync.items[..i])
        invariant weekly == old(weekly) && freshness == old(freshness)
      {
        assert sync.items[..i + 1][..i] == sync.items[..i];
        items := items[Resources.KeyOf(sync.items[i]) := sync.items[i]];
        i := i + 1;
      }
      assert sync.items[..|sync.items|] == sync.items;
      if sync.weekly.Some? && Resources.FindWeekly(weekly, sync.weekly.value.id).None? {
        weekly := weekly + [sync.weekly.value];
      }
      freshness := freshness + sync.freshness;
    }

    method DropPicks(sync: Resources.Sync)
      requires Resources.ReplacesPicks(sync)
      modifies this`items
      ensures items == Resources.Spared(old(items), sync)
    {
      var todo := items.Keys;
      while todo != {}
        invariant todo <= items.Keys <= old(items).Keys
        invariant forall k | k in old(items) :: k in items <==> k in todo || !Resources.Replaces(sync, old(items)[k])
        invariant forall k | k in items :: items[k] == old(items)[k]
        decreases |todo|
      {
        var k :| k in todo;
        if items[k].kind == Resources.DraftPicks && items[k].league == sync.replacePicksOf.value {
          items := items - {k};
        }
        todo := todo - {k};
      }
    }

    method RecordNew(observations: seq<Observation>)
      modifies this`rosters
      ensures Document() == old(Document()).(rosters := AppendedAll(old(rosters), observations))
    {
      var i := 0;
      while i < |observations|
        invariant 0 <= i <= |observations|
        invariant AppendedAll(old(rosters), observations) == AppendedAll(rosters, observations[i..])
      {
        AppendedAllFrom(rosters, observations, i);
        if Find(rosters, observations[i].id).None? {
          rosters := rosters + [observations[i]];
        }
        i := i + 1;
      }
    }

    /** After a call that stored what the call's specification says, the document is still valid. */
    lemma Kept(was: Citations.Document, c: Citations.Call)
      requires Document() == Citations.Stored(was, c)
      ensures Citations.Intact(was) ==> Valid()
    {
      if Citations.Intact(was) {
        Citations.CallKeepsIntact(was, c);
      }
    }

    /** The older whole-league snapshot, with the run that took it. */
    method Save(league: LeagueId, body: string, run: Resources.SyncRun)
      modifies this`snapshots, this`runs
      ensures Shared() == Resources.Changed(old(Shared()), Resources.SaveSnapshot(league, body, run))
    {
      snapshots := snapshots[league := body];
      RecordSyncRun(run);
    }

    method RecordSyncRun(run: Resources.SyncRun)
      modifies this`runs
      ensures Shared() == Resources.Changed(old(Shared()), Resources.LogRun(run))
      ensures |runs| <= Resources.RUN_LIMIT
    {
      runs := [run] + runs;
      if |runs| > Resources.RUN_LIMIT {
        runs := runs[..Resources.RUN_LIMIT];
      }
    }

    // ----- sessions -----

    method SaveSession(id: Sessions.SessionId, session: Sessions.Session)
      modifies this`sessions
      ensures sessions == old(sessions)[id := session]
    {
      sessions := sessions[id := session];
    }

    method RevokeSession(id: Sessions.SessionId, at: int)
      modifies this`sessions
      ensures sessions == Sessions.RevokeOne(old(sessions), id, at)
    {
      if id in sessions && sessions[id].revokedAt.None? {
        sessions := sessions[id := sessions[id].(revokedAt := Some(at))];
      }
    }

    method RevokeSessionFamily(family: Sessions.FamilyId, at: int)
      modifies this`sessions
      ensures sessions == Sessions.RevokeFamily(old(sessions), family, at)
    {
      var todo := sessions.Keys;
      while todo != {}
        invariant todo <= sessions.Keys == old(sessions).Keys
        invariant forall k | k in sessions :: sessions[k] == if k in todo then old(sessions)[k]
          else Sessions.RevokeFamily(old(sessions), family, at)[k]
        decreases |todo|
      {
        var id :| id in todo;
        if sessions[id].family == family && sessions[id].revokedAt.None? {
          sessions := sessions[id := sessions[id].(revokedAt := Some(at))];
        }
        todo := todo - {id};
      }
    }

    method RevokeUserSessions(user: Sessions.UserId, at: int)
      modifies this`sessions
      ensures sessions == Sessions.RevokeUser(old(sessions), user, at)
    {
      var todo := sessions.Keys;
      while todo != {}
        invariant todo <= sessions.Keys == old(sessions).Keys
        invariant forall k | k in sessions :: sessions[k] == if k in todo then old(sessions)[k]
          else Sessions.RevokeUser(old(sessions), user, at)[k]
        decreases |todo|
      {
        var id :| id in todo;
        if sessions[id].user == user && sessions[id].revokedAt.None? {
          sessions := sessions[id := sessions[id].(revokedAt := Some(at))];
        }
        todo := todo - {id};
      }
    }

    method RotateSession(previous: Sessions.SessionId, id: Sessions.SessionId, next: Sessions.Session, at: int)
      modifies this`sessions
      ensures sessions == Sessions.Replace(old(sessions), previous, id, next, at)
    {
      if previous in sessions {
        sessions := sessions[previous := sessions[previous].(supersededAt := Some(at))];
      }
      sessions := sessions[id := next];
    }

    method TouchSession(id: Sessions.SessionId, expiresAt: int, seenAt: int)
      modifies this`sessions
      ensures sessions == Sessions.Touch(old(sessions), id, expiresAt, seenAt)
    {
      if id in sessions && sessions[id].revokedAt.None? {
        sessions := sessions[id := sessions[id].(expiresAt := expiresAt, lastSeenAt := seenAt)];
      }
    }

    method PruneSessions(now: int, retentionMs: int) returns (removed: nat)
      modifies this`sessions
      ensures sessions == Sessions.Pruned(old(sessions), now, retentionMs)
      ensures removed == |old(sessions)| - |sessions|
    {
      removed := 0;
      var todo := sessions.Keys;
      while todo != {}
        invariant todo <= sessions.Keys <= old(sessions).Keys
        invariant forall k | k in old(sessions) :: k in sessions <==>
          k in todo || k in Sessions.Pruned(old(sessions), now, retentionMs)
        invariant forall k | k in sessions :: sessions[k] == old(sessions)[k]
        invariant removed == |old(sessions)| - |sessions|
        decreases |todo|
      {
        var id :| id in todo;
        if now - Sessions.DeadSince(sessions[id]) > retentionMs {
          sessions := sessions - {id};
          removed := removed + 1;
        }
        todo := todo - {id};
      }
    }

    // ----- forecasts and roster history -----

    method SaveForecastSnapshot(record: Observation)
      modifies this`forecasts
      ensures Document() == old(Document()).(forecasts := Appended(old(forecasts), record))
      ensures old(Valid()) ==> Valid()
    {
      ghost var was := Document();
      if Find(forecasts, record.id).None? {
        forecasts := forecasts + [record];
      }
      Kept(was, Citations.SaveForecast(record));
    }

    method RecordRosterObservations(observations: seq<Observation>) returns (added: nat)
      modifies this`rosters
      ensures Document() == old(Document()).(rosters := AppendedAll(old(rosters), observations))
      ensures added == |rosters| - |old(rosters)|
      ensures old(Valid()) ==> Valid()
    {
      ghost var was := Document();
      added := 0;
      var seen := set o | o in rosters :: o.id;
      var i := 0;
      while i < |observations|
        invariant 0 <= i <= |observations|
        invariant forall id :: id in seen <==> Has(rosters, id)
        invariant AppendedAll(old(rosters), observations) == AppendedAll(rosters, observations[i..])
        invariant added == |rosters| - |old(rosters)|
      {
        var observation := observations[i];
        AppendedAllFrom(rosters, observations, i);
        if observation.id !in seen {
          seen := seen + {observation.id};
          AppendedHas(rosters, observation);
          rosters := rosters + [observation];
          added := added + 1;
        }
        i := i + 1;
      }
      Kept(was, Citations.RecordRosters(observations));
    }

    method PruneForecastSnapshots(before: int, keepPerWeek: int) returns (removed: nat)
      modifies this`forecasts
      ensures Document() == Citations.ForecastsPruned(old(Document()), before, keepPerWeek)
      ensures removed == |PruneIds(old(forecasts), before, keepPerWeek, Citations.CitedForecasts(old(Document())))|
      ensures old(Valid()) ==> Valid()
    {
      ghost var was := Document();
      var cited := set k | k in advice && Citations.Cites(advice[k]) :: advice[k].forecast.value;
      var drop := Outranked(Sort(forecasts), before, keepPerWeek, cited);
      forecasts := Keep(forecasts, NotIn(drop));
      removed := |drop|;
      Kept(was, Citations.PruneForecasts(before, keepPerWeek));
    }

    method PruneRosterHistory(before: int, keepPerWeek: int) returns (removed: nat)
      modifies this`rosters
      ensures Document() == Citations.RostersPruned(old(Document()), before, keepPerWeek)
      ensures removed == |PruneIds(old(rosters), before, keepPerWeek, {})|
      ensures old(Valid()) ==> Valid()
    {
      ghost var was := Document();
      var drop := Outranked(Sort(rosters), before, keepPerWeek, {});
      rosters := Keep(rosters, NotIn(drop));
      removed := |drop|;
      Kept(was, Citations.PruneRosters(before, keepPerWeek));
    }

    method LatestForecastSnapshot(query: Query) returns (latest: Option<Observation>)
      ensures latest == Latest(forecasts, query)
    {
      var found := Sort(Keep(forecasts, InQuery(query)));
      latest := if found == [] then None else Some(found[0]);
    }

    // ----- advice -----

    /** Throws away the whole batch at the first record that may not be stored. */
    method SaveRecommendations(records: seq<Citations.Advice>) returns (fault: Option<Citations.Fault>)
      modifies this`advice
      ensures Document() == Citations.Stored(old(Document()), Citations.SaveAdvice(records))
      ensures fault.None? <==> Citations.Advised(old(Document()), records).Done?
      ensures old(Valid()) ==> Valid()
    {
      ghost var was := Document();
      var stored := advice;
      var i := 0;
      while i < |records|
        invariant 0 <= i <= |records| && Document() == old(Document())
        invariant Citations.Advised(Document(), records) ==
          Citations.Advised(Document().(advice := stored), records[i..])
      {
        var record := records[i];
        var observations := if record.league in scoring then scoring[record.league] else [];
        if record.scoring !in observations {
          return Some(Citations.UnknownScoring(record.id));
        }
        if Citations.Cites(record) && Find(forecasts, record.forecast.value).None? {
          return Some(Citations.UnknownForecast(record.id));
        }
        fault := CheckExplanations(record.id, record.explanations);
        if fault.Some? {
          return;
        }
        stored := stored[record.id := record];
        i := i + 1;
      }
      advice := stored;
      fault := None;
      Kept(was, Citations.SaveAdvice(records));
    }

    method RecordRecommendationOutcome(outcome: Citations.Outcome) returns (fault: Option<Citations.Fault>)
      modifies this`outcomes
      ensures Document() == Citations.Stored(old(Document()), Citations.RecordOutcome(outcome))
      ensures fault.None? <==> Citations.Graded(old(Document()), outcome).Done?
      ensures old(Valid()) ==> Valid()
    {
      ghost var was := Document();
      if outcome.advice !in advice {
        return Some(Citations.UnknownAdvice(outcome.advice));
      }
      if outcome.followed && outcome.actualPoints.None? {
        return Some(Citations.FollowedWithoutPoints(outcome.id));
      }
      fault := None;
      if !exists i | 0 <= i < |outcomes| :: Citations.SameOutcome(outcomes[i], outcome) {
        outcomes := outcomes + [outcome];
      }
      Kept(was, Citations.RecordOutcome(outcome));
    }

    method PruneRecommendations(before: int) returns (removed: nat)
      modifies this`advice, this`outcomes
      ensures Document() == Citations.AdvicePruned(old(Document()), before)
      ensures removed == |Citations.AgedAdvice(old(Document()), before)|
      ensures old(Valid()) ==> Valid()
    {
      removed := 0;
      ghost var was := Document();
      ghost var aged := Citations.AgedAdvice(was, before);
      Citations.ForgottenTwice(was, {}, {});
      var todo := advice.Keys;
      assert aged - todo == {};
      while todo != {}
        invariant todo <= was.advice.Keys
        invariant Document() == Citations.Forgotten(was, aged - todo) && removed == |aged - todo|
        decreases |todo|
      {
        var id :| id in todo;
        GradesSurvive(was, aged - todo, id, before);
        GoneGrows(aged, todo, id);
        if advice[id].generatedAt < before && !Citations.GradedSince(outcomes, id, before) {
          Forget(id);
          Citations.ForgottenTwice(was, aged - todo, {id});
          removed := removed + 1;
        }
        todo := todo - {id};
      }
      assert aged - todo == aged;
      Kept(was, Citations.PruneAdvice(before));
    }

    method Forget(id: Citations.AdviceId)
      modifies this`advice, this`outcomes
      ensures Document() == Citations.Forgotten(old(Document()), {id})
    {
      advice := advice - {id};
      outcomes := Citations.OutcomesBut(outcomes, {id});
    }

    // ----- connected leagues -----

    method ArchiveLeagueConnection(league: LeagueId, reason: string, at: int)
      modifies this`connections
      ensures connections == if league in old(connections) then
        old(connections)[league := Connections.Archived(old(connections)[league], reason, at)] else old(connections)
    {
      if league !in connections || !connections[league].active {
        return;
      }
      connections := connections[league :=
        connections[league].(active := false, archivedAt := Some(at), archivedReason := Some(reason), updatedAt := at,
          nextAttemptAt := None)];
    }

    function Seasons(): map<LeagueId, string>
      reads this`leagues
    {
      map l | l in leagues :: leagues[l].season
    }

    method Relink(league: LeagueId, season: Option<string>, demo: bool, at: int)
      modifies this`connections
      ensures connections == old(connections)[league :=
        Connections.LinkedOne(Connections.Lookup(old(connections), league), season, demo, at)]
    {
      if league !in connections {
        connections := connections[league := Connections.Fresh(demo, season, at)];
        return;
      }
      var existing := connections[league];
      var revive := !existing.active && existing.archivedReason == Some(Connections.UNLINKED);
      existing := existing.(linked := true, demo := demo, updatedAt := at);
      if revive {
        existing := existing.(active := true, archivedAt := None, archivedReason := None);
      }
      connections := connections[league := existing];
    }

    method Unlink(league: LeagueId, at: int)
      requires league in connections
      modifies this`connections
      ensures connections == old(connections)[league := Connections.Unlinked(old(connections)[league], at)]
    {
      var connection := connections[league].(linked := false, updatedAt := at);
      if connection.active {
        connection := connection.(active := false, archivedAt := Some(at), archivedReason := Some(Connections.UNLINKED),
          nextAttemptAt := None);
      }
      connections := connections[league := connection];
    }

    method RelinkAll(linked: set<LeagueId>, seasons: map<LeagueId, string>, demos: set<LeagueId>, at: int)
      modifies this`connections
      ensures connections == Connections.LinkedAmong(old(connections), linked, seasons, demos, at)
    {
      ghost var was := connections;
      var todo := linked;
      assert linked - todo == {};
      while todo != {}
        invariant todo <= linked
        invariant connections == Connections.LinkedAmong(was, linked - todo, seasons, demos, at)
        decreases |todo|
      {
        var league :| league in todo;
        Connections.DoneGrows(linked, todo, league);
        Connections.LinkingStep(was, linked - todo, league, seasons, demos, at);
        Relink(league, Connections.SeasonOf(seasons, league), league in demos, at);
        todo := todo - {league};
      }
      assert linked - todo == linked;
    }

    /** Brings the connections in line with the leagues accounts link. */
    method ReconcileLeagueConnections(at: int, demos: set<LeagueId>)
      modifies this`connections
      ensures connections == Connections.Reconciled(old(connections), accounts, Seasons(), demos, at)
    {
      var linked := Connections.LinkedLeagues(accounts);
      RelinkAll(linked, Seasons(), demos, at);
      UnlinkOthers(linked, at);
    }

    method UnlinkOthers(linked: set<LeagueId>, at: int)
      modifies this`connections
      ensures connections.Keys == old(connections).Keys
      ensures forall l | l in connections :: connections[l] == if l in linked then old(connections)[l]
        else Connections.Unlinked(old(connections)[l], at)
    {
      ghost var was := connections;
      var todo := connections.Keys;
      while todo != {}
        invariant todo <= connections.Keys == was.Keys
        invariant forall l | l in was && (l in linked || l in todo) :: connections[l] == was[l]
        invariant forall l | l in was && l !in linked && l !in todo ::
          connections[l] == Connections.Unlinked(was[l], at)
        decreases |todo|
      {
        var league :| league in todo;
        if league !in linked {
          Unlink(league, at);
        }
        todo := todo - {league};
      }
    }

    /** Removes one league's data and counts what it removes; the outcomes of its advice go with it. */
    method PruneLeague(league: LeagueId) returns (removed: nat)
      modifies this`leagues, this`items, this`weekly, this`freshness, this`snapshots, this`runs
      modifies this`connections, this`scoring, this`rosters, this`advice, this`outcomes
      ensures Shared() == Resources.Dropped(old(Shared()), league) && connections == old(connections) - {league}
      ensures Document() == Citations.LeaguePruned(old(Document()), league)
      ensures removed == (|old(items)| - |items|) + Citations.RemovedWith(old(Document()), league)
      ensures old(Valid()) ==> Valid()
    {
      ghost var was := Document();
      connections := connections - {league};
      var records := DropRecords(league);
      assert Document() == was;
      var history := DropHistory(league);
      removed := records + history;
    }

    /** What synchronization stored of the league. */
    method DropRecords(league: LeagueId) returns (removed: nat)
      modifies this`leagues, this`items, this`weekly, this`freshness, this`snapshots, this`runs
      ensures Shared() == Resources.Dropped(old(Shared()), league) && removed == |old(items)| - |items|
    {
      removed := DropItems(league);
      leagues := leagues - {league};
      weekly := Keep(weekly, Resources.WeeklyOfOther(league));
      freshness := Resources.FreshnessBut(freshness, league);
      snapshots := snapshots - {league};
      runs := Keep(runs, Resources.RunOfOther(league));
    }

    /** The league's roster history, advice and scoring observations. */
    method DropHistory(league: LeagueId) returns (removed: nat)
      modifies this`scoring, this`rosters, this`advice, this`outcomes
      ensures Document() == Citations.LeaguePruned(old(Document()), league)
      ensures removed == Citations.RemovedWith(old(Document()), league)
      ensures old(Valid()) ==> Valid()
    {
      ghost var was := Document();
      var history := |rosters|;
      KeepIsShorter(rosters, Citations.OutsideLeague(league));
      rosters := Keep(rosters, Citations.OutsideLeague(league));
      var gone := set k | k in advice && advice[k].league == league;
      outcomes := Citations.OutcomesBut(outcomes, gone);
      advice := advice - gone;
      removed := (history - |rosters|) + |gone| + |if league in scoring then scoring[league] else []|;
      scoring := scoring - {league};
      Kept(was, Citations.PruneLeague(league));
    }

    method DropItems(league: LeagueId) returns (removed: nat)
      modifies this`items
      ensures items == Resources.ItemsBut(old(items), league) && removed == |old(items)| - |items|
    {
      removed := 0;
      var todo := items.Keys;
      while todo != {}
        invariant todo <= items.Keys <= old(items).Keys
        invariant forall k | k in old(items) :: k in items <==> k in todo || !Resources.BelongsTo(old(items)[k], league)
        invariant forall k | k in items :: items[k] == old(items)[k]
        invariant removed == |old(items)| - |items|
        decreases |todo|
      {
        var k :| k in todo;
        if Resources.BelongsTo(items[k], league) {
          items := items - {k};
          removed := removed + 1;
        }
        todo := todo - {k};
      }
    }
  }

  method CheckExplanations(id: Citations.AdviceId, explanations: seq<Citations.Explanation>)
    returns (fault: Option<Citations.Fault>)
    ensures fault == Citations.ExplanationFault(id, {}, explanations)
  {
    var ordinals := {};
    var i := 0;
    while i < |explanations|
      invariant 0 <= i <= |explanations|
      invariant Citations.ExplanationFault(id, {}, explanations) ==
        Citations.ExplanationFault(id, ordinals, explanations[i..])
    {
      var explanation := explanations[i];
      if explanation.ordinal in ordinals {
        return Some(Citations.RepeatedOrdinal(id));
      }
      ordinals := ordinals + {explanation.ordinal};
      if explanation.coverageGap && explanation.points != 0.0 {
        return Some(Citations.WeightedGap(id));
      }
      i := i + 1;
    }
    fault := None;
  }

  /** Removing other advice's outcomes does not change whether a piece of advice was graded. */
  lemma {:induction false} GradesSurvive(d: Citations.Document, gone: set<Citations.AdviceId>, id: Citations.AdviceId,
          cutoff: int)
    requires id !in gone
    ensures Citations.GradedSince(Citations.Forgotten(d, gone).outcomes, id, cutoff) <==>
      Citations.GradedSince(d.outcomes, id, cutoff)
  {
    var kept := Citations.Forgotten(d, gone).outcomes;
    if Citations.GradedSince(d.outcomes, id, cutoff) {
      var i :| 0 <= i < |d.outcomes| && d.outcomes[i].advice == id && d.outcomes[i].observedAt >= cutoff;
      Citations.OutcomesButHas(d.outcomes, gone, d.outcomes[i]);
      var j :| 0 <= j < |kept| && kept[j] == d.outcomes[i];
    }
    if Citations.GradedSince(kept, id, cutoff) {
      var i :| 0 <= i < |kept| && kept[i].advice == id && kept[i].observedAt >= cutoff;
      Citations.OutcomesButHas(d.outcomes, gone, kept[i]);
    }
  }

  lemma GoneGrows(aged: set<Citations.AdviceId>, todo: set<Citations.AdviceId>, id: Citations.AdviceId)
    requires id in todo
    ensures aged - (todo - {id}) == if id in aged then (aged - todo) + {id} else aged - todo
    ensures |aged - (todo - {id})| == |aged - todo| + if id in aged then 1 else 0
  {
    assert aged - (todo - {id}) == if id in aged then (aged - todo) + {id} else aged - todo;
  }

  lemma AppendedHas(log: Log, o: Observation)
    ensures forall id :: Has(log + [o], id) <==> Has(log, id) || id == o.id
  {
    forall id ensures Has(log + [o], id) <==> Has(log, id) || id == o.id {
      assert (log + [o])[|log|] == o;
      if Has(log, id) {
        var i :| 0 <= i < |log| && log[i].id == id;
        assert (log + [o])[i].id == id;
      }
    }
  }

  /** Counts down each group from the newest, collecting what falls below the ones to keep. */
  method Outranked(sorted: Log, before: int, keep: int, cited: set<ObservationId>) returns (drop: set<ObservationId>)
    ensures drop == DroppedIds(sorted, |sorted|, before, keep, cited)
  {
    drop := {};
    var ranks: map<Group, int> := map[];
    var i := 0;
    while i < |sorted|
      invariant 0 <= i <= |sorted|
      invariant forall g :: CountOf(sorted[..i], g) == if g in ranks then ranks[g] else 0
      invariant drop == DroppedIds(sorted, i, before, keep, cited)
    {
      var o := sorted[i];
      var rank := (if o.group in ranks then ranks[o.group] else 0) + 1;
      ranks := ranks[o.group := rank];
      assert sorted[..i + 1] == sorted[..i] + [o];
      forall g ensures CountOf(sorted[..i + 1], g) == CountOf(sorted[..i], g) + if o.group == g then 1 else 0 {
        CountOfAppend(sorted[..i], o, g);
      }
      if rank > keep && o.ingestedAt < before && o.id !in cited {
        drop := drop + {o.id};
      }
      i := i + 1;
    }
    assert sorted[..|sorted|] == sorted;
  }

  // ----- the lock built on the leases -----

  /** A held lease. Renewing is acquiring again, so it can succeed even after another owner held the lease
      and let it go. */
  class LeaseHandle {
    const key: Key
    const owner: Owner
    const ttlMs: int
    var expiresAt: int

    constructor (key: Key, owner: Owner, ttlMs: int, expiresAt: int)
      ensures this.key == key && this.owner == owner && this.ttlMs == ttlMs && this.expiresAt == expiresAt
    {
      this.key, this.owner, this.ttlMs, this.expiresAt := key, owner, ttlMs, expiresAt;
    }

    method Renew(store: JsonStore, now: int) returns (renewed: bool)
      modifies this`expiresAt, store`leases
      ensures store.leases == Acquired(old(store.leases), key, owner, ttlMs, now)
      ensures renewed <==> !Blocked(old(store.leases), key, owner, now)
      ensures expiresAt == if renewed then now + ttlMs else old(expiresAt)
      ensures renewed ==> store.leases[key].owner == owner && store.leases[key].expiresAt == expiresAt
    {
      var lease := store.AcquireLease(key, owner, ttlMs, now);
      renewed := lease.Some?;
      if renewed {
        expiresAt := lease.value.expiresAt;
      }
    }

    method Release(store: JsonStore)
      modifies store`leases
      ensures store.leases == Released(old(store.leases), key, owner)
    {
      store.ReleaseLease(key, owner);
    }
  }

  method AcquireLock(store: JsonStore, key: Key, owner: Owner, ttlMs: int, now: int) returns (handle: LeaseHandle?)
    modifies store`leases
    ensures store.leases == Acquired(old(store.leases), key, owner, ttlMs, now)
    ensures handle == null <==> Blocked(old(store.leases), key, owner, now)
    ensures handle != null ==> fresh(handle) && handle.key == key && handle.owner == owner && handle.ttlMs == ttlMs
    ensures handle != null ==> handle.expiresAt == now + ttlMs
  {
    var lease := store.AcquireLease(key, owner, ttlMs, now);
    if lease.None? {
      return null;
    }
    handle := new LeaseHandle(key, owner, ttlMs, lease.value.expiresAt);
  }
}
