/** One sweep's decision about which leagues to keep scheduling and which data to keep. */
module RetentionSweep {
  import opened LeagueRules
  import opened Connections
  import opened Store
  import Citations
  import Resources

  datatype Fate = Stays | Archives | Goes

  function FateOf(c: Connection, historical: bool, now: int, r: Retention): Fate {
    if Expendable(c, now, r) then Goes else if c.active && Idle(c, historical, now, r) then Archives else Stays
  }

  /** Scheduled although its season is over and it was last heard from long enough ago. */
  predicate Quiet(c: Connection, historical: bool, now: int, r: Retention) {
    && c.active && historical
    && r.archiveAfterMs <= now - (if c.lastSyncedAt.Some? then c.lastSyncedAt.value else c.createdAt)
  }

  /** Archived long enough ago, and linked by nobody. */
  predicate Stale(c: Connection, now: int, r: Retention) {
    !c.active && !c.linked && c.archivedAt.Some? && r.pruneAfterMs <= now - c.archivedAt.value
  }

  /** Archived now because its season is over. */
  function Retired(c: Connection, now: int): Connection {
    c.(active := false, archivedAt := Some(now), archivedReason := Some("inactive-season"), updatedAt := now,
      nextAttemptAt := None)
  }

  method RetainOne(store: JsonStore, league: Connections.LeagueId, historical: bool, now: int, r: Retention)
    returns (fate: Fate)
    requires league in store.connections
    modifies store`leagues, store`items, store`weekly, store`freshness, store`snapshots, store`runs
    modifies store`connections, store`scoring, store`rosters, store`advice, store`outcomes
    ensures fate == FateOf(old(store.connections)[league], historical, now, r)
    ensures var c := old(store.connections)[league];
      (fate.Archives? <==> Quiet(c, historical, now, r)) && (fate.Goes? <==> Stale(c, now, r))
    ensures store.Document() == if fate.Goes? then Citations.LeaguePruned(old(store.Document()), league)
      else old(store.Document())
    ensures store.Shared() == if fate.Goes? then Resources.Dropped(old(store.Shared()), league) else old(store.Shared())
    ensures fate.Stays? ==> store.connections == old(store.connections)
    ensures fate.Goes? ==> store.connections == old(store.connections) - {league}
    ensures fate.Archives? ==>
      store.connections == old(store.connections)[league := Retired(old(store.connections)[league], now)]
  {
    var connection := store.connections[league];
    if connection.active {
      var idleSince := if connection.lastSyncedAt.Some? then connection.lastSyncedAt.value else connection.createdAt;
      if !historical || now - idleSince < r.archiveAfterMs {
        return Stays;
      }
      store.ArchiveLeagueConnection(league, INACTIVE, now);
      return Archives;
    }
    if connection.linked || connection.archivedAt.None? || now - connection.archivedAt.value < r.pruneAfterMs {
      return Stays;
    }
    var _ := store.PruneLeague(league);
    fate := Goes;
  }

  /** Goes through the connections as they were when it started, archiving and pruning in the store. */
  method ApplyRetention(store: JsonStore, historical: set<Connections.LeagueId>, now: int, r: Retention)
    returns (archived: set<Connections.LeagueId>, pruned: set<Connections.LeagueId>)
    modifies store`leagues, store`items, store`weekly, store`freshness, store`snapshots, store`runs
    modifies store`connections, store`scoring, store`rosters, store`advice, store`outcomes
    ensures store.connections == Retained(old(store.connections), historical, now, r)
    ensures archived == ToArchive(old(store.connections), historical, now, r)
    ensures pruned == ToPrune(old(store.connections), now, r)
    ensures forall l :: l in archived <==>
      (l in old(store.connections) && Quiet(old(store.connections)[l], l in historical, now, r))
    ensures forall l :: l in pruned <==>
      (l in old(store.connections) && Stale(old(store.connections)[l], now, r))
    ensures store.connections.Keys == old(store.connections).Keys - pruned
    ensures forall l | l in store.connections && l in archived ::
      store.connections[l] == Retired(old(store.connections)[l], now)
    ensures forall l | l in store.connections && l !in archived :: store.connections[l] == old(store.connections)[l]
    ensures store.Document() == Citations.LeaguesPruned(old(store.Document()), pruned)
    ensures store.Shared() == Resources.DroppedAll(old(store.Shared()), pruned)
  {
    archived, pruned := {}, {};
    ghost var was, doc, shared := store.connections, store.Document(), store.Shared();
    Citations.NoLeaguesPruned(doc);
    Resources.NoneDropped(shared);
    var todo := store.connections.Keys;
    assert was.Keys - todo == {};
    while todo != {}
      invariant todo <= was.Keys
      invariant store.connections == RetainedAmong(was, was.Keys - todo, historical, now, r)
      invariant forall l :: l in archived <==>
        l in was && l !in todo && FateOf(was[l], l in historical, now, r).Archives?
      invariant forall l :: l in pruned <==> l in was && l !in todo && FateOf(was[l], l in historical, now, r).Goes?
      invariant store.Document() == Citations.LeaguesPruned(doc, pruned)
      invariant store.Shared() == Resources.DroppedAll(shared, pruned)
      decreases |todo|
    {
      var league :| league in todo;
      DoneGrows(was.Keys, todo, league);
      RetentionStep(was, was.Keys - todo, league, historical, now, r);
      var fate := RetainOne(store, league, league in historical, now, r);
      todo := todo - {league};
      if fate.Archives? {
        archived := archived + {league};
      } else if fate.Goes? {
        Citations.LeaguesPrunedGrow(doc, pruned, league);
        Resources.DroppedGrow(shared, pruned, league);
        pruned := pruned + {league};
      }
    }
    assert was.Keys - todo == was.Keys;
  }

  lemma {:induction false} RetentionStep(t: Table, done: set<Connections.LeagueId>, league: Connections.LeagueId,
          historical: set<Connections.LeagueId>, now: int, r: Retention)
    requires league in t && league !in done
    ensures var before := RetainedAmong(t, done, historical, now, r);
      var after := RetainedAmong(t, done + {league}, historical, now, r);
      && league in before && before[league] == t[league]
      && after == match FateOf(t[league], league in historical, now, r)
                  case Stays => before
                  case Archives => before[league := Archived(t[league], INACTIVE, now)]
                  case Goes => before - {league}
  {
  }

  /** Reconcile, then apply retention: the first half of every sweep. A league that an account links keeps
      its connection, everything readers see of it, and all its scoring observations, roster history, advice
      and outcomes; no forecast goes; and what stays active is linked. */
  method Sweep(store: JsonStore, demos: set<Connections.LeagueId>, historical: set<Connections.LeagueId>, now: int,
          r: Retention)
    returns (archived: set<Connections.LeagueId>, pruned: set<Connections.LeagueId>)
    modifies store`leagues, store`items, store`weekly, store`freshness, store`snapshots, store`runs
    modifies store`connections, store`scoring, store`rosters, store`advice, store`outcomes
    ensures store.connections ==
      Swept(old(store.connections), old(store.accounts), old(store.Seasons()), demos, historical, now, r)
    ensures store.Document() == Citations.LeaguesPruned(old(store.Document()), pruned)
    ensures store.Shared() == Resources.DroppedAll(old(store.Shared()), pruned)
    ensures forall l | Linked(store.accounts, l) :: l !in pruned && l in store.connections
    ensures forall l | Linked(store.accounts, l) :: Citations.Untouched(old(store.Document()), store.Document(), l)
    ensures forall l | Linked(store.accounts, l) :: Resources.Untouched(old(store.Shared()), store.Shared(), l)
    ensures forall l | l in store.connections && store.connections[l].active :: Linked(store.accounts, l)
    ensures forall l ::
      SweptRight(old(store.connections), store.connections, store.accounts, historical, now, r, l)
    ensures forall l :: l in archived <==>
      (Linked(store.accounts, l) && Retires(Lookup(old(store.connections), l), l in historical, now, r))
    ensures forall l :: l in pruned <==>
      (!Linked(store.accounts, l) && l in old(store.connections) && Forgotten(old(store.connections)[l], now, r))
  {
    ghost var was, seasons := store.connections, store.Seasons();
    store.ReconcileLeagueConnections(now, demos);
    archived, pruned := ApplyRetention(store, historical, now, r);
    forall l
      ensures Linked(store.accounts, l) ==> l !in pruned && l in store.connections
      ensures l in store.connections && store.connections[l].active ==> Linked(store.accounts, l)
    {
      ReconciledAgrees(was, store.accounts, seasons, demos, now, l);
      SweepSparesLinked(was, store.accounts, seasons, demos, historical, now, r, l);
    }
    forall l
      ensures SweptRight(was, store.connections, store.accounts, historical, now, r, l)
      ensures l in archived <==> Linked(store.accounts, l) && Retires(Lookup(was, l), l in historical, now, r)
      ensures l in pruned <==> !Linked(store.accounts, l) && l in was && Forgotten(was[l], now, r)
    {
      SweepIsRight(was, store.accounts, seasons, demos, historical, now, r, l);
    }
    forall l | Linked(store.accounts, l)
      ensures Citations.Untouched(old(store.Document()), store.Document(), l) &&
        Resources.Untouched(old(store.Shared()), store.Shared(), l)
    {
      Citations.OthersUntouched(old(store.Document()), pruned, l);
      Resources.OthersUntouched(old(store.Shared()), pruned, l);
    }
  }
}
