/** The leagues connected for synchronization: bringing them in line with what accounts link, and
    archiving and pruning the ones that can no longer change. */
module Connections {
  import opened LeagueRules

  type LeagueId = string
  type UserId = string

  const UNLINKED := "unlinked"
  const INACTIVE := "inactive-season"

  /** active is the status; the rest of a connection's fields do not bear on what is modelled. */
  datatype Connection = Connection(demo: bool, active: bool, linked: bool, season: Option<string>, createdAt: int,
                                   updatedAt: int, archivedAt: Option<int>, archivedReason: Option<string>,
                                   lastSyncedAt: Option<int>, nextAttemptAt: Option<int>)

  type Table = map<LeagueId, Connection>

  /** The leagues each account links. */
  type Accounts = map<UserId, set<LeagueId>>

  predicate Linked(accounts: Accounts, league: LeagueId) {
    exists u | u in accounts :: league in accounts[u]
  }

  function LinkedLeagues(accounts: Accounts): set<LeagueId> {
    set u, l | u in accounts && l in accounts[u] :: l
  }

  function Fresh(demo: bool, season: Option<string>, at: int): Connection {
    Connection(demo, true, true, season, at, at, None, None, None, None)
  }

  /** A league some account links: only one archived for being unlinked is revived. */
  function Relinked(c: Connection, demo: bool, at: int): Connection {
    var c' := c.(linked := true, demo := demo, updatedAt := at);
    if !c.active && c.archivedReason == Some(UNLINKED) then
      c'.(active := true, archivedAt := None, archivedReason := None)
    else c'
  }

  function Archived(c: Connection, reason: string, at: int): Connection {
    if !c.active then c
    else c.(active := false, archivedAt := Some(at), archivedReason := Some(reason), updatedAt := at,
      nextAttemptAt := None)
  }

  /** A league no account links any more. */
  function Unlinked(c: Connection, at: int): Connection {
    Archived(c.(linked := false, updatedAt := at), UNLINKED, at)
  }

  function SeasonOf(seasons: map<LeagueId, string>, league: LeagueId): Option<string> {
    if league in seasons then Some(seasons[league]) else None
  }

  function Lookup(t: Table, league: LeagueId): Option<Connection> {
    if league in t then Some(t[league]) else None
  }

  function LinkedOne(existing: Option<Connection>, season: Option<string>, demo: bool, at: int): Connection {
    if existing.Some? then Relinked(existing.value, demo, at) else Fresh(demo, season, at)
  }

  /** What is done grows by what leaves the rest to do. */
  lemma DoneGrows(all: set<LeagueId>, todo: set<LeagueId>, league: LeagueId)
    requires league in todo && todo <= all
    ensures all - (todo - {league}) == (all - todo) + {league}
  {
  }

  /** The first pass, over some of the linked leagues. */
  function LinkedAmong(t: Table, done: set<LeagueId>, seasons: map<LeagueId, string>, demos: set<LeagueId>,
          at: int): Table
  {
    map l | l in t.Keys + done ::
      if l in done then LinkedOne(Lookup(t, l), SeasonOf(seasons, l), l in demos, at) else t[l]
  }

  lemma {:induction false} LinkingStep(t: Table, done: set<LeagueId>, league: LeagueId, seasons: map<LeagueId, string>,
          demos: set<LeagueId>, at: int)
    requires league !in done
    ensures var before := LinkedAmong(t, done, seasons, demos, at);
      && Lookup(before, league) == Lookup(t, league)
      && LinkedAmong(t, done + {league}, seasons, demos, at) ==
        before[league := LinkedOne(Lookup(t, league), SeasonOf(seasons, league), league in demos, at)]
  {
  }

  function Reconciled(t: Table, accounts: Accounts, seasons: map<LeagueId, string>, demos: set<LeagueId>,
          at: int): Table
  {
    var linked := LinkedLeagues(accounts);
    var first := LinkedAmong(t, linked, seasons, demos, at);
    map l | l in first :: if l in linked then first[l] else Unlinked(first[l], at)
  }

  // ----- retention -----

  datatype Retention = Retention(archiveAfterMs: int, pruneAfterMs: int)

  /** Its season is over, and it has not been synchronized for long enough. */
  predicate Idle(c: Connection, historical: bool, now: int, r: Retention) {
    historical && now - (if c.lastSyncedAt.Some? then c.lastSyncedAt.value else c.createdAt) >= r.archiveAfterMs
  }

  predicate Expendable(c: Connection, now: int, r: Retention) {
    !c.active && !c.linked && c.archivedAt.Some? && now - c.archivedAt.value >= r.pruneAfterMs
  }

  function ToArchive(t: Table, historical: set<LeagueId>, now: int, r: Retention): set<LeagueId> {
    set l | l in t && t[l].active && Idle(t[l], l in historical, now, r)
  }

  function ToPrune(t: Table, now: int, r: Retention): set<LeagueId> {
    set l | l in t && Expendable(t[l], now, r)
  }

  /** Retention applied to some of the leagues. */
  function RetainedAmong(t: Table, done: set<LeagueId>, historical: set<LeagueId>, now: int, r: Retention): Table {
    map l | l in t && !(l in done && Expendable(t[l], now, r)) ::
      if l in done && t[l].active && Idle(t[l], l in historical, now, r) then Archived(t[l], INACTIVE, now) else t[l]
  }

  function Retained(t: Table, historical: set<LeagueId>, now: int, r: Retention): Table {
    RetainedAmong(t, t.Keys, historical, now, r)
  }

  function Swept(t: Table, accounts: Accounts, seasons: map<LeagueId, string>, demos: set<LeagueId>,
          historical: set<LeagueId>, now: int, r: Retention): Table
  {
    Retained(Reconciled(t, accounts, seasons, demos, now), historical, now, r)
  }

  // ----- what a sweep promises -----

  lemma {:induction false} LinkedMeansLinked(accounts: Accounts, l: LeagueId)
    ensures l in LinkedLeagues(accounts) <==> Linked(accounts, l)
  {
  }

  /** The same connection but for the time it was last touched. */
  predicate SameButTouched(a: Connection, b: Connection) {
    a.(updatedAt := 0) == b.(updatedAt := 0)
  }

  lemma {:induction false} ReconciledAt(t: Table, accounts: Accounts, seasons: map<LeagueId, string>,
          demos: set<LeagueId>, at: int, l: LeagueId)
    ensures Lookup(Reconciled(t, accounts, seasons, demos, at), l) ==
      if l in LinkedLeagues(accounts) then Some(LinkedOne(Lookup(t, l), SeasonOf(seasons, l), l in demos, at))
      else if l in t then Some(Unlinked(t[l], at))
      else None
  {
  }

  /** Reconciling twice, at any two times, is reconciling once, apart from the touched time. */
  lemma {:induction false} ReconcilingTwice(t: Table, accounts: Accounts, seasons: map<LeagueId, string>,
          demos: set<LeagueId>, at: int, later: int, l: LeagueId)
    ensures var once := Reconciled(t, accounts, seasons, demos, at);
      var twice := Reconciled(once, accounts, seasons, demos, later);
      (l in twice <==> l in once) && (l in once ==> SameButTouched(once[l], twice[l]))
  {
    var once := Reconciled(t, accounts, seasons, demos, at);
    ReconciledAt(t, accounts, seasons, demos, at, l);
    ReconciledAt(once, accounts, seasons, demos, later, l);
  }

  /** Reconciling makes the linked flags right and leaves no unlinked connection active. It keeps every
      connection, and takes a league back only from being unlinked. */
  lemma {:induction false} ReconciledAgrees(t: Table, accounts: Accounts, seasons: map<LeagueId, string>,
          demos: set<LeagueId>, at: int, l: LeagueId)
    ensures var t' := Reconciled(t, accounts, seasons, demos, at);
      && (l in t' <==> l in t || Linked(accounts, l))
      && (l in t' ==> (t'[l].linked <==> Linked(accounts, l)) && (t'[l].active ==> t'[l].linked))
      && (l in t && l in t' && t'[l].active && !t[l].active ==> t[l].archivedReason == Some(UNLINKED))
      && (l in t' ==> t'[l].updatedAt == at && t'[l].demo == (if Linked(accounts, l) then l in demos else t[l].demo))
      && (l in t' ==> t'[l].season == if l in t then t[l].season else SeasonOf(seasons, l))
  {
    LinkedMeansLinked(accounts, l);
  }

  /** A sweep never removes a league that any account links, leaves only linked connections active, and
      removes only what was archived, unlinked, long enough ago. */
  lemma {:induction false} SweepSparesLinked(t: Table, accounts: Accounts, seasons: map<LeagueId, string>,
          demos: set<LeagueId>, historical: set<LeagueId>, now: int, r: Retention, l: LeagueId)
    ensures var t' := Swept(t, accounts, seasons, demos, historical, now, r);
      && (Linked(accounts, l) ==> l in t')
      && (l in t' && t'[l].active ==> Linked(accounts, l))
      && (l in t && l !in t' && 0 < r.pruneAfterMs ==>
        !Linked(accounts, l) && !t[l].active && t[l].archivedAt.Some? && now - t[l].archivedAt.value >= r.pruneAfterMs)
  {
    ReconciledAgrees(t, accounts, seasons, demos, now, l);
  }

  /** When a league with this connection, or with none so far, was last heard from. */
  function HeardAt(existing: Option<Connection>, now: int): int {
    if existing.None? then now
    else if existing.value.lastSyncedAt.Some? then existing.value.lastSyncedAt.value
    else existing.value.createdAt
  }

  /** Retiring: a linked league that is scheduled, or is taken back from being unlinked, but whose season is
      over and that has been quiet for long enough. */
  predicate Retires(existing: Option<Connection>, historical: bool, now: int, r: Retention) {
    && (existing.Some? ==> existing.value.active || existing.value.archivedReason == Some("unlinked"))
    && historical && r.archiveAfterMs <= now - HeardAt(existing, now)
  }

  /** Forgotten: an unlinked league that has been archived for long enough. One that was active until now
      is archived now. */
  predicate Forgotten(c: Connection, now: int, r: Retention) {
    if c.active then r.pruneAfterMs <= 0 else c.archivedAt.Some? && r.pruneAfterMs <= now - c.archivedAt.value
  }

  /** What a sweep makes of the connection of a linked league, and of an unlinked one that it keeps. */
  predicate SweptLinked(existing: Option<Connection>, c: Connection, now: int, retires: bool) {
    && c.linked
    && (retires ==>
      !c.active && c.archivedReason == Some("inactive-season") && c.archivedAt == Some(now) && c.nextAttemptAt == None)
    && (c.active && existing.Some? && !existing.value.active ==> c.archivedReason == None && c.archivedAt == None)
    && (!retires && (existing.Some? ==> existing.value.active || existing.value.archivedReason == Some("unlinked")) ==>
      c.active)
    && (existing.Some? && !existing.value.active && existing.value.archivedReason != Some("unlinked") ==>
      !c.active && c.archivedReason == existing.value.archivedReason && c.archivedAt == existing.value.archivedAt)
    && c.createdAt == (if existing.Some? then existing.value.createdAt else now)
    && c.lastSyncedAt == (if existing.Some? then existing.value.lastSyncedAt else None)
  }

  predicate SweptUnlinked(existing: Connection, c: Connection, now: int) {
    && !c.linked && !c.active && c.createdAt == existing.createdAt && c.lastSyncedAt == existing.lastSyncedAt
    && c.archivedAt == (if existing.active then Some(now) else existing.archivedAt)
    && c.archivedReason == (if existing.active then Some("unlinked") else existing.archivedReason)
  }

  /** What a sweep does to each league. */
  ghost predicate SweptRight(t: Table, t': Table, accounts: Accounts, historical: set<LeagueId>, now: int, r: Retention,
          l: LeagueId)
  {
    if Linked(accounts, l) then
      l in t' && SweptLinked(Lookup(t, l), t'[l], now, Retires(Lookup(t, l), l in historical, now, r))
    else
      && (l in t' <==> l in t && !Forgotten(t[l], now, r))
      && (l in t && l in t' ==> SweptUnlinked(t[l], t'[l], now))
  }

  lemma {:induction false} SweepIsRight(t: Table, accounts: Accounts, seasons: map<LeagueId, string>,
          demos: set<LeagueId>, historical: set<LeagueId>, now: int, r: Retention, l: LeagueId)
    ensures SweptRight(t, Swept(t, accounts, seasons, demos, historical, now, r), accounts, historical, now, r, l)
    ensures var reconciled := Reconciled(t, accounts, seasons, demos, now);
      && (l in ToArchive(reconciled, historical, now, r) <==>
        Linked(accounts, l) && Retires(Lookup(t, l), l in historical, now, r))
      && (l in ToPrune(reconciled, now, r) <==> !Linked(accounts, l) && l in t && Forgotten(t[l], now, r))
  {
    ReconciledAt(t, accounts, seasons, demos, now, l);
    LinkedMeansLinked(accounts, l);
    RetainedAt(Reconciled(t, accounts, seasons, demos, now), historical, now, r, l);
  }

  lemma {:induction false} RetainedAt(t: Table, historical: set<LeagueId>, now: int, r: Retention, l: LeagueId)
    ensures Lookup(Retained(t, historical, now, r), l) ==
      if l !in t || Expendable(t[l], now, r) then None
      else if t[l].active && Idle(t[l], l in historical, now, r) then Some(Archived(t[l], INACTIVE, now))
      else Some(t[l])
  {
  }

  /** A league without a connection gets one, active and unlinked. */
  function Attempted(existing: Option<Connection>, at: int, synced: bool, nextAttemptAt: Option<int>): Connection {
    var c := if existing.Some? then existing.value else Fresh(false, None, at).(linked := false);
    c.(updatedAt := at, nextAttemptAt := nextAttemptAt, lastSyncedAt := if synced then Some(at) else c.lastSyncedAt)
  }

  /** A synchronization keeps a scheduled league from being retired until the archiving time is over again; a
      failed attempt changes nothing about when it is retired. */
  lemma {:induction false} AttemptsAndRetiring(c: Connection, at: int, nextAttemptAt: Option<int>, historical: bool,
          now: int, r: Retention)
    ensures Retires(Some(Attempted(Some(c), at, true, nextAttemptAt)), historical, now, r) <==>
      historical && r.archiveAfterMs <= now - at && (c.active || c.archivedReason == Some("unlinked"))
    ensures Retires(Some(Attempted(Some(c), at, false, nextAttemptAt)), historical, now, r) <==>
      Retires(Some(c), historical, now, r)
  {
  }

  // ----- a sweep while jobs go on -----

  /** The sweep works from the connections as they were when it had reconciled them, while jobs record
      their attempts in the store. data are the leagues with stored data; attempted and pruned are
      history. */
  datatype Sweeping = Sweeping(snapshot: Table, table: Table, data: set<LeagueId>, attempted: set<LeagueId>,
          pruned: set<LeagueId>)

  datatype Event =
    | Decide(league: LeagueId)
    | Attempt(league: LeagueId, at: int, synced: bool, nextAttemptAt: Option<int>)

  function Begun(t: Table, accounts: Accounts, seasons: map<LeagueId, string>, demos: set<LeagueId>,
          data: set<LeagueId>, now: int): Sweeping
  {
    var reconciled := Reconciled(t, accounts, seasons, demos, now);
    Sweeping(reconciled, reconciled, data, {}, {})
  }

  /** Decisions are on the snapshot; archiving and pruning act on the store. */
  function Next(s: Sweeping, e: Event, historical: set<LeagueId>, now: int, r: Retention): Sweeping {
    match e
    case Decide(l) =>
      if l !in s.snapshot then s
      else if Expendable(s.snapshot[l], now, r) then
        s.(table := s.table - {l}, data := s.data - {l}, pruned := s.pruned + {l})
      else if s.snapshot[l].active && Idle(s.snapshot[l], l in historical, now, r) && l in s.table then
        s.(table := s.table[l := Archived(s.table[l], INACTIVE, now)])
      else s
    case Attempt(l, at, synced, next) =>
      s.(table := s.table[l := Attempted(Lookup(s.table, l), at, synced, next)], attempted := s.attempted + {l})
  }

  /** Left alone by jobs, a decision does to its league what retention does. */
  lemma {:induction false} DecideRetains(s: Sweeping, l: LeagueId, historical: set<LeagueId>, now: int, r: Retention,
          k: LeagueId)
    requires l in s.snapshot && Lookup(s.table, l) == Lookup(s.snapshot, l)
    ensures var s' := Next(s, Decide(l), historical, now, r);
      && Lookup(s'.table, k) == Lookup(if k == l then Retained(s.snapshot, historical, now, r) else s.table, k)
      && s'.data == (if Expendable(s.snapshot[l], now, r) then s.data - {l} else s.data)
  {
    RetainedAt(s.snapshot, historical, now, r, l);
  }

  function NextAll(s: Sweeping, events: seq<Event>, historical: set<LeagueId>, now: int, r: Retention): Sweeping
    decreases |events|
  {
    if events == [] then s else NextAll(Next(s, events[0], historical, now, r), events[1..], historical, now, r)
  }

  /** Linked flags stay right, linked leagues stay whole, and an unlinked connection is active only if a job
      recorded an attempt for it. */
  ghost predicate Safe(s: Sweeping, accounts: Accounts, data: set<LeagueId>) {
    && (forall l | l in s.snapshot :: s.snapshot[l].linked <==> Linked(accounts, l))
    && (forall l | l in s.table :: s.table[l].linked <==> Linked(accounts, l))
    && (forall l | Linked(accounts, l) :: l in s.table && l !in s.pruned && (l in data ==> l in s.data))
    && (forall l | l in s.table && s.table[l].active && !s.table[l].linked :: l in s.attempted)
  }

  lemma {:induction false} StepKeepsSafe(s: Sweeping, e: Event, accounts: Accounts, data: set<LeagueId>,
          historical: set<LeagueId>, now: int, r: Retention)
    requires Safe(s, accounts, data)
    ensures Safe(Next(s, e, historical, now, r), accounts, data)
  {
  }

  lemma {:induction false} RunKeepsSafe(s: Sweeping, events: seq<Event>, accounts: Accounts, data: set<LeagueId>,
          historical: set<LeagueId>, now: int, r: Retention)
    requires Safe(s, accounts, data)
    ensures Safe(NextAll(s, events, historical, now, r), accounts, data)
    decreases |events|
  {
    if events != [] {
      StepKeepsSafe(s, events[0], accounts, data, historical, now, r);
      RunKeepsSafe(Next(s, events[0], historical, now, r), events[1..], accounts, data, historical, now, r);
    }
  }

  /** However jobs' attempts come between its decisions, a sweep never removes a league that any account
      links, nor its data, and what it leaves active without being linked some job has just attempted. */
  lemma {:induction false} SweepIsSafeAmidJobs(t: Table, accounts: Accounts, seasons: map<LeagueId, string>,
          demos: set<LeagueId>, data: set<LeagueId>, events: seq<Event>, historical: set<LeagueId>, now: int,
          r: Retention, l: LeagueId)
    ensures var s := NextAll(Begun(t, accounts, seasons, demos, data, now), events, historical, now, r);
      && (Linked(accounts, l) ==> l in s.table && l !in s.pruned && (l in data ==> l in s.data))
      && (l in s.table && s.table[l].active ==> Linked(accounts, l) || l in s.attempted)
  {
    var begun := Begun(t, accounts, seasons, demos, data, now);
    forall k ensures Linked(accounts, k) ==> k in begun.table {
      ReconciledAgrees(t, accounts, seasons, demos, now, k);
    }
    forall k | k in begun.table
      ensures (begun.table[k].linked <==> Linked(accounts, k)) && (begun.table[k].active ==> begun.table[k].linked)
    {
      ReconciledAgrees(t, accounts, seasons, demos, now, k);
    }
    RunKeepsSafe(begun, events, accounts, data, historical, now, r);
  }
}
