/** Refreshing the shared player directory. Any number of processes run the refresh; each is a sequence
    of separate store operations that another process, or a crash, can come between. Clocks agree: one
    clock serves every process, and it never goes back. */
module PlayerDirectory {
  import opened Basics
  import opened LeagueRules
  import opened Leases

  const REFRESH_MS := 24 * 3_600_000
  const RETRY_MS := 3_600_000
  const LEASE_MS := 5 * 60_000
  const KEY := PlayerList

  /** Where a refresh stands. From Leased to Leaving it is inside its lease. */
  datatype Point = Begun | Due | Leased | Confirmed | Cooled | Fetching | Leaving | Over

  /** startedAt is the time the refresh read once, at its very beginning, and uses throughout. */
  datatype Refresh = Refresh(at: Point, startedAt: int)

  /** An upstream fetch: the time its refresh had read, and when it really went out. */
  datatype Fetch = Fetch(startedAt: int, sentAt: int)

  datatype Outcome = Stored | Failed(retryAfterMs: int)

  /** How a refresh ended. */
  datatype Done = Done(startedAt: int, outcome: Outcome)

  /** nextAttemptAt is the stored cooldown, absent in a new store; fetches and done record history. */
  datatype World = World(clock: int, leases: LeaseTable, nextAttemptAt: Option<int>, refreshes: map<Owner, Refresh>,
                         fetches: seq<Fetch>, done: seq<Done>)

  datatype Event =
    | Tick(ms: nat)
    | Begin(owner: Owner)
    | ReadCooldown(owner: Owner)
    | TakeLease(owner: Owner)
    | ReadAgain(owner: Owner)
    | SaveCooldown(owner: Owner)
    | SendFetch(owner: Owner)
    | SaveOutcome(owner: Owner, outcome: Outcome)
    | GiveBack(owner: Owner)
    | Crash(owner: Owner)

  predicate At(w: World, owner: Owner, point: Point) {
    owner in w.refreshes && w.refreshes[owner].at == point
  }

  /** The refresh is still inside the five minutes its lease lasts. */
  predicate InTime(w: World, owner: Owner) {
    owner in w.refreshes && w.clock < w.refreshes[owner].startedAt + LEASE_MS
  }

  predicate Possible(w: World, e: Event) {
    match e
    case Tick(_) => true
    case Begin(owner) => owner !in w.refreshes
    case ReadCooldown(owner) => At(w, owner, Begun)
    case TakeLease(owner) => At(w, owner, Due)
    case ReadAgain(owner) => At(w, owner, Leased)
    case SaveCooldown(owner) => At(w, owner, Confirmed)
    case SendFetch(owner) => At(w, owner, Cooled)
    case SaveOutcome(owner, _) => At(w, owner, Fetching)
    case GiveBack(owner) => At(w, owner, Leaving)
    case Crash(owner) => owner in w.refreshes
  }

  /** A step of a refresh that holds its lease comes within it. */
  predicate Prompt(w: World, e: Event) {
    e.ReadAgain? || e.SaveCooldown? || e.SendFetch? || e.SaveOutcome? || e.GiveBack? ==> InTime(w, e.owner)
  }

  /** A refresh that outlives its lease is not part of the main claim: past that time it can only crash. */
  predicate Enabled(w: World, e: Event) {
    Possible(w, e) && Prompt(w, e)
  }

  function Moved(w: World, owner: Owner, point: Point): World
    requires owner in w.refreshes
  {
    w.(refreshes := w.refreshes[owner := w.refreshes[owner].(at := point)])
  }

  predicate CoolingDown(w: World, now: int) {
    w.nextAttemptAt.Some? && w.nextAttemptAt.value > now
  }

  function NextAttempt(startedAt: int, outcome: Outcome): int {
    match outcome
    case Stored => startedAt + REFRESH_MS
    case Failed(retryAfterMs) => startedAt + Max(RETRY_MS, retryAfterMs)
  }

  function Next(w: World, e: Event): World
    requires Possible(w, e)
  {
    match e
    case Tick(ms) => w.(clock := w.clock + ms)
    case Begin(owner) => w.(refreshes := w.refreshes[owner := Refresh(Begun, w.clock)])
    case ReadCooldown(owner) => Moved(w, owner, if CoolingDown(w, w.refreshes[owner].startedAt) then Over else Due)
    case TakeLease(owner) =>
      var now := w.refreshes[owner].startedAt;
      if Blocked(w.leases, KEY, owner, now) then Moved(w, owner, Over)
      else Moved(w, owner, Leased).(leases := Acquired(w.leases, KEY, owner, LEASE_MS, now))
    case ReadAgain(owner) => Moved(w, owner, if CoolingDown(w, w.refreshes[owner].startedAt) then Leaving
      else Confirmed)
    case SaveCooldown(owner) => Moved(w, owner, Cooled).(nextAttemptAt := Some(w.refreshes[owner].startedAt + RETRY_MS))
    case SendFetch(owner) =>
      Moved(w, owner, Fetching).(fetches := w.fetches + [Fetch(w.refreshes[owner].startedAt, w.clock)])
    case SaveOutcome(owner, outcome) =>
      Moved(w, owner, Leaving).(nextAttemptAt := Some(NextAttempt(w.refreshes[owner].startedAt, outcome)),
        done := w.done + [Done(w.refreshes[owner].startedAt, outcome)])
    case GiveBack(owner) => Moved(w, owner, Over).(leases := Released(w.leases, KEY, owner))
    case Crash(owner) => Moved(w, owner, Over)
  }

  ghost predicate Leads(w: World, events: seq<Event>, w': World)
    decreases |events|
  {
    if events == [] then w' == w else Enabled(w, events[0]) && Leads(Next(w, events[0]), events[1..], w')
  }

  // ----- what every step keeps -----

  predicate Inside(r: Refresh) {
    r.at.Leased? || r.at.Confirmed? || r.at.Cooled? || r.at.Fetching? || r.at.Leaving?
  }

  predicate Active(w: World, owner: Owner) {
    owner in w.refreshes && Inside(w.refreshes[owner]) && InTime(w, owner)
  }

  ghost predicate ClockAhead(w: World) {
    forall o | o in w.refreshes :: w.refreshes[o].startedAt <= w.clock
  }

  /** An active refresh owns the lease, so there is at most one. */
  ghost predicate LeaseHeld(w: World) {
    forall o | Active(w, o) ::
      KEY in w.leases && w.leases[KEY].owner == o && w.leases[KEY].expiresAt == w.refreshes[o].startedAt + LEASE_MS
  }

  ghost predicate FetchesBefore(w: World, limit: int) {
    forall i | 0 <= i < |w.fetches| :: w.fetches[i].startedAt <= limit
  }

  /** Long enough after a refresh for the next: a day after one that stored the directory; after a failed one
      an hour, and as long as the upstream asked for. */
  predicate Rested(d: Done, at: int) {
    match d.outcome
    case Stored => d.startedAt + 24 * 3_600_000 <= at
    case Failed(retryAfterMs) => d.startedAt + 3_600_000 <= at && d.startedAt + retryAfterMs <= at
  }

  ghost predicate AllRested(w: World, at: int) {
    forall k | 0 <= k < |w.done| :: Rested(w.done[k], at)
  }

  /** The stored cooldown covers every fetch there has been, and every outcome. */
  ghost predicate CooldownCovers(w: World) {
    && (w.fetches == [] || (w.nextAttemptAt.Some? && FetchesBefore(w, w.nextAttemptAt.value - RETRY_MS)))
    && (w.done == [] || (w.nextAttemptAt.Some? && AllRested(w, w.nextAttemptAt.value)))
  }

  /** Whoever may still fetch is far enough from all earlier fetches. */
  ghost predicate MayFetch(w: World, o: Owner)
    requires o in w.refreshes
  {
    match w.refreshes[o].at
    case Confirmed =>
      FetchesBefore(w, w.refreshes[o].startedAt - RETRY_MS) && AllRested(w, w.refreshes[o].startedAt)
    case Cooled =>
      && w.nextAttemptAt == Some(w.refreshes[o].startedAt + RETRY_MS)
      && FetchesBefore(w, w.refreshes[o].startedAt - RETRY_MS) && AllRested(w, w.refreshes[o].startedAt)
    case Fetching => FetchesBefore(w, w.refreshes[o].startedAt) && AllRested(w, w.refreshes[o].startedAt)
    case _ => true
  }

  ghost predicate Cautious(w: World) {
    forall o | Active(w, o) :: MayFetch(w, o)
  }

  ghost predicate Spaced(fetches: seq<Fetch>) {
    forall i, j | 0 <= i < j < |fetches| :: fetches[i].startedAt + RETRY_MS <= fetches[j].startedAt
  }

  /** Every fetch belongs to a refresh that started long enough after all that ended before it. */
  ghost predicate WellRested(w: World) {
    forall k, j | 0 <= k < |w.done| && 0 <= j < |w.fetches| && w.done[k].startedAt < w.fetches[j].startedAt ::
      Rested(w.done[k], w.fetches[j].startedAt)
  }

  ghost predicate SentInTime(fetches: seq<Fetch>) {
    forall i | 0 <= i < |fetches| :: fetches[i].startedAt <= fetches[i].sentAt < fetches[i].startedAt + LEASE_MS
  }

  ghost predicate Sound(w: World) {
    && ClockAhead(w)
    && LeaseHeld(w)
    && CooldownCovers(w)
    && Cautious(w)
    && Spaced(w.fetches)
    && SentInTime(w.fetches)
    && WellRested(w)
  }

  lemma {:induction false} OnlyOneActive(w: World, a: Owner, b: Owner)
    requires LeaseHeld(w) && Active(w, a) && Active(w, b)
    ensures a == b
  {
  }

  /** No other refresh can take or give back an active refresh's lease. */
  lemma {:induction false} StepKeepsLeaseHeld(w: World, e: Event)
    requires ClockAhead(w) && LeaseHeld(w) && Enabled(w, e)
    ensures ClockAhead(Next(w, e)) && LeaseHeld(Next(w, e))
  {
    var w' := Next(w, e);
    forall o | Active(w', o)
      ensures KEY in w'.leases && w'.leases[KEY].owner == o
      ensures w'.leases[KEY].expiresAt == w'.refreshes[o].startedAt + LEASE_MS
    {
      if e != TakeLease(o) { assert Active(w, o); }
    }
  }

  lemma {:induction false} StepKeepsCooldown(w: World, e: Event)
    requires Sound(w) && Enabled(w, e)
    ensures CooldownCovers(Next(w, e))
  {
    match e
    case SaveCooldown(owner) => assert Active(w, owner) && MayFetch(w, owner);
    case SaveOutcome(owner, _) => assert Active(w, owner) && MayFetch(w, owner);
    case SendFetch(owner) => assert Active(w, owner) && MayFetch(w, owner);
    case _ =>
  }

  lemma {:induction false} StepKeepsSpaced(w: World, e: Event)
    requires Sound(w) && Enabled(w, e)
    ensures Spaced(Next(w, e).fetches) && SentInTime(Next(w, e).fetches)
  {
    if e.SendFetch? {
      assert Active(w, e.owner) && MayFetch(w, e.owner);
    }
  }

  lemma {:induction false} StepKeepsRested(w: World, e: Event)
    requires Sound(w) && Enabled(w, e)
    ensures WellRested(Next(w, e))
  {
    match e
    case SaveOutcome(owner, _) => assert Active(w, owner) && MayFetch(w, owner);
    case SendFetch(owner) => assert Active(w, owner) && MayFetch(w, owner);
    case _ =>
  }

  lemma {:induction false} StepKeepsCautious(w: World, e: Event)
    requires Sound(w) && Enabled(w, e)
    ensures Cautious(Next(w, e))
  {
    var w' := Next(w, e);
    forall o | Active(w', o)
      ensures MayFetch(w', o)
    {
      if e != TakeLease(o) {
        assert Active(w, o);
        assert MayFetch(w, o);
        if e.SendFetch? || e.SaveCooldown? || e.SaveOutcome? {
          assert Active(w, e.owner);
          OnlyOneActive(w, o, e.owner);
        }
      }
    }
  }

  lemma {:induction false} LeadsKeepsSound(w: World, events: seq<Event>, w': World)
    requires Sound(w) && Leads(w, events, w')
    ensures Sound(w')
    decreases |events|
  {
    if events != [] {
      StepKeepsLeaseHeld(w, events[0]);
      StepKeepsCooldown(w, events[0]);
      StepKeepsSpaced(w, events[0]);
      StepKeepsRested(w, events[0]);
      StepKeepsCautious(w, events[0]);
      LeadsKeepsSound(Next(w, events[0]), events[1..], w');
    }
  }

  /** From any store, with any leases and cooldown left in it, over every interleaving of refreshes,
      crashes and restarts: any two fetches belong to refreshes that started at least the retry interval
      apart, and really went out more than the retry interval less one lease apart. */
  lemma {:induction false} FetchesAreSpaced(w: World, events: seq<Event>, w': World, i: nat, j: nat)
    requires w.refreshes == map[] && w.fetches == [] && w.done == [] && Leads(w, events, w')
    requires i < j < |w'.fetches|
    ensures w'.fetches[i].startedAt + RETRY_MS <= w'.fetches[j].startedAt
    ensures w'.fetches[j].sentAt - w'.fetches[i].sentAt > RETRY_MS - LEASE_MS
  {
    LeadsKeepsSound(w, events, w');
  }

  /** Likewise: no fetch belongs to a refresh that started less than a day after an earlier one that stored the
      directory, nor less than an hour, or less than the delay the upstream asked for, after one that failed. */
  lemma {:induction false} OutcomesAreWaitedFor(w: World, events: seq<Event>, w': World, k: nat, j: nat)
    requires w.refreshes == map[] && w.fetches == [] && w.done == [] && Leads(w, events, w')
    requires k < |w'.done| && j < |w'.fetches| && w'.done[k].startedAt < w'.fetches[j].startedAt
    ensures Rested(w'.done[k], w'.fetches[j].startedAt)
  {
    LeadsKeepsSound(w, events, w');
  }

  /** And no longer than that: the recorded outcome holds back exactly the refreshes that start too soon. */
  lemma {:induction false} HoldsBackExactly(w: World, owner: Owner, outcome: Outcome, at: int)
    requires Possible(w, SaveOutcome(owner, outcome))
    ensures CoolingDown(Next(w, SaveOutcome(owner, outcome)), at) <==>
      !Rested(Done(w.refreshes[owner].startedAt, outcome), at)
  {
  }

  /** A refresh that is over leaves the lease free: the next one that is due gets it at once. */
  lemma {:induction false} GivenBackIsFree(w: World, owner: Owner, other: Owner)
    requires LeaseHeld(w) && Active(w, owner) && At(w, owner, Leaving) && other != owner && At(w, other, Due)
    ensures var freed := Next(w, GiveBack(owner));
      At(freed, other, Due) && At(Next(freed, TakeLease(other)), other, Leased)
  {
  }

  // ----- refreshes that outlive their lease -----

  /** Any run at all, prompt or not. */
  ghost predicate Wanders(w: World, events: seq<Event>, w': World)
    decreases |events|
  {
    if events == [] then w' == w else Possible(w, events[0]) && Wanders(Next(w, events[0]), events[1..], w')
  }

  lemma {:induction false} OneMore(w: World, events: seq<Event>, w': World, e: Event)
    requires Wanders(w, events, w') && Possible(w', e)
    ensures Wanders(w, events + [e], Next(w', e))
    decreases |events|
  {
    if events == [] {
      assert [] + [e] == [e] && [e][1..] == [];
    } else {
      OneMore(Next(w, events[0]), events[1..], w', e);
      assert (events + [e])[1..] == events[1..] + [e];
    }
  }

  const NEW := World(0, map[], None, map[], [], [])

  /** A refresh on its way from the new store to its confirmed need to fetch, alone until then. */
  lemma {:induction false} Confirming(w: World, events: seq<Event>, w': World, owner: Owner)
    returns (events': seq<Event>, w'': World)
    requires Wanders(w, events, w') && owner !in w'.refreshes && w'.nextAttemptAt.None?
    requires !Blocked(w'.leases, KEY, owner, w'.clock)
    ensures Wanders(w, events', w'') && w''.clock == w'.clock && w''.nextAttemptAt.None? && w''.fetches == w'.fetches
    ensures w''.refreshes == w'.refreshes[owner := Refresh(Confirmed, w'.clock)]
    ensures w''.leases == Acquired(w'.leases, KEY, owner, LEASE_MS, w'.clock)
  {
    events', w'' := events, w';
    OneMore(w, events', w'', Begin(owner));
    events', w'' := events' + [Begin(owner)], Next(w'', Begin(owner));
    OneMore(w, events', w'', ReadCooldown(owner));
    events', w'' := events' + [ReadCooldown(owner)], Next(w'', ReadCooldown(owner));
    OneMore(w, events', w'', TakeLease(owner));
    events', w'' := events' + [TakeLease(owner)], Next(w'', TakeLease(owner));
    OneMore(w, events', w'', ReadAgain(owner));
    events', w'' := events' + [ReadAgain(owner)], Next(w'', ReadAgain(owner));
  }

  /** A confirmed refresh records the cooldown and fetches. */
  lemma {:induction false} Sending(w: World, events: seq<Event>, w': World, owner: Owner)
    returns (events': seq<Event>, w'': World)
    requires Wanders(w, events, w') && At(w', owner, Confirmed)
    ensures Wanders(w, events', w'') && w''.clock == w'.clock
    ensures w''.refreshes.Keys == w'.refreshes.Keys
    ensures forall o | o in w'.refreshes && o != owner :: w''.refreshes[o] == w'.refreshes[o]
    ensures w''.fetches == w'.fetches + [Fetch(w'.refreshes[owner].startedAt, w'.clock)]
  {
    OneMore(w, events, w', SaveCooldown(owner));
    events', w'' := events + [SaveCooldown(owner)], Next(w', SaveCooldown(owner));
    OneMore(w, events', w'', SendFetch(owner));
    events', w'' := events' + [SendFetch(owner)], Next(w'', SendFetch(owner));
  }

  /** The proviso is needed: a refresh that stalls between its second look at the cooldown and recording one
      until its lease has expired lets another refresh in, and both fetch at the same moment. */
  lemma {:induction false} OverlongRefreshesCollide(a: Owner, b: Owner) returns (events: seq<Event>, w: World)
    requires a != b
    ensures Wanders(NEW, events, w)
    ensures w.fetches == [Fetch(LEASE_MS, LEASE_MS), Fetch(0, LEASE_MS)]
  {
    events, w := [], NEW;
    events, w := Confirming(NEW, events, w, a);
    OneMore(NEW, events, w, Tick(LEASE_MS));
    events, w := events + [Tick(LEASE_MS)], Next(w, Tick(LEASE_MS));
    events, w := Confirming(NEW, events, w, b);
    events, w := Sending(NEW, events, w, b);
    events, w := Sending(NEW, events, w, a);
  }
}
