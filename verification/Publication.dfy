/** Guarded publication. Any number of synchronization runs, in any processes, acquire a league's
    publish lease under a fresh owner, publish under its guard, and finish or crash at any point, while
    other writers change the same resources without a guard. The store serializes all writes; nothing is
    assumed about the clocks they pass. */
module Publication {
  import opened LeagueRules
  import opened Leases
  import opened Resources

  const PUBLISH_TTL := 10 * 60_000

  function PublishKey(league: LeagueId): Key {
    Key.Publish(league)
  }

  /** A waiting run polls for the lease; a run that got it carries the ticket of that acquisition; Ended
      covers finishing, giving up and crashing. */
  datatype Phase = Waiting | Holding(ticket: nat) | Ended
  datatype Run = Run(league: LeagueId, phase: Phase)

  /** Who made a change: a run under its lease, or a writer without a guard. */
  datatype Author = Guarded(league: LeagueId, owner: Owner, ticket: nat) | Unguarded

  /** shared is what readers see; changes that were not refused, their authors and nextTicket record
      history. */
  datatype World = World(leases: LeaseTable, shared: Shared, runs: map<Owner, Run>,
                         nextTicket: nat, authors: seq<Author>, changes: seq<Change>)

  const EMPTY := World(map[], NOTHING, map[], 0, [], [])

  /** A metadata synchronization, the player directory and the removal of a league write without a guard. */
  datatype Event =
    | Start(owner: Owner, league: LeagueId)
    | Poll(owner: Owner, now: int)
    | Publish(owner: Owner, now: int, sync: Sync)
    | Write(change: Change)
    | Finish(owner: Owner)
    | Crash(owner: Owner)

  predicate Enabled(w: World, e: Event) {
    match e
    case Start(owner, _) => owner !in w.runs
    case Poll(owner, _) => owner in w.runs && w.runs[owner].phase.Waiting?
    case Publish(owner, _, _) => owner in w.runs && w.runs[owner].phase.Holding?
    case Write(_) => true
    case Finish(owner) => owner in w.runs && w.runs[owner].phase.Holding?
    case Crash(owner) => owner in w.runs
  }

  function Polled(w: World, owner: Owner, now: int): World
    requires owner in w.runs
  {
    var run := w.runs[owner];
    var key := PublishKey(run.league);
    if Blocked(w.leases, key, owner, now) then w
    else w.(leases := Acquired(w.leases, key, owner, PUBLISH_TTL, now),
            runs := w.runs[owner := run.(phase := Holding(w.nextTicket))], nextTicket := w.nextTicket + 1)
  }

  function Recorded(w: World, author: Author, change: Change): World {
    w.(shared := Changed(w.shared, change), authors := w.authors + [author], changes := w.changes + [change])
  }

  /** The guarded write: refused, changing nothing, unless the guard holds. */
  function Published(w: World, owner: Owner, now: int, sync: Sync): World
    requires owner in w.runs && w.runs[owner].phase.Holding?
  {
    var run := w.runs[owner];
    if GuardHolds(w.leases, PublishKey(run.league), owner, now)
    then Recorded(w, Guarded(run.league, owner, run.phase.ticket), Merge(sync))
    else w
  }

  function Next(w: World, e: Event): World
    requires Enabled(w, e)
  {
    match e
    case Start(owner, league) => w.(runs := w.runs[owner := Run(league, Waiting)])
    case Poll(owner, now) => Polled(w, owner, now)
    case Publish(owner, now, sync) => Published(w, owner, now, sync)
    case Write(change) => Recorded(w, Unguarded, change)
    case Finish(owner) => w.(leases := Released(w.leases, PublishKey(w.runs[owner].league), owner),
                             runs := w.runs[owner := w.runs[owner].(phase := Ended)])
    case Crash(owner) => w.(runs := w.runs[owner := w.runs[owner].(phase := Ended)])
  }

  ghost predicate Leads(w: World, events: seq<Event>, w': World)
    decreases |events|
  {
    if events == [] then w' == w else Enabled(w, events[0]) && Leads(Next(w, events[0]), events[1..], w')
  }

  // ----- what every step keeps -----

  predicate Holds(w: World, owner: Owner, league: LeagueId) {
    owner in w.runs && w.runs[owner].league == league && w.runs[owner].phase.Holding?
  }

  predicate LeaseOwner(w: World, league: LeagueId, owner: Owner) {
    PublishKey(league) in w.leases && w.leases[PublishKey(league)].owner == owner
  }

  predicate IsBy(author: Author, league: LeagueId) {
    author.Guarded? && author.league == league
  }

  /** Within each league, guarded writes land in the order in which their runs acquired the lease. */
  ghost predicate InOrder(authors: seq<Author>) {
    forall i, j, l | 0 <= i < j < |authors| && IsBy(authors[i], l) && IsBy(authors[j], l) ::
      authors[i].ticket <= authors[j].ticket
  }

  ghost predicate TicketsIssued(w: World) {
    && (forall o | o in w.runs && w.runs[o].phase.Holding? :: w.runs[o].phase.ticket < w.nextTicket)
    && (forall i | 0 <= i < |w.authors| && w.authors[i].Guarded? :: w.authors[i].ticket < w.nextTicket)
  }

  /** A league's lease is only ever owned by a run of that league that got past polling. */
  ghost predicate OwnersRan(w: World) {
    forall o, l {:trigger LeaseOwner(w, l, o)} | LeaseOwner(w, l, o) ::
      o in w.runs && w.runs[o].league == l && !w.runs[o].phase.Waiting?
  }

  /** Nothing newer than a going lease owner's acquisition has been written under its league's lease. */
  ghost predicate OwnerIsNewest(w: World) {
    forall o, l, i {:trigger LeaseOwner(w, l, o), w.authors[i]} | LeaseOwner(w, l, o) && Holds(w, o, l) &&
      0 <= i < |w.authors| && IsBy(w.authors[i], l) ::
      w.authors[i].ticket <= w.runs[o].phase.ticket
  }

  /** What readers see is what the changes that landed, one after the other, make of the empty store. */
  ghost predicate ReadersSeeHistory(w: World) {
    |w.authors| == |w.changes| && w.shared == ChangedAll(NOTHING, w.changes)
  }

  ghost predicate Sound(w: World) {
    TicketsIssued(w) && OwnersRan(w) && OwnerIsNewest(w) && InOrder(w.authors) && ReadersSeeHistory(w)
  }

  lemma {:induction false} PollKeepsSound(w: World, owner: Owner, now: int)
    requires Sound(w) && owner in w.runs && w.runs[owner].phase.Waiting?
    ensures Sound(Polled(w, owner, now))
  {
    var w' := Polled(w, owner, now);
    var league := w.runs[owner].league;
    if !Blocked(w.leases, PublishKey(league), owner, now) {
      forall o, l | LeaseOwner(w', l, o)
        ensures if l == league then o == owner else LeaseOwner(w, l, o) && o != owner
      {
        if l != league { assert LeaseOwner(w, l, o); }
      }
    }
  }

  lemma {:induction false} FinishKeepsSound(w: World, owner: Owner)
    requires Sound(w) && owner in w.runs && w.runs[owner].phase.Holding?
    ensures Sound(Next(w, Finish(owner)))
  {
    var w' := Next(w, Finish(owner));
    forall o, l | LeaseOwner(w', l, o)
      ensures LeaseOwner(w, l, o)
    {
    }
  }

  lemma {:induction false} RecordingShows(w: World, author: Author, change: Change)
    requires ReadersSeeHistory(w)
    ensures ReadersSeeHistory(Recorded(w, author, change))
  {
    var after := w.changes + [change];
    assert after[..|w.changes|] == w.changes && after[|w.changes|] == change;
  }

  lemma {:induction false} PublishKeepsOrder(w: World, owner: Owner, now: int, sync: Sync)
    requires OwnerIsNewest(w) && InOrder(w.authors) && owner in w.runs && w.runs[owner].phase.Holding?
    ensures OwnerIsNewest(Published(w, owner, now, sync)) && InOrder(Published(w, owner, now, sync).authors)
  {
    var w' := Published(w, owner, now, sync);
    var league := w.runs[owner].league;
    if GuardHolds(w.leases, PublishKey(league), owner, now) {
      assert LeaseOwner(w, league, owner) && Holds(w, owner, league);
      forall o, l | LeaseOwner(w', l, o) ensures LeaseOwner(w, l, o) {}
    }
  }

  lemma {:induction false} PublishKeepsSound(w: World, owner: Owner, now: int, sync: Sync)
    requires Sound(w) && owner in w.runs && w.runs[owner].phase.Holding?
    ensures Sound(Published(w, owner, now, sync))
  {
    var w' := Published(w, owner, now, sync);
    RecordingShows(w, Guarded(w.runs[owner].league, owner, w.runs[owner].phase.ticket), Merge(sync));
    PublishKeepsOrder(w, owner, now, sync);
    forall o, l | LeaseOwner(w', l, o) ensures LeaseOwner(w, l, o) {}
  }

  lemma {:induction false} WriteKeepsSound(w: World, change: Change)
    requires Sound(w)
    ensures Sound(Recorded(w, Unguarded, change))
  {
    var w' := Recorded(w, Unguarded, change);
    RecordingShows(w, Unguarded, change);
    forall o, l | LeaseOwner(w', l, o) ensures LeaseOwner(w, l, o) {}
  }

  /** Every step of every run keeps the invariant, whatever the clocks say. */
  lemma {:induction false} StepKeepsSound(w: World, e: Event)
    requires Sound(w) && Enabled(w, e)
    ensures Sound(Next(w, e))
  {
    match e
    case Start(owner, league) =>
      forall o, l | LeaseOwner(Next(w, e), l, o) ensures LeaseOwner(w, l, o) && o != owner {
        assert LeaseOwner(w, l, o);
      }
    case Poll(owner, now) => PollKeepsSound(w, owner, now);
    case Publish(owner, now, sync) => PublishKeepsSound(w, owner, now, sync);
    case Write(change) => WriteKeepsSound(w, change);
    case Finish(owner) => FinishKeepsSound(w, owner);
    case Crash(owner) =>
      forall o, l | LeaseOwner(Next(w, e), l, o) ensures LeaseOwner(w, l, o) {}
  }

  lemma {:induction false} LeadsKeepsSound(w: World, events: seq<Event>, w': World)
    requires Sound(w) && Leads(w, events, w')
    ensures Sound(w')
    decreases |events|
  {
    if events != [] {
      StepKeepsSound(w, events[0]);
      LeadsKeepsSound(Next(w, events[0]), events[1..], w');
    }
  }

  /** Over every run from the empty store: the guarded writes of each league land in the order in which
      their runs acquired its lease, and a reader sees a value of a resource exactly when some landed change
      wrote it and no later one wrote to the resource or took it away. */
  lemma {:induction false} WritesLandInAcquisitionOrder(events: seq<Event>, w: World, r: Resource, v: Value)
    requires Leads(EMPTY, events, w)
    ensures InOrder(w.authors)
    ensures Read(w.shared, r) == Some(v) <==> exists i: nat :: LastWrote(w.changes, i, r, v)
  {
    LeadsKeepsSound(EMPTY, events, w);
    ReadersSeeLastWrite(w.changes, r, v);
  }

  /** So when the value a reader sees was written under a league's lease, no run of that league with a newer
      acquisition has written that resource. */
  lemma {:induction false} ReadersSeeNewestRun(events: seq<Event>, w: World, r: Resource, v: Value, l: LeagueId, i: nat,
          k: nat)
    requires Leads(EMPTY, events, w) && LastWrote(w.changes, i, r, v)
    requires i < |w.authors| && IsBy(w.authors[i], l)
    requires k < |w.changes| && k < |w.authors| && IsBy(w.authors[k], l) && Wrote(w.changes, k, r)
    ensures Read(w.shared, r) == Some(v) && w.authors[k].ticket <= w.authors[i].ticket
  {
    WritesLandInAcquisitionOrder(events, w, r, v);
    assert k <= i by {
      assert k > i ==> Left(w.changes, k, r, v);
    }
  }
}
