/** The synchronization worker's queue: coalescing, bounded concurrency and settling. A ticket stands for
    one queued job and the completion its callers await. A loop that finds the queue empty exits and
    leaves the set of workers in one step; so does a loop in which renewing the sweep's lease fails, however
    much is waiting. */
module WorkerQueue {
  import opened LeagueRules

  type LeagueId = string
  type Ticket = nat
  type WorkerId = nat
  type JobResult = string

  datatype Job = Job(league: LeagueId, force: bool, week: Option<int>)

  /** A worker runs a job, or, between settling one and taking the next, renews the sweep's lease. */
  datatype Worker = Running(ticket: Ticket) | Between

  /** jobs, settled and the counters also record history. */
  datatype State = State(queue: seq<Ticket>, jobs: map<Ticket, Job>, pending: map<LeagueId, Ticket>,
                         workers: map<WorkerId, Worker>, settled: map<Ticket, JobResult>, nextTicket: nat,
                         nextWorker: nat)

  const IDLE := State([], map[], map[], map[], map[], 0, 0)

  // ----- the steps -----

  /** A worker, new or done with its last job, takes the first job. */
  function Given(s: State, w: WorkerId): State
    requires s.queue != []
  {
    s.(queue := s.queue[1..], workers := s.workers[w := Running(s.queue[0])],
       nextWorker := if w < s.nextWorker then s.nextWorker else w + 1)
  }

  function Pumped(s: State, concurrency: nat): State
    decreases |s.queue|
  {
    if |s.workers| < concurrency && s.queue != [] then Pumped(Given(s, s.nextWorker), concurrency) else s
  }

  function Joined(job: Job, force: bool, week: Option<int>): Job {
    Job(job.league, job.force || force, if week.Some? then week else job.week)
  }

  function Queued(s: State, league: LeagueId, force: bool, week: Option<int>): State {
    s.(queue := s.queue + [s.nextTicket], jobs := s.jobs[s.nextTicket := Job(league, force, week)],
       pending := s.pending[league := s.nextTicket], nextTicket := s.nextTicket + 1)
  }

  /** Joins the job already waiting or running for the league, or queues a new one. */
  function Enqueued(s: State, concurrency: nat, league: LeagueId, force: bool, week: Option<int>): State {
    if league in s.pending && s.pending[league] in s.jobs then
      var ticket := s.pending[league];
      s.(jobs := s.jobs[ticket := Joined(s.jobs[ticket], force, week)])
    else Pumped(Queued(s, league, force, week), concurrency)
  }

  predicate Runs(s: State, w: WorkerId) {
    w in s.workers && s.workers[w].Running? && s.workers[w].ticket in s.jobs
  }

  function SettledBy(s: State, w: WorkerId, result: JobResult): State
    requires Runs(s, w)
  {
    var ticket := s.workers[w].ticket;
    s.(pending := s.pending - {s.jobs[ticket].league}, settled := s.settled[ticket := result],
      workers := s.workers[w := Between])
  }

  function Resumed(s: State, w: WorkerId): State
    requires w in s.workers
  {
    if s.queue == [] then s.(workers := s.workers - {w})
    else Given(s, w)
  }

  /** Renewing the sweep's lease failed: the loop ends, and nothing starts another. */
  function Failed(s: State, w: WorkerId): State {
    s.(workers := s.workers - {w})
  }

  datatype Event =
    | Enqueue(league: LeagueId, force: bool, week: Option<int>)
    | Settle(worker: WorkerId, result: JobResult)
    | Resume(worker: WorkerId)
    | Fail(worker: WorkerId)

  predicate Enabled(s: State, e: Event) {
    match e
    case Enqueue(_, _, _) => true
    case Settle(w, _) => Runs(s, w)
    case Resume(w) => w in s.workers && s.workers[w].Between?
    case Fail(w) => w in s.workers && s.workers[w].Between?
  }

  function Next(s: State, concurrency: nat, e: Event): State
    requires Enabled(s, e)
  {
    match e
    case Enqueue(league, force, week) => Enqueued(s, concurrency, league, force, week)
    case Settle(w, result) => SettledBy(s, w, result)
    case Resume(w) => Resumed(s, w)
    case Fail(w) => Failed(s, w)
  }

  ghost predicate Leads(s: State, concurrency: nat, events: seq<Event>, s': State)
    decreases |events|
  {
    if events == [] then s' == s
    else Enabled(s, events[0]) && Leads(Next(s, concurrency, events[0]), concurrency, events[1..], s')
  }

  /** No loop fails while a job waits. */
  ghost predicate Spared(s: State, concurrency: nat, events: seq<Event>)
    decreases |events|
  {
    events == [] || (Enabled(s, events[0]) && !Strands(s, events[0]) &&
      Spared(Next(s, concurrency, events[0]), concurrency, events[1..]))
  }

  predicate Strands(s: State, e: Event) {
    e.Fail? && s.queue != []
  }

  // ----- what every step keeps -----

  predicate RunsTicket(s: State, w: WorkerId, t: Ticket) {
    w in s.workers && s.workers[w] == Running(t)
  }

  /** The ticket is waiting or running. */
  ghost predicate Alive(s: State, t: Ticket) {
    t in s.queue || exists w :: RunsTicket(s, w, t)
  }

  ghost predicate FirstComeFirstServed(s: State) {
    && (forall i, j | 0 <= i < j < |s.queue| :: s.queue[i] < s.queue[j])
    && (forall i: nat, w: WorkerId, t: Ticket | i < |s.queue| && RunsTicket(s, w, t) :: t < s.queue[i])
    && (forall i: nat, t: Ticket | i < |s.queue| && t in s.settled :: t < s.queue[i])
  }

  /** Every ticket issued is in exactly one place: waiting, running on one worker, or settled. */
  ghost predicate OnePlaceEach(s: State) {
    && (forall t: Ticket :: t in s.jobs <==> t < s.nextTicket)
    && (forall i | 0 <= i < |s.queue| :: s.queue[i] < s.nextTicket)
    && (forall w: WorkerId, t: Ticket | RunsTicket(s, w, t) :: t < s.nextTicket && t !in s.settled)
    && (forall v: WorkerId, w: WorkerId, t: Ticket | RunsTicket(s, v, t) && RunsTicket(s, w, t) :: v == w)
    && (forall t: Ticket | t in s.settled :: t < s.nextTicket)
    && (forall t: Ticket | t < s.nextTicket && t !in s.settled :: Alive(s, t))
  }

  /** A league is pending exactly when one of its jobs is waiting or running, and then it is that one. */
  ghost predicate OneJobPerLeague(s: State) {
    && (forall t: Ticket | Alive(s, t) && t in s.jobs ::
      s.jobs[t].league in s.pending && s.pending[s.jobs[t].league] == t)
    && (forall l | l in s.pending ::
      s.pending[l] in s.jobs && s.jobs[s.pending[l]].league == l && Alive(s, s.pending[l]))
  }

  ghost predicate WorkersKnown(s: State, concurrency: nat) {
    |s.workers| <= concurrency && forall w | w in s.workers :: w < s.nextWorker
  }

  ghost predicate Consistent(s: State, concurrency: nat) {
    FirstComeFirstServed(s) && OnePlaceEach(s) && OneJobPerLeague(s) && WorkersKnown(s, concurrency)
  }

  /** No job waits while a worker slot is free. */
  ghost predicate Busy(s: State, concurrency: nat) {
    s.queue != [] ==> |s.workers| == concurrency
  }

  ghost predicate Sound(s: State, concurrency: nat) {
    Consistent(s, concurrency) && Busy(s, concurrency)
  }

  lemma {:induction false} GivenRuns(s: State, w: WorkerId, v: WorkerId, t: Ticket)
    requires s.queue != [] && (w in s.workers ==> s.workers[w].Between?)
    ensures RunsTicket(Given(s, w), v, t) <==> if v == w then t == s.queue[0] else RunsTicket(s, v, t)
  {
  }

  lemma {:induction false} GivenAlive(s: State, w: WorkerId, t: Ticket)
    requires s.queue != [] && (w in s.workers ==> s.workers[w].Between?)
    ensures Alive(Given(s, w), t) <==> Alive(s, t)
  {
    var s' := Given(s, w);
    assert s.queue == [s.queue[0]] + s.queue[1..];
    GivenRuns(s, w, w, t);
    if v :| RunsTicket(s, v, t) {
      GivenRuns(s, w, v, t);
      assert RunsTicket(s', v, t);
    }
    if v :| RunsTicket(s', v, t) {
      GivenRuns(s, w, v, t);
    }
  }

  lemma {:induction false} GivingKeepsOrder(s: State, w: WorkerId)
    requires FirstComeFirstServed(s) && s.queue != [] && (w in s.workers ==> s.workers[w].Between?)
    ensures FirstComeFirstServed(Given(s, w))
  {
    forall v, t ensures RunsTicket(Given(s, w), v, t) <==> if v == w then t == s.queue[0] else RunsTicket(s, v, t) {
      GivenRuns(s, w, v, t);
    }
  }

  lemma {:induction false} GivingKeepsPlaces(s: State, w: WorkerId)
    requires FirstComeFirstServed(s) && OnePlaceEach(s) && s.queue != [] && (w in s.workers ==> s.workers[w].Between?)
    ensures OnePlaceEach(Given(s, w))
  {
    var s' := Given(s, w);
    forall t ensures Alive(s', t) <==> Alive(s, t) { GivenAlive(s, w, t); }
    forall v, t ensures RunsTicket(s', v, t) <==> if v == w then t == s.queue[0] else RunsTicket(s, v, t) {
      GivenRuns(s, w, v, t);
    }
  }

  lemma {:induction false} GivingKeepsOnePerLeague(s: State, w: WorkerId)
    requires OneJobPerLeague(s) && s.queue != [] && (w in s.workers ==> s.workers[w].Between?)
    ensures OneJobPerLeague(Given(s, w))
  {
    forall t ensures Alive(Given(s, w), t) <==> Alive(s, t) { GivenAlive(s, w, t); }
  }

  lemma {:induction false} PumpingKeepsConsistent(s: State, concurrency: nat)
    requires Consistent(s, concurrency)
    ensures Sound(Pumped(s, concurrency), concurrency)
    ensures Pumped(s, concurrency).jobs == s.jobs && Pumped(s, concurrency).pending == s.pending
    ensures Pumped(s, concurrency).settled == s.settled && Pumped(s, concurrency).nextTicket == s.nextTicket
    decreases |s.queue|
  {
    if |s.workers| < concurrency && s.queue != [] {
      var w := s.nextWorker;
      GivingKeepsOrder(s, w);
      GivingKeepsPlaces(s, w);
      GivingKeepsOnePerLeague(s, w);
      GivingKeepsWorkers(s, w, concurrency);
      PumpingKeepsConsistent(Given(s, w), concurrency);
    }
  }

  lemma {:induction false} GivingKeepsWorkers(s: State, w: WorkerId, concurrency: nat)
    requires WorkersKnown(s, concurrency) && s.queue != [] && (w in s.workers || |s.workers| < concurrency)
    ensures WorkersKnown(Given(s, w), concurrency)
    ensures w in s.workers ==> |Given(s, w).workers| == |s.workers|
  {
    var workers := Given(s, w).workers;
    assert workers.Keys == s.workers.Keys + {w};
    assert |workers| == |workers.Keys| && |s.workers| == |s.workers.Keys|;
  }

  lemma {:induction false} ResumingKeepsConsistent(s: State, concurrency: nat, w: WorkerId)
    requires Consistent(s, concurrency) && w in s.workers && s.workers[w].Between?
    ensures Consistent(Resumed(s, w), concurrency)
  {
    if s.queue == [] {
      LeavingKeepsConsistent(s, concurrency, w);
    } else {
      GivingKeepsOrder(s, w);
      GivingKeepsPlaces(s, w);
      GivingKeepsOnePerLeague(s, w);
      GivingKeepsWorkers(s, w, concurrency);
    }
  }

  lemma {:induction false} LeavingKeepsConsistent(s: State, concurrency: nat, w: WorkerId)
    requires Consistent(s, concurrency) && w in s.workers && s.workers[w].Between?
    ensures Consistent(Failed(s, w), concurrency) && |Failed(s, w).workers| == |s.workers| - 1
  {
    var s' := Failed(s, w);
    forall v, t ensures RunsTicket(s', v, t) <==> RunsTicket(s, v, t) {}
    forall t ensures Alive(s', t) <==> Alive(s, t) {
      if v :| RunsTicket(s', v, t) { assert RunsTicket(s, v, t); }
      if v :| RunsTicket(s, v, t) { assert RunsTicket(s', v, t); }
    }
    assert s'.workers.Keys == s.workers.Keys - {w};
    assert |s'.workers| == |s'.workers.Keys| && |s.workers| == |s.workers.Keys|;
  }

  lemma {:induction false} SettledAlive(s: State, w: WorkerId, result: JobResult, t: Ticket)
    requires OnePlaceEach(s) && FirstComeFirstServed(s) && Runs(s, w)
    ensures Alive(SettledBy(s, w, result), t) <==> Alive(s, t) && t != s.workers[w].ticket
  {
    var s' := SettledBy(s, w, result);
    assert RunsTicket(s, w, s.workers[w].ticket);
    if v :| RunsTicket(s', v, t) { assert RunsTicket(s, v, t); }
    if v :| RunsTicket(s, v, t) && v != w { assert RunsTicket(s', v, t); }
  }

  lemma {:induction false} SettlingKeepsPlaces(s: State, w: WorkerId, result: JobResult)
    requires OnePlaceEach(s) && FirstComeFirstServed(s) && Runs(s, w)
    ensures OnePlaceEach(SettledBy(s, w, result)) && FirstComeFirstServed(SettledBy(s, w, result))
  {
    var s' := SettledBy(s, w, result);
    var ticket := s.workers[w].ticket;
    assert RunsTicket(s, w, ticket);
    forall v, t ensures RunsTicket(s', v, t) <==> RunsTicket(s, v, t) && v != w {}
    forall t ensures Alive(s', t) <==> Alive(s, t) && t != ticket { SettledAlive(s, w, result, t); }
  }

  lemma {:induction false} SettlingKeepsConsistent(s: State, concurrency: nat, w: WorkerId, result: JobResult)
    requires Consistent(s, concurrency) && Runs(s, w)
    ensures Consistent(SettledBy(s, w, result), concurrency) && |SettledBy(s, w, result).workers| == |s.workers|
  {
    var s' := SettledBy(s, w, result);
    var ticket := s.workers[w].ticket;
    assert s'.workers.Keys == s.workers.Keys;
    assert |s'.workers| == |s'.workers.Keys| && |s.workers| == |s.workers.Keys|;
    SettlingKeepsPlaces(s, w, result);
    assert RunsTicket(s, w, ticket) && Alive(s, ticket);
    forall t ensures Alive(s', t) <==> Alive(s, t) && t != ticket { SettledAlive(s, w, result, t); }
  }

  lemma {:induction false} QueuedAlive(s: State, league: LeagueId, force: bool, week: Option<int>, t: Ticket)
    ensures Alive(Queued(s, league, force, week), t) <==> Alive(s, t) || t == s.nextTicket
  {
    var s' := Queued(s, league, force, week);
    assert s'.queue[|s.queue|] == s.nextTicket;
    if v :| RunsTicket(s', v, t) { assert RunsTicket(s, v, t); }
    if v :| RunsTicket(s, v, t) { assert RunsTicket(s', v, t); }
  }

  lemma {:induction false} QueuingKeepsPlaces(s: State, league: LeagueId, force: bool, week: Option<int>)
    requires FirstComeFirstServed(s) && OnePlaceEach(s)
    ensures FirstComeFirstServed(Queued(s, league, force, week)) && OnePlaceEach(Queued(s, league, force, week))
  {
    var s' := Queued(s, league, force, week);
    forall v, t ensures RunsTicket(s', v, t) <==> RunsTicket(s, v, t) {}
    forall t ensures Alive(s', t) <==> Alive(s, t) || t == s.nextTicket { QueuedAlive(s, league, force, week, t); }
  }

  lemma {:induction false} AliveWereIssued(s: State, t: Ticket)
    requires OnePlaceEach(s) && Alive(s, t)
    ensures t < s.nextTicket && t in s.jobs
  {
    if v :| RunsTicket(s, v, t) {}
  }

  lemma {:induction false} QueuingKeepsOnePerLeague(s: State, league: LeagueId, force: bool, week: Option<int>)
    requires OnePlaceEach(s) && OneJobPerLeague(s) && league !in s.pending
    ensures OneJobPerLeague(Queued(s, league, force, week))
  {
    var s' := Queued(s, league, force, week);
    forall t ensures Alive(s', t) <==> Alive(s, t) || t == s.nextTicket { QueuedAlive(s, league, force, week, t); }
    forall t: Ticket | Alive(s, t) ensures t < s.nextTicket && t in s.jobs { AliveWereIssued(s, t); }
  }

  lemma {:induction false} QueuingKeepsConsistent(s: State, concurrency: nat, league: LeagueId, force: bool,
          week: Option<int>)
    requires Consistent(s, concurrency) && league !in s.pending
    ensures Consistent(Queued(s, league, force, week), concurrency)
  {
    QueuingKeepsPlaces(s, league, force, week);
    QueuingKeepsOnePerLeague(s, league, force, week);
  }

  lemma {:induction false} JoiningAlive(s: State, jobs: map<Ticket, Job>, t: Ticket)
    ensures Alive(s.(jobs := jobs), t) <==> Alive(s, t)
  {
    var s' := s.(jobs := jobs);
    if v :| RunsTicket(s', v, t) { assert RunsTicket(s, v, t); }
    if v :| RunsTicket(s, v, t) { assert RunsTicket(s', v, t); }
  }

  lemma {:induction false} JoiningKeepsPlaces(s: State, jobs: map<Ticket, Job>)
    requires FirstComeFirstServed(s) && OnePlaceEach(s) && jobs.Keys == s.jobs.Keys
    ensures FirstComeFirstServed(s.(jobs := jobs)) && OnePlaceEach(s.(jobs := jobs))
  {
    var s' := s.(jobs := jobs);
    forall v, t ensures RunsTicket(s', v, t) <==> RunsTicket(s, v, t) {}
    forall t ensures Alive(s', t) <==> Alive(s, t) { JoiningAlive(s, jobs, t); }
    assert forall t: Ticket :: t in jobs <==> t in jobs.Keys;
  }

  /** Joining a pending job changes what the job asks for and nothing about where anything is. */
  lemma {:induction false} JoiningKeepsConsistent(s: State, concurrency: nat, ticket: Ticket, job: Job)
    requires Consistent(s, concurrency) && ticket in s.jobs && job.league == s.jobs[ticket].league
    ensures Consistent(s.(jobs := s.jobs[ticket := job]), concurrency)
  {
    var jobs := s.jobs[ticket := job];
    assert jobs.Keys == s.jobs.Keys;
    JoiningKeepsPlaces(s, jobs);
    forall t ensures Alive(s.(jobs := jobs), t) <==> Alive(s, t) { JoiningAlive(s, jobs, t); }
  }

  lemma {:induction false} EnqueuingKeepsConsistent(s: State, concurrency: nat, league: LeagueId, force: bool,
          week: Option<int>)
    requires Consistent(s, concurrency)
    ensures Consistent(Enqueued(s, concurrency, league, force, week), concurrency)
    ensures league !in s.pending ==> Busy(Enqueued(s, concurrency, league, force, week), concurrency)
  {
    if league in s.pending {
      JoiningKeepsConsistent(s, concurrency, s.pending[league], Joined(s.jobs[s.pending[league]], force, week));
    } else {
      QueuingKeepsConsistent(s, concurrency, league, force, week);
      PumpingKeepsConsistent(Queued(s, league, force, week), concurrency);
    }
  }

  /** Every step, failures included, keeps every ticket in its one place, one job per league, the order of
      service and the limit. */
  lemma {:induction false} StepKeepsConsistent(s: State, concurrency: nat, e: Event)
    requires Consistent(s, concurrency) && Enabled(s, e)
    ensures Consistent(Next(s, concurrency, e), concurrency)
  {
    match e
    case Enqueue(league, force, week) => EnqueuingKeepsConsistent(s, concurrency, league, force, week);
    case Settle(w, result) => SettlingKeepsConsistent(s, concurrency, w, result);
    case Resume(w) => ResumingKeepsConsistent(s, concurrency, w);
    case Fail(w) => LeavingKeepsConsistent(s, concurrency, w);
  }

  /** A step leaves a job waiting beside a free slot exactly when a loop fails while a job waits. */
  lemma {:induction false} StepKeepsSound(s: State, concurrency: nat, e: Event)
    requires Sound(s, concurrency) && Enabled(s, e)
    ensures Consistent(Next(s, concurrency, e), concurrency)
    ensures Sound(Next(s, concurrency, e), concurrency) <==> !Strands(s, e)
  {
    StepKeepsConsistent(s, concurrency, e);
    match e
    case Enqueue(league, force, week) => EnqueuingKeepsConsistent(s, concurrency, league, force, week);
    case Settle(w, result) => SettlingKeepsConsistent(s, concurrency, w, result);
    case Resume(w) =>
      if s.queue != [] {
        GivingKeepsWorkers(s, w, concurrency);
      }
    case Fail(w) => LeavingKeepsConsistent(s, concurrency, w);
  }

  lemma {:induction false} LeadsKeepsConsistent(s: State, concurrency: nat, events: seq<Event>, s': State)
    requires Consistent(s, concurrency) && Leads(s, concurrency, events, s')
    ensures Consistent(s', concurrency)
    decreases |events|
  {
    if events != [] {
      StepKeepsConsistent(s, concurrency, events[0]);
      LeadsKeepsConsistent(Next(s, concurrency, events[0]), concurrency, events[1..], s');
    }
  }

  lemma {:induction false} LeadsKeepsSound(s: State, concurrency: nat, events: seq<Event>, s': State)
    requires Sound(s, concurrency) && Leads(s, concurrency, events, s') && Spared(s, concurrency, events)
    ensures Sound(s', concurrency)
    decreases |events|
  {
    if events != [] {
      StepKeepsSound(s, concurrency, events[0]);
      LeadsKeepsSound(Next(s, concurrency, events[0]), concurrency, events[1..], s');
    }
  }

  // ----- what the worker promises -----

  /** In every reachable state at most the allowed number of jobs run, no league has two jobs waiting or
      running, and jobs start in the order they were queued in; and unless a loop has failed while a job was
      waiting, no job waits while a worker slot is free. */
  lemma {:induction false} BoundedAndBusy(concurrency: nat, events: seq<Event>, s: State, t: Ticket, u: Ticket)
    requires Leads(IDLE, concurrency, events, s)
    ensures |s.workers| <= concurrency && FirstComeFirstServed(s)
    ensures Alive(s, t) && Alive(s, u) ==> t in s.jobs && u in s.jobs
    ensures Alive(s, t) && Alive(s, u) && s.jobs[t].league == s.jobs[u].league ==> t == u
    ensures Spared(IDLE, concurrency, events) && s.queue != [] ==> |s.workers| == concurrency
  {
    LeadsKeepsConsistent(IDLE, concurrency, events, s);
    if Alive(s, t) && Alive(s, u) {
      AliveWereIssued(s, t);
      AliveWereIssued(s, u);
    }
    if Spared(IDLE, concurrency, events) {
      LeadsKeepsSound(IDLE, concurrency, events, s);
    }
  }

  /** After any failures a job for a league with nothing pending puts every free slot to work again. */
  lemma {:induction false} NewWorkRevives(concurrency: nat, events: seq<Event>, s: State, league: LeagueId, force: bool,
          week: Option<int>)
    requires Leads(IDLE, concurrency, events, s) && league !in s.pending
    ensures Sound(Enqueued(s, concurrency, league, force, week), concurrency)
  {
    LeadsKeepsConsistent(IDLE, concurrency, events, s);
    EnqueuingKeepsConsistent(s, concurrency, league, force, week);
  }

  /** Nothing else does: with every loop gone, asking again for leagues that wait leaves them waiting. */
  lemma {:induction false} AskingAgainDoesNot(s: State, concurrency: nat, events: seq<Event>, s': State)
    requires Consistent(s, concurrency) && s.workers == map[] && Leads(s, concurrency, events, s')
    requires forall i | 0 <= i < |events| && events[i].Enqueue? :: events[i].league in s.pending
    ensures s' == s.(jobs := s'.jobs)
    decreases |events|
  {
    if events != [] {
      StepKeepsConsistent(s, concurrency, events[0]);
      AskingAgainDoesNot(Next(s, concurrency, events[0]), concurrency, events[1..], s');
    }
  }

  /** Such a state is within reach: of two leagues' jobs the second is left waiting, with no loop to take it. */
  lemma {:induction false} JobIsStranded(first: LeagueId, second: LeagueId, result: JobResult)
    returns (events: seq<Event>, s: State)
    requires first != second
    ensures Leads(IDLE, 1, events, s) && s.workers == map[] && s.queue == [1] && second in s.pending && 1 !in s.settled
  {
    var one, two := Enqueue(first, false, None), Enqueue(second, false, None);
    events := [one, two, Settle(0, result), Fail(0)];
    var s1 := State([], map[0 := Job(first, false, None)], map[first := 0], map[0 := Running(0)], map[], 1, 1);
    assert Next(IDLE, 1, one) == s1 by {
      var queued := Queued(IDLE, first, false, None);
      assert queued.queue == [0] && Given(queued, 0) == s1;
      assert Pumped(queued, 1) == Pumped(s1, 1) == s1;
    }
    var s2 := Queued(s1, second, false, None);
    assert Next(s1, 1, two) == s2;
    var s3 := SettledBy(s2, 0, result);
    s := Failed(s3, 0);
    assert s.workers == map[];
    assert events[1..] == [two, Settle(0, result), Fail(0)] && events[1..][1..] == [Settle(0, result), Fail(0)];
    assert events[1..][1..][1..] == [Fail(0)] && events[1..][1..][1..][1..] == [];
    assert Leads(s, 1, [], s) && Leads(s3, 1, [Fail(0)], s) && Leads(s2, 1, [Settle(0, result), Fail(0)], s);
    assert Leads(s1, 1, [two, Settle(0, result), Fail(0)], s);
  }

  /** The ticket a call gets. */
  function TicketFor(s: State, league: LeagueId): Ticket {
    if league in s.pending then s.pending[league] else s.nextTicket
  }

  /** A job is asked for once more, or first asked for, and all others stay as they are. */
  ghost predicate AskedFor(s: State, s': State, ticket: Ticket, league: LeagueId, force: bool, week: Option<int>) {
    && league in s'.pending && s'.pending[league] == ticket && s'.jobs.Keys == s.jobs.Keys + {ticket}
    && s'.jobs[ticket].league == league
    && (s'.jobs[ticket].force <==> force || (ticket in s.jobs && s.jobs[ticket].force))
    && s'.jobs[ticket].week == (if week.Some? then week else if ticket in s.jobs then s.jobs[ticket].week else None)
    && (forall t | t in s.jobs && t != ticket :: s'.jobs[t] == s.jobs[t])
  }

  lemma {:induction false} PumpingLeavesJobs(s: State, concurrency: nat)
    ensures Pumped(s, concurrency).jobs == s.jobs && Pumped(s, concurrency).pending == s.pending
    decreases |s.queue|
  {
    if |s.workers| < concurrency && s.queue != [] {
      PumpingLeavesJobs(Given(s, s.nextWorker), concurrency);
    }
  }

  lemma {:induction false} JoiningAsks(s: State, concurrency: nat, league: LeagueId, force: bool, week: Option<int>)
    requires league in s.pending && s.pending[league] in s.jobs && s.jobs[s.pending[league]].league == league
    ensures AskedFor(s, Enqueued(s, concurrency, league, force, week), s.pending[league], league, force, week)
  {
  }

  lemma {:induction false} QueuingAsks(s: State, concurrency: nat, league: LeagueId, force: bool, week: Option<int>)
    requires league !in s.pending && s.nextTicket !in s.jobs
    ensures AskedFor(s, Enqueued(s, concurrency, league, force, week), s.nextTicket, league, force, week)
  {
    var queued := Queued(s, league, force, week);
    assert AskedFor(s, queued, s.nextTicket, league, force, week);
    PumpingLeavesJobs(queued, concurrency);
    AskedAlike(s, queued, Pumped(queued, concurrency), s.nextTicket, league, force, week);
  }

  lemma {:induction false} AskedAlike(s: State, s': State, s'': State, t: Ticket, league: LeagueId, force: bool,
          week: Option<int>)
    requires AskedFor(s, s', t, league, force, week) && s''.jobs == s'.jobs && s''.pending == s'.pending
    ensures AskedFor(s, s'', t, league, force, week)
  {
  }

  lemma {:induction false} PendingIsItsJob(s: State, league: LeagueId)
    requires OnePlaceEach(s) && OneJobPerLeague(s)
    ensures s.nextTicket !in s.jobs
    ensures league in s.pending ==> s.pending[league] in s.jobs && s.jobs[s.pending[league]].league == league
  {
  }

  /** Every call gets the ticket of the job the league then has pending, and the request is added to it. */
  lemma {:induction false} EnqueueJoins(s: State, concurrency: nat, league: LeagueId, force: bool, week: Option<int>)
    requires Consistent(s, concurrency)
    ensures var ticket := TicketFor(s, league);
      && (league in s.pending <==> ticket in s.jobs)
      && (ticket in s.jobs ==> s.jobs[ticket].league == league)
      && AskedFor(s, Enqueued(s, concurrency, league, force, week), ticket, league, force, week)
  {
    PendingIsItsJob(s, league);
    if league in s.pending {
      JoiningAsks(s, concurrency, league, force, week);
    } else {
      QueuingAsks(s, concurrency, league, force, week);
    }
  }

  /** What a call asks for. */
  datatype Ask = Ask(league: LeagueId, force: bool, week: Option<int>)

  function AsksFor(s: State, e: Event, t: Ticket): seq<Ask> {
    if e.Enqueue? && TicketFor(s, e.league) == t then [Ask(e.league, e.force, e.week)] else []
  }

  /** What the calls of a run that got a ticket asked for, in order. */
  function Asks(s: State, concurrency: nat, events: seq<Event>, t: Ticket): seq<Ask>
    decreases |events|
  {
    if events == [] || !Enabled(s, events[0]) then []
    else AsksFor(s, events[0], t) + Asks(Next(s, concurrency, events[0]), concurrency, events[1..], t)
  }

  ghost predicate NoWeekFrom(asks: seq<Ask>, from: nat) {
    forall i | from <= i < |asks| :: asks[i].week.None?
  }

  ghost predicate AllFor(asks: seq<Ask>, league: LeagueId) {
    forall i | 0 <= i < |asks| :: asks[i].league == league
  }

  ghost predicate SomeForced(asks: seq<Ask>) {
    exists i | 0 <= i < |asks| :: asks[i].force
  }

  /** The last week asked for, or the one from before. */
  ghost predicate LastWeek(week: Option<int>, before: Option<int>, asks: seq<Ask>) {
    && (forall i: nat | i < |asks| && NoWeekFrom(asks, i + 1) :: asks[i].week.Some? ==> week == asks[i].week)
    && (NoWeekFrom(asks, 0) ==> week == before)
  }

  /** What a job, new or from before, has come to once it was asked for so. */
  ghost predicate Carries(job: Job, before: Option<Job>, asks: seq<Ask>) {
    && AllFor(asks, job.league) && (before.Some? ==> before.value.league == job.league)
    && (job.force <==> (before.Some? && before.value.force) || SomeForced(asks))
    && LastWeek(job.week, if before.Some? then before.value.week else None, asks)
  }

  lemma {:induction false} LastWeekFirst(week: Option<int>, before: Option<int>, first: Ask, asks: seq<Ask>)
    requires LastWeek(week, if first.week.Some? then first.week else before, asks)
    ensures LastWeek(week, before, [first] + asks)
  {
    var all := [first] + asks;
    forall i: nat | i < |all| && NoWeekFrom(all, i + 1) && all[i].week.Some? ensures week == all[i].week {
      LastWeekAt(week, before, first, asks, i);
    }
    if NoWeekFrom(all, 0) {
      NoWeekShifts(first, asks, 0);
      assert all[0] == first && NoWeekFrom(all, 1);
    }
  }

  lemma {:induction false} LastWeekAt(week: Option<int>, before: Option<int>, first: Ask, asks: seq<Ask>, i: nat)
    requires LastWeek(week, if first.week.Some? then first.week else before, asks)
    requires i <= |asks| && NoWeekFrom([first] + asks, i + 1) && ([first] + asks)[i].week.Some?
    ensures week == ([first] + asks)[i].week
  {
    NoWeekShifts(first, asks, i);
    if i > 0 {
      assert ([first] + asks)[i] == asks[i - 1] && NoWeekFrom(asks, i - 1 + 1);
    }
  }

  lemma {:induction false} NoWeekShifts(first: Ask, asks: seq<Ask>, i: nat)
    ensures NoWeekFrom([first] + asks, i + 1) <==> NoWeekFrom(asks, i)
  {
    var all := [first] + asks;
    if NoWeekFrom(all, i + 1) {
      forall j | i <= j < |asks| ensures asks[j].week.None? { assert all[j + 1] == asks[j]; }
    }
  }

  lemma {:induction false} CarriesFirst(before: Option<Job>, first: Ask, joined: Job, job: Job, asks: seq<Ask>)
    requires joined.league == first.league && (before.Some? ==> before.value.league == first.league)
    requires joined.force <==> first.force || (before.Some? && before.value.force)
    requires joined.week ==
      if first.week.Some? then first.week else if before.Some? then before.value.week else None
    requires Carries(job, Some(joined), asks)
    ensures Carries(job, before, [first] + asks)
  {
    var all := [first] + asks;
    LastWeekFirst(job.week, if before.Some? then before.value.week else None, first, asks);
    assert SomeForced(all) <==> first.force || SomeForced(asks) by {
      assert all[0] == first;
      if i :| 0 <= i < |asks| && asks[i].force { assert all[i + 1].force; }
    }
  }

  function JobAt(s: State, t: Ticket): Option<Job> {
    if t in s.jobs then Some(s.jobs[t]) else None
  }

  lemma {:induction false} AskingCarries(s: State, s': State, t: Ticket, league: LeagueId, force: bool,
          week: Option<int>)
    requires AskedFor(s, s', t, league, force, week) && (t in s.jobs ==> s.jobs[t].league == league)
    ensures t in s'.jobs && Carries(s'.jobs[t], JobAt(s, t), [Ask(league, force, week)])
  {
    var asks := [Ask(league, force, week)];
    assert asks[0].force == force && NoWeekFrom(asks, 1);
    assert NoWeekFrom(asks, 0) ==> asks[0].week.None?;
  }

  lemma {:induction false} StepAsks(s: State, concurrency: nat, e: Event, t: Ticket)
    requires Consistent(s, concurrency) && Enabled(s, e)
    ensures var job := JobAt(Next(s, concurrency, e), t);
      if AsksFor(s, e, t) == [] then job == JobAt(s, t)
      else job.Some? && Carries(job.value, JobAt(s, t), AsksFor(s, e, t))
  {
    if e.Enqueue? {
      EnqueueJoins(s, concurrency, e.league, e.force, e.week);
      if TicketFor(s, e.league) == t {
        AskingCarries(s, Next(s, concurrency, e), t, e.league, e.force, e.week);
      }
    }
  }

  lemma {:induction false} CarriesMore(before: Option<Job>, first: seq<Ask>, joined: Job, job: Job, asks: seq<Ask>)
    requires |first| == 1 && Carries(joined, before, first) && Carries(job, Some(joined), asks)
    ensures Carries(job, before, first + asks)
  {
    assert first == [first[0]] && NoWeekFrom(first, 1);
    assert NoWeekFrom(first, 0) <==> first[0].week.None?;
    CarriesFirst(before, first[0], joined, job, asks);
  }

  lemma {:induction false} AsksMakeJob(s: State, concurrency: nat, events: seq<Event>, s': State, t: Ticket)
    requires Consistent(s, concurrency) && Leads(s, concurrency, events, s')
    ensures var asks := Asks(s, concurrency, events, t);
      && (t in s'.jobs <==> t in s.jobs || asks != [])
      && (t in s'.jobs ==> Carries(s'.jobs[t], JobAt(s, t), asks))
    decreases |events|
  {
    if events == [] {
      assert t in s.jobs ==> Carries(s.jobs[t], JobAt(s, t), []);
    } else {
      var next := Next(s, concurrency, events[0]);
      StepKeepsConsistent(s, concurrency, events[0]);
      StepAsks(s, concurrency, events[0], t);
      AsksMakeJob(next, concurrency, events[1..], s', t);
      var first, rest := AsksFor(s, events[0], t), Asks(next, concurrency, events[1..], t);
      if first == [] {
        assert first + rest == rest;
      } else {
        CarriesMore(JobAt(s, t), first, next.jobs[t], s'.jobs[t], rest);
      }
    }
  }

  /** Over every run: a ticket's job is for the league of all calls that got the ticket, is forced exactly if
      one of them asked for that, and has the last week one of them gave. */
  lemma {:induction false} JobIsWhatWasAsked(concurrency: nat, events: seq<Event>, s: State, t: Ticket)
    requires Leads(IDLE, concurrency, events, s) && t in s.jobs
    ensures var asks := Asks(IDLE, concurrency, events, t);
      asks != [] && Carries(s.jobs[t], None, asks)
  {
    AsksMakeJob(IDLE, concurrency, events, s, t);
  }

  /** Only settling settles, and it gives the worker's own ticket the result. */
  lemma {:induction false} SettlesItsOwn(s: State, concurrency: nat, e: Event)
    requires Consistent(s, concurrency) && Enabled(s, e)
    ensures var s' := Next(s, concurrency, e);
      if e.Settle? then s'.settled == s.settled[s.workers[e.worker].ticket := e.result] && s'.queue == s.queue
      else s'.settled == s.settled
  {
    if e.Enqueue? && e.league !in s.pending {
      QueuingKeepsConsistent(s, concurrency, e.league, e.force, e.week);
      PumpingKeepsConsistent(Queued(s, e.league, e.force, e.week), concurrency);
    }
  }

  /** Over every run: who awaits a ticket gets the result with which its worker settled it. */
  lemma {:induction false} ResultIsTheWorkers(concurrency: nat, events: seq<Event>, s: State, w: WorkerId,
          result: JobResult, more: seq<Event>, later: State)
    requires Leads(IDLE, concurrency, events, s) && Enabled(s, Settle(w, result))
    requires Leads(Next(s, concurrency, Settle(w, result)), concurrency, more, later)
    ensures s.workers[w].ticket !in s.settled
    ensures s.workers[w].ticket in later.settled && later.settled[s.workers[w].ticket] == result
  {
    LeadsKeepsConsistent(IDLE, concurrency, events, s);
    SettlesItsOwn(s, concurrency, Settle(w, result));
    assert RunsTicket(s, w, s.workers[w].ticket);
    StepKeepsConsistent(s, concurrency, Settle(w, result));
    SettlesOnce(Next(s, concurrency, Settle(w, result)), concurrency, more, later, s.workers[w].ticket);
  }

  lemma {:induction false} StepKeepsResults(s: State, concurrency: nat, e: Event, t: Ticket)
    requires Consistent(s, concurrency) && Enabled(s, e) && t in s.settled
    ensures t in Next(s, concurrency, e).settled && Next(s, concurrency, e).settled[t] == s.settled[t]
  {
    match e
    case Enqueue(league, force, week) =>
      if league !in s.pending {
        QueuingKeepsConsistent(s, concurrency, league, force, week);
        PumpingKeepsConsistent(Queued(s, league, force, week), concurrency);
      }
    case Settle(w, result) => assert RunsTicket(s, w, s.workers[w].ticket);
    case Resume(w) =>
    case Fail(w) =>
  }

  /** A settled ticket keeps its first result, whatever happens next. */
  lemma {:induction false} SettlesOnce(s: State, concurrency: nat, events: seq<Event>, s': State, t: Ticket)
    requires Consistent(s, concurrency) && Leads(s, concurrency, events, s') && t in s.settled
    ensures t in s'.settled && s'.settled[t] == s.settled[t]
    decreases |events|
  {
    if events != [] {
      StepKeepsConsistent(s, concurrency, events[0]);
      StepKeepsResults(s, concurrency, events[0], t);
      SettlesOnce(Next(s, concurrency, events[0]), concurrency, events[1..], s', t);
    }
  }

  /** Work left: what waits counts three, what runs two, a worker between jobs one. */
  function Occupied(workers: map<WorkerId, Worker>): set<WorkerId> {
    set w | w in workers && workers[w].Running?
  }

  function RunningCount(workers: map<WorkerId, Worker>): nat {
    |Occupied(workers)|
  }

  function Remaining(s: State): nat {
    3 * |s.queue| + RunningCount(s.workers) + |s.workers|
  }

  lemma {:induction false} RunningCountUpdate(workers: map<WorkerId, Worker>, w: WorkerId, now: Worker)
    requires w in workers
    ensures RunningCount(workers[w := now]) == RunningCount(workers) - (if workers[w].Running? then 1 else 0) +
      (if now.Running? then 1 else 0)
    ensures |workers[w := now]| == |workers|
  {
    var before, after := Occupied(workers), Occupied(workers[w := now]);
    assert after == if now.Running? then before + {w} else before - {w};
    assert workers[w := now].Keys == workers.Keys && |workers.Keys| == |workers|;
    assert |workers[w := now]| == |workers[w := now].Keys|;
  }

  lemma {:induction false} RunningCountRemove(workers: map<WorkerId, Worker>, w: WorkerId)
    requires w in workers && workers[w].Between?
    ensures RunningCount(workers - {w}) == RunningCount(workers) && |workers - {w}| == |workers| - 1
  {
    assert (workers - {w}).Keys == workers.Keys - {w} && |workers - {w}| == |(workers - {w}).Keys| &&
      |workers.Keys| == |workers|;
    assert Occupied(workers - {w}) == Occupied(workers);
  }

  lemma {:induction false} StepUsesUp(s: State, concurrency: nat, e: Event)
    requires Enabled(s, e) && !e.Enqueue?
    ensures Remaining(Next(s, concurrency, e)) < Remaining(s)
  {
    match e
    case Settle(w, _) => RunningCountUpdate(s.workers, w, Between);
    case Resume(w) =>
      if s.queue == [] {
        RunningCountRemove(s.workers, w);
      } else {
        RunningCountUpdate(s.workers, w, Running(s.queue[0]));
      }
    case Fail(w) => RunningCountRemove(s.workers, w);
  }

  /** Draining ends: without new jobs only so many steps can follow. */
  lemma {:induction false} DrainingEnds(s: State, concurrency: nat, events: seq<Event>, s': State)
    requires Leads(s, concurrency, events, s') && forall i | 0 <= i < |events| :: !events[i].Enqueue?
    ensures |events| + Remaining(s') <= Remaining(s)
    decreases |events|
  {
    if events != [] {
      StepUsesUp(s, concurrency, events[0]);
      DrainingEnds(Next(s, concurrency, events[0]), concurrency, events[1..], s');
    }
  }

  /** Every worker always has a step to take; and when the last one is gone, every job ever queued has
      settled and nothing is pending, exactly if nothing is left in the queue, which no run leaves in which
      no loop failed while a job was waiting. */
  lemma {:induction false} DrainedMeansSettled(concurrency: nat, events: seq<Event>, s: State)
    requires 0 < concurrency && Leads(IDLE, concurrency, events, s)
    ensures forall w | w in s.workers :: Enabled(s, Resume(w)) || Enabled(s, Settle(w, ""))
    ensures s.workers == map[] ==>
      (s.pending == map[] && (forall t: Ticket | t in s.jobs :: t in s.settled) <==> s.queue == [])
    ensures s.workers == map[] && Spared(IDLE, concurrency, events) ==> s.queue == []
  {
    LeadsKeepsConsistent(IDLE, concurrency, events, s);
    if Spared(IDLE, concurrency, events) {
      LeadsKeepsSound(IDLE, concurrency, events, s);
    }
    forall w | w in s.workers ensures Enabled(s, Resume(w)) || Enabled(s, Settle(w, "")) {
      CanStep(s, w);
    }
    if s.workers == map[] {
      NobodyLeft(s, concurrency);
    }
  }

  lemma {:induction false} CanStep(s: State, w: WorkerId)
    requires OnePlaceEach(s) && w in s.workers
    ensures Enabled(s, Resume(w)) || Enabled(s, Settle(w, ""))
  {
    if s.workers[w].Running? {
      assert RunsTicket(s, w, s.workers[w].ticket);
    }
  }

  lemma {:induction false} NobodyLeft(s: State, concurrency: nat)
    requires Consistent(s, concurrency) && s.workers == map[]
    ensures s.pending == map[] && (forall t: Ticket | t in s.jobs :: t in s.settled) <==> s.queue == []
  {
    forall t: Ticket ensures Alive(s, t) <==> t in s.queue {
      forall w ensures !RunsTicket(s, w, t) {}
    }
    if s.queue == [] {
      assert forall l :: l !in s.pending;
    } else {
      assert s.queue[0] in s.queue;
    }
  }

  // ----- the worker itself -----

  class LeagueSyncWorker {
    const concurrency: nat
    var queue: seq<Ticket>
    var jobs: map<Ticket, Job>
    var pending: map<LeagueId, Ticket>
    var workers: map<WorkerId, Worker>
    var settled: map<Ticket, JobResult>
    var nextTicket: nat
    var nextWorker: nat

    function View(): State
      reads this
    {
      State(queue, jobs, pending, workers, settled, nextTicket, nextWorker)
    }

    constructor (concurrency: nat)
      ensures this.concurrency == (if concurrency >= 1 then concurrency else 1) && View() == IDLE
    {
      this.concurrency := if concurrency >= 1 then concurrency else 1;
      queue, jobs, pending, workers, settled, nextTicket, nextWorker := [], map[], map[], map[], map[], 0, 0;
    }

    /** Coalesces with the league's pending job, or queues a new one and starts what the limit allows. */
    method Enqueue(league: LeagueId, force: bool, week: Option<int>) returns (ticket: Ticket)
      requires Consistent(View(), concurrency)
      modifies this
      ensures View() == Enqueued(old(View()), concurrency, league, force, week)
      ensures ticket == if league in old(pending) then old(pending)[league] else old(nextTicket)
    {
      if league in pending {
        ticket := pending[league];
        var existing := jobs[ticket];
        existing := existing.(force := existing.force || force);
        if week.Some? {
          existing := existing.(week := week);
        }
        jobs := jobs[ticket := existing];
        return;
      }
      ticket := nextTicket;
      Push(league, force, week);
      Pump();
    }

    method Push(league: LeagueId, force: bool, week: Option<int>)
      modifies this
      ensures View() == Queued(old(View()), league, force, week)
    {
      queue := queue + [nextTicket];
      jobs := jobs[nextTicket := Job(league, force, week)];
      pending := pending[league := nextTicket];
      nextTicket := nextTicket + 1;
    }

    method Pump()
      modifies this
      ensures View() == Pumped(old(View()), concurrency)
    {
      while |workers| < concurrency && |queue| > 0
        invariant Pumped(View(), concurrency) == Pumped(old(View()), concurrency)
        decreases |queue|
      {
        var job := queue[0];
        queue := queue[1..];
        workers := workers[nextWorker := Running(job)];
        nextWorker := nextWorker + 1;
      }
    }

    /** A worker's job came back. */
    method Settle(w: WorkerId, result: JobResult)
      requires Consistent(View(), concurrency) && Runs(View(), w)
      modifies this
      ensures View() == SettledBy(old(View()), w, result)
      ensures old(workers)[w].ticket !in old(settled)
    {
      var ticket := workers[w].ticket;
      assert RunsTicket(View(), w, ticket);
      pending := pending - {jobs[ticket].league};
      settled := settled[ticket := result];
      workers := workers[w := Between];
    }

    /** The worker's loop goes on with the next job, or leaves. */
    method Resume(w: WorkerId)
      requires w in workers && workers[w].Between? && w < nextWorker
      modifies this
      ensures View() == Resumed(old(View()), w)
    {
      if |queue| == 0 {
        workers := workers - {w};
        return;
      }
      var job := queue[0];
      queue := queue[1..];
      workers := workers[w := Running(job)];
    }

    /** Renewing the sweep's lease failed, and the loop is over. */
    method Fail(w: WorkerId)
      requires w in workers && workers[w].Between?
      modifies this`workers
      ensures View() == Failed(old(View()), w)
    {
      workers := workers - {w};
    }
  }
}
