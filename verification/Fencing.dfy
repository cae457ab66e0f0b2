/** What the publish lease is for: a run that lost it can no longer write, and a run that kept it can. */
module Fencing {
  import opened LeagueRules
  import opened Leases
  import opened Publication
  import opened Resources

  /** The run is past polling and does not own its league's lease: it never will again. */
  predicate Fenced(w: World, owner: Owner) {
    owner in w.runs && !w.runs[owner].phase.Waiting? && !LeaseOwner(w, w.runs[owner].league, owner)
  }

  ghost predicate NoneBy(authors: seq<Author>, owner: Owner) {
    forall i | 0 <= i < |authors| && authors[i].Guarded? :: authors[i].owner != owner
  }

  lemma {:induction false} StaysFenced(w: World, e: Event, owner: Owner)
    requires Enabled(w, e) && Fenced(w, owner)
    ensures Fenced(Next(w, e), owner)
    ensures w.authors <= Next(w, e).authors && NoneBy(Next(w, e).authors[|w.authors|..], owner)
  {
    var l := w.runs[owner].league;
    assert Next(w, e).runs[owner].league == l;
  }

  lemma {:induction false} FencedForever(w: World, events: seq<Event>, w': World, owner: Owner)
    requires Leads(w, events, w') && Fenced(w, owner)
    ensures Fenced(w', owner) && w.authors <= w'.authors && NoneBy(w'.authors[|w.authors|..], owner)
    decreases |events|
  {
    if events != [] {
      StaysFenced(w, events[0], owner);
      var next := Next(w, events[0]);
      FencedForever(next, events[1..], w', owner);
      assert w'.authors[|w.authors|..] == next.authors[|w.authors|..] + w'.authors[|next.authors|..];
    }
  }

  /** Once a newer run b has acquired a league's publish lease, nothing that follows, with any clocks,
      expiries, finishes and crashes, lets a write of the earlier run a land; and whenever a tries, the
      refused write changes nothing at all. */
  lemma {:induction false} FencedOut(w: World, a: Owner, b: Owner, now: int, events: seq<Event>, w': World)
    requires a in w.runs && w.runs[a].phase.Holding?
    requires b in w.runs && w.runs[b] == Run(w.runs[a].league, Waiting)
    requires Holds(Polled(w, b, now), b, w.runs[a].league)
    requires Leads(Polled(w, b, now), events, w')
    ensures w.authors <= w'.authors && NoneBy(w'.authors[|w.authors|..], a)
    ensures forall at, sync | a in w'.runs && w'.runs[a].phase.Holding? :: Published(w', a, at, sync) == w'
  {
    FencedForever(Polled(w, b, now), events, w', a);
  }

  /** Past polling, and with a lease of this expiry if with any. */
  predicate Leased(w: World, owner: Owner, league: LeagueId, expiresAt: int) {
    && owner in w.runs && w.runs[owner].league == league && !w.runs[owner].phase.Waiting?
    && (LeaseOwner(w, league, owner) ==> w.leases[PublishKey(league)].expiresAt == expiresAt)
  }

  lemma {:induction false} StaysLeased(w: World, events: seq<Event>, w': World, owner: Owner, league: LeagueId,
          expiresAt: int)
    requires Leads(w, events, w') && Leased(w, owner, league, expiresAt)
    ensures Leased(w', owner, league, expiresAt)
    decreases |events|
  {
    if events != [] {
      LeasedNext(w, events[0], owner, league, expiresAt);
      StaysLeased(Next(w, events[0]), events[1..], w', owner, league, expiresAt);
    }
  }

  lemma {:induction false} LeasedNext(w: World, e: Event, owner: Owner, league: LeagueId, expiresAt: int)
    requires Enabled(w, e) && Leased(w, owner, league, expiresAt)
    ensures Leased(Next(w, e), owner, league, expiresAt)
  {
    if LeaseOwner(Next(w, e), league, owner) {
      assert e.Poll? ==> e.owner != owner;
    }
  }

  /** A run that has outlived the lease it acquired lands nothing any more, even if nobody else took the
      lease: the refused write changes nothing. */
  lemma {:induction false} LateWriteIsRefused(w: World, a: Owner, now: int, events: seq<Event>, w': World, at: int,
          sync: Sync)
    requires a in w.runs && w.runs[a].phase.Waiting?
    requires Holds(Polled(w, a, now), a, w.runs[a].league)
    requires Leads(Polled(w, a, now), events, w') && a in w'.runs && w'.runs[a].phase.Holding?
    requires now + 10 * 60_000 <= at
    ensures Published(w', a, at, sync) == w'
  {
    StaysLeased(Polled(w, a, now), events, w', a, w.runs[a].league, now + PUBLISH_TTL);
  }

  /** A run that finishes while it owns its league's lease hands it on: any run that waits for the league gets
      it at its next poll, whatever the clocks say. */
  lemma {:induction false} FinishingHandsOn(w: World, a: Owner, b: Owner, now: int)
    requires a in w.runs && Holds(w, a, w.runs[a].league) && LeaseOwner(w, w.runs[a].league, a)
    requires b in w.runs && w.runs[b] == Run(w.runs[a].league, Waiting)
    ensures Enabled(w, Finish(a))
    ensures var w' := Polled(Next(w, Finish(a)), b, now);
      Holds(w', b, w.runs[a].league) && LeaseOwner(w', w.runs[a].league, b)
  {
  }

  /** Nobody else's clock has reached the expiry, and the owner takes no step. */
  ghost predicate Respected(events: seq<Event>, owner: Owner, expiresAt: int) {
    forall i | 0 <= i < |events| && !events[i].Write? ::
      events[i].owner != owner && (events[i].Poll? ==> events[i].now < expiresAt)
  }

  lemma {:induction false} LeaseSurvives(w: World, events: seq<Event>, w': World, owner: Owner, league: LeagueId)
    requires Leads(w, events, w') && Holds(w, owner, league) && LeaseOwner(w, league, owner)
    requires Respected(events, owner, w.leases[PublishKey(league)].expiresAt)
    ensures Holds(w', owner, league) && w'.runs[owner] == w.runs[owner]
    ensures PublishKey(league) in w'.leases && w'.leases[PublishKey(league)] == w.leases[PublishKey(league)]
    decreases |events|
  {
    if events != [] {
      var next := Next(w, events[0]);
      assert next.runs[owner] == w.runs[owner];
      assert PublishKey(league) in next.leases && next.leases[PublishKey(league)] == w.leases[PublishKey(league)];
      LeaseSurvives(next, events[1..], w', owner, league);
    }
  }

  /** The guard refuses no more than it must: a run publishing before its own lease expires, when no
      other clock has passed that expiry, does land, whatever the other runs and writers did in between, and
      readers see all it carries, a weekly snapshot unless one had its id already. */
  lemma {:induction false} TimelyWriteLands(w: World, a: Owner, now: int, events: seq<Event>, w': World, at: int,
          sync: Sync)
    requires a in w.runs && w.runs[a].phase.Waiting?
    requires Holds(Polled(w, a, now), a, w.runs[a].league)
    requires Leads(Polled(w, a, now), events, w') && Respected(events, a, now + PUBLISH_TTL) && at < now + PUBLISH_TTL
    ensures Holds(w', a, w.runs[a].league)
    ensures Published(w', a, at, sync).changes == w'.changes + [Merge(sync)]
    ensures forall r | Carried(Merge(sync), r).Some? ::
      Read(Published(w', a, at, sync).shared, r) == if WrittenOnce(r) && Read(w'.shared, r).Some? then
        Read(w'.shared, r) else Carried(Merge(sync), r)
  {
    LeaseSurvives(Polled(w, a, now), events, w', a, w.runs[a].league);
    forall r ensures Read(Merged(w'.shared, sync), r) == ReadAfter(Read(w'.shared, r), Merge(sync), r) {
      ReadMerged(w'.shared, sync, r);
    }
  }
}
