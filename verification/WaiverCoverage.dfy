/** Coverage of the starting slots over the remaining weeks, before and after an add/drop pair. */
module WaiverCoverage {
  import opened LeagueRules
  import Lineup
  import opened SlotMatching

  /** A rostered or available player, with the forecast's byes and absences. */
  datatype RosterPlayer = RosterPlayer(id: string, positions: seq<Position>, byes: set<int>,
                                       unavailableNow: bool, unavailableThrough: Option<int>)

  predicate CanPlay(p: RosterPlayer, week: int, selectedWeek: int) {
    && week !in p.byes
    && !(week == selectedWeek && p.unavailableNow)
    && !(p.unavailableThrough.Some? && week <= p.unavailableThrough.value)
  }

  function PoolAt(players: seq<RosterPlayer>, week: int, selectedWeek: int): seq<Candidate> {
    seq(|players|, k requires 0 <= k < |players| =>
      Candidate(players[k].id, players[k].positions, CanPlay(players[k], week, selectedWeek)))
  }

  /** In a week the pairs are those of a slot and a player who fits it, has no bye that week, is not out in
      the selected week, and is not out through it. */
  lemma {:induction false} EdgesOfWeek(players: seq<RosterPlayer>, week: int, selectedWeek: int, slots: seq<Position>,
          id: string, s: nat)
    ensures (id, s) in EdgeSet(PoolAt(players, week, selectedWeek), slots) <==>
      s < |slots| && (exists k: nat ::
        k < |players| && players[k].id == id && CanFill(players[k].positions, slots[s])
        && week !in players[k].byes && (players[k].unavailableNow ==> week != selectedWeek)
        && (players[k].unavailableThrough.Some? ==> players[k].unavailableThrough.value < week))
  {
    var pool := PoolAt(players, week, selectedWeek);
    EdgeSetHas(pool, slots, id, s);
    forall k: nat | k < |players|
      ensures CanTake(pool[k], slots, id, s) <==>
        (s < |slots| && players[k].id == id && CanFill(players[k].positions, slots[s])
        && week !in players[k].byes && (players[k].unavailableNow ==> week != selectedWeek)
        && (players[k].unavailableThrough.Some? ==> players[k].unavailableThrough.value < week))
    {
    }
  }

  // ----- maximum matchings against lineups -----

  ghost predicate UniqueIds(pool: seq<Candidate>) {
    forall a, b | 0 <= a < b < |pool| :: pool[a].id != pool[b].id
  }

  /** The players of a pool who can play, in order, with their points. */
  function Playable(pool: seq<Candidate>, points: map<string, real>): seq<Lineup.Player> {
    if pool == [] then []
    else
      var c := pool[|pool| - 1];
      Playable(pool[..|pool| - 1], points)
      + (if c.canPlay then [Lineup.Player(c.id, c.positions, if c.id in points then points[c.id] else 0.0)] else [])
  }

  /** Lineup players as candidates who can play. */
  ghost function AsCandidates(players: seq<Lineup.Player>): seq<Candidate> {
    if players == [] then []
    else
      var p := players[|players| - 1];
      AsCandidates(players[..|players| - 1]) + [Candidate(p.id, p.positions, true)]
  }

  lemma {:induction false} AsCandidatesAt(players: seq<Lineup.Player>)
    ensures |AsCandidates(players)| == |players|
    ensures forall k | 0 <= k < |players| ::
      AsCandidates(players)[k] == Candidate(players[k].id, players[k].positions, true)
  {
    if players != [] {
      AsCandidatesAt(players[..|players| - 1]);
    }
  }

  lemma {:induction false} PlayableEdges(pool: seq<Candidate>, slots: seq<Position>, points: map<string, real>)
    ensures EdgeSet(AsCandidates(Playable(pool, points)), slots) == EdgeSet(pool, slots)
  {
    if pool != [] {
      var before, after := Playable(pool[..|pool| - 1], points), Playable(pool, points);
      PlayableEdges(pool[..|pool| - 1], slots, points);
      if pool[|pool| - 1].canPlay {
        assert after[..|after| - 1] == before;
        AsCandidatesAt(after);
        assert AsCandidates(after)[..|after| - 1] == AsCandidates(before);
        assert PlayerEdges(AsCandidates(after)[|after| - 1], slots) == PlayerEdges(pool[|pool| - 1], slots);
      } else {
        assert after == before;
        assert PlayerEdges(pool[|pool| - 1], slots) == {};
      }
    }
  }

  lemma {:induction false} PlayableIds(pool: seq<Candidate>, points: map<string, real>)
    requires UniqueIds(pool)
    ensures forall k | 0 <= k < |Playable(pool, points)| :: Playable(pool, points)[k].id in Ids(pool)
    ensures forall a, b | 0 <= a < b < |Playable(pool, points)| ::
      Playable(pool, points)[a].id != Playable(pool, points)[b].id
  {
    if pool != [] {
      PlayableIds(pool[..|pool| - 1], points);
      if pool[|pool| - 1].id in Ids(pool[..|pool| - 1]) {
        IdsHas(pool[..|pool| - 1], pool[|pool| - 1].id);
      }
    }
  }

  ghost function HeldBelow(m: Assigned, n: nat): set<string> {
    set id | id in m && m[id] < n
  }

  /** The players of edges: k can fill slot s. */
  lemma {:induction false} SeatFor(players: seq<Lineup.Player>, slots: seq<Position>, id: string, s: nat)
    returns (k: nat)
    requires (id, s) in EdgeSet(AsCandidates(players), slots)
    ensures s < |slots| && k < |players| && players[k].id == id && CanFill(players[k].positions, slots[s])
  {
    AsCandidatesAt(players);
    EdgeSetHas(AsCandidates(players), slots, id, s);
    k :| 0 <= k < |players| && CanTake(AsCandidates(players)[k], slots, id, s);
    assert AsCandidates(players)[k] == Candidate(players[k].id, players[k].positions, true);
  }

  ghost predicate Seated(l: Lineup.Lineup, m: Assigned, players: seq<Lineup.Player>, slots: seq<Position>, s: nat)
    requires s < |l|
  {
    l[s].Some? ==>
      && s < |slots| && l[s].value < |players| && CanFill(players[l[s].value].positions, slots[s])
      && players[l[s].value].id in m && m[players[l[s].value].id] == s
  }

  lemma {:induction false} HeldStep(m: Assigned, n: nat, id: string)
    requires Injective(m) && id in m && m[id] == n
    ensures |HeldBelow(m, n + 1)| == |HeldBelow(m, n)| + 1
  {
    assert HeldBelow(m, n + 1) == HeldBelow(m, n) + {id};
  }

  lemma {:induction false} HeldNone(m: Assigned, n: nat)
    requires forall id | id in m :: m[id] != n
    ensures HeldBelow(m, n + 1) == HeldBelow(m, n)
  {
  }

  lemma {:induction false} AllHeldBelow(m: Assigned, pool: seq<Candidate>, slots: seq<Position>)
    requires IsMatching(m, EdgeSet(pool, slots))
    ensures |HeldBelow(m, |slots|)| == |m|
  {
    forall id | id in m ensures m[id] < |slots| {
      EdgeSetHas(pool, slots, id, m[id]);
    }
    assert HeldBelow(m, |slots|) == m.Keys && |m| == |m.Keys|;
  }

  /** The lineup that seats each matched player in the player's slot. */
  lemma {:induction false} LineupOfMatching(m: Assigned, players: seq<Lineup.Player>, slots: seq<Position>, n: nat)
    returns (l: Lineup.Lineup)
    requires IsMatching(m, EdgeSet(AsCandidates(players), slots)) && n <= |slots|
    ensures |l| == n && Lineup.Filled(l) == |HeldBelow(m, n)|
    ensures forall s | 0 <= s < n :: Seated(l, m, players, slots, s)
  {
    if n == 0 {
      l := [];
      assert HeldBelow(m, n) == {};
    } else {
      var rest := LineupOfMatching(m, players, slots, n - 1);
      var entry: Option<nat> := None;
      if exists id :: id in m && m[id] == n - 1 {
        var id :| id in m && m[id] == n - 1;
        var k := SeatFor(players, slots, id, m[id]);
        entry := Some(k);
        HeldStep(m, n - 1, id);
      } else {
        HeldNone(m, n - 1);
      }
      l := rest + [entry];
      assert l[..n - 1] == rest;
      forall s | 0 <= s < n - 1 ensures Seated(l, m, players, slots, s) {
        assert Seated(rest, m, players, slots, s);
      }
    }
  }

  lemma {:induction false} SeatedIsLegal(l: Lineup.Lineup, m: Assigned, players: seq<Lineup.Player>,
          slots: seq<Position>)
    requires |l| == |slots| && forall s | 0 <= s < |slots| :: Seated(l, m, players, slots, s)
    ensures Lineup.Legal(l, players, slots)
  {
    forall s, t | 0 <= s < t < |l| && l[s].Some? && l[t].Some? ensures l[s].value != l[t].value {
      assert Seated(l, m, players, slots, s) && Seated(l, m, players, slots, t);
    }
    forall s | 0 <= s < |l| && l[s].Some?
      ensures l[s].value < |players| && Lineup.Eligible(players, slots, l[s].value, s)
    {
      assert Seated(l, m, players, slots, s);
    }
  }

  lemma {:induction false} OneMoreKey(m: Assigned, id: string, s: nat)
    requires id !in m
    ensures |m[id := s]| == |m| + 1
  {
    assert m[id := s].Keys == m.Keys + {id};
    assert |m[id := s]| == |m[id := s].Keys| && |m| == |m.Keys|;
  }

  /** How many of the first n slots a lineup fills. */
  function FilledTo(l: Lineup.Lineup, n: nat): nat
    requires n <= |l|
  {
    if n == 0 then 0 else FilledTo(l, n - 1) + if l[n - 1].Some? then 1 else 0
  }

  lemma {:induction false} FilledToIsFilled(l: Lineup.Lineup, n: nat)
    requires n <= |l|
    ensures FilledTo(l, n) == Lineup.Filled(l[..n])
  {
    if n != 0 {
      FilledToIsFilled(l, n - 1);
      assert l[..n][..n - 1] == l[..n - 1];
    }
  }

  /** Who sits in a slot. */
  function Sitter(l: Lineup.Lineup, players: seq<Lineup.Player>, s: nat): Option<string> {
    if s < |l| && l[s].Some? && l[s].value < |players| then Some(players[l[s].value].id) else None
  }

  /** Every filled slot has its own sitter. */
  ghost predicate DistinctSitters(l: Lineup.Lineup, players: seq<Lineup.Player>) {
    && (forall s: nat | s < |l| :: l[s].Some? ==> Sitter(l, players, s).Some?)
    && (forall s: nat, t: nat | s < t :: Sitter(l, players, s).None? || Sitter(l, players, s) != Sitter(l, players, t))
  }

  lemma {:induction false} LegalSitters(l: Lineup.Lineup, players: seq<Lineup.Player>, slots: seq<Position>)
    requires Lineup.Legal(l, players, slots)
    requires forall a, b | 0 <= a < b < |players| :: players[a].id != players[b].id
    ensures DistinctSitters(l, players)
  {
    forall s: nat, t: nat | s < t && Sitter(l, players, s).Some? && Sitter(l, players, t).Some?
      ensures Sitter(l, players, s) != Sitter(l, players, t)
    {
      assert l[s].value != l[t].value;
    }
  }

  /** The matching that a lineup's first n slots describe. */
  ghost function Seats(l: Lineup.Lineup, players: seq<Lineup.Player>, n: nat): Assigned {
    if n == 0 then map[]
    else
      var sitter := Sitter(l, players, n - 1);
      if sitter.Some? then Seats(l, players, n - 1)[sitter.value := n - 1] else Seats(l, players, n - 1)
  }

  lemma {:induction false} SeatsHas(l: Lineup.Lineup, players: seq<Lineup.Player>, n: nat, id: string)
    requires id in Seats(l, players, n)
    ensures Seats(l, players, n)[id] < n && Sitter(l, players, Seats(l, players, n)[id]) == Some(id)
  {
    if Sitter(l, players, n - 1) != Some(id) {
      SeatsHas(l, players, n - 1, id);
    }
  }

  lemma {:induction false} SeatsCount(l: Lineup.Lineup, players: seq<Lineup.Player>, n: nat)
    requires DistinctSitters(l, players) && n <= |l|
    ensures |Seats(l, players, n)| == FilledTo(l, n)
  {
    if n != 0 {
      SeatsCount(l, players, n - 1);
      var sitter := Sitter(l, players, n - 1);
      if sitter.Some? {
        if sitter.value in Seats(l, players, n - 1) {
          SeatsHas(l, players, n - 1, sitter.value);
        }
        OneMoreKey(Seats(l, players, n - 1), sitter.value, n - 1);
      }
    }
  }

  lemma {:induction false} FilledIsMatched(l: Lineup.Lineup, players: seq<Lineup.Player>, slots: seq<Position>)
    returns (m: Assigned)
    requires Lineup.Legal(l, players, slots)
    requires forall a, b | 0 <= a < b < |players| :: players[a].id != players[b].id
    ensures |m| == Lineup.Filled(l) && IsMatching(m, EdgeSet(AsCandidates(players), slots))
  {
    m := Seats(l, players, |slots|);
    LegalSitters(l, players, slots);
    SeatsCount(l, players, |slots|);
    FilledToIsFilled(l, |slots|);
    assert l[..|slots|] == l;
    forall id | id in m ensures (id, m[id]) in EdgeSet(AsCandidates(players), slots) {
      SeatsHas(l, players, |slots|, id);
      SitterIsEdge(l, players, slots, m[id]);
    }
    forall a, b | a in m && b in m && a != b ensures m[a] != m[b] {
      SeatsHas(l, players, |slots|, a);
      SeatsHas(l, players, |slots|, b);
    }
  }

  lemma {:induction false} SitterIsEdge(l: Lineup.Lineup, players: seq<Lineup.Player>, slots: seq<Position>, s: nat)
    requires Lineup.Legal(l, players, slots) && Sitter(l, players, s).Some?
    ensures (Sitter(l, players, s).value, s) in EdgeSet(AsCandidates(players), slots)
  {
    var k := l[s].value;
    AsCandidatesAt(players);
    assert Lineup.Eligible(players, slots, k, s);
    assert CanTake(AsCandidates(players)[k], slots, players[k].id, s);
    EdgeSetHas(AsCandidates(players), slots, players[k].id, s);
  }

  /** The augmenting-path count is the number of slots the best lineup of the same playable pool fills. */
  lemma {:induction false} MaxFillIsBestFilled(k: nat, pool: seq<Candidate>, slots: seq<Position>,
          points: map<string, real>, l: Lineup.Lineup)
    requires UniqueIds(pool)
    requires IsMaxFill(k, EdgeSet(pool, slots))
    requires Lineup.Best(l, Playable(pool, points), slots)
    ensures Lineup.Filled(l) == k
  {
    var players := Playable(pool, points);
    PlayableIds(pool, points);
    PlayableEdges(pool, slots, points);
    var own := FilledIsMatched(l, players, slots);
    var m: Assigned :| IsMatching(m, EdgeSet(pool, slots)) && |m| == k;
    var o := LineupOfMatching(m, players, slots, |slots|);
    SeatedIsLegal(o, m, players, slots);
    AllHeldBelow(m, pool, slots);
    assert Lineup.NoWorse(l, o, players);
  }

  lemma {:induction false} CompleteLineupOfMatching(m: Assigned, pool: seq<Candidate>, slots: seq<Position>,
          points: map<string, real>)
    returns (l: Lineup.Lineup)
    requires IsMatching(m, EdgeSet(pool, slots)) && |m| == |slots|
    ensures Lineup.Legal(l, Playable(pool, points), slots) && Lineup.Complete(l)
  {
    var players := Playable(pool, points);
    PlayableEdges(pool, slots, points);
    l := LineupOfMatching(m, players, slots, |slots|);
    SeatedIsLegal(l, m, players, slots);
    AllHeldBelow(m, pool, slots);
    Lineup.FilledBound(l);
  }

  /** The players who can play make a complete legal lineup. */
  ghost predicate CanBeComplete(pool: seq<Candidate>, slots: seq<Position>, points: map<string, real>) {
    exists l :: Lineup.Legal(l, Playable(pool, points), slots) && Lineup.Complete(l)
  }

  /** All slots can be filled at once exactly when a complete legal lineup exists. */
  lemma {:induction false} FullIffComplete(k: nat, pool: seq<Candidate>, slots: seq<Position>,
          points: map<string, real>)
    requires UniqueIds(pool) && IsMaxFill(k, EdgeSet(pool, slots))
    ensures k == |slots| <==> CanBeComplete(pool, slots, points)
  {
    if k == |slots| {
      var m: Assigned :| IsMatching(m, EdgeSet(pool, slots)) && |m| == k;
      var l := CompleteLineupOfMatching(m, pool, slots, points);
    }
    if l :| Lineup.Legal(l, Playable(pool, points), slots) && Lineup.Complete(l) {
      PlayableIds(pool, points);
      PlayableEdges(pool, slots, points);
      Lineup.FilledBound(l);
      var own := FilledIsMatched(l, Playable(pool, points), slots);
      var m: Assigned :| IsMatching(m, EdgeSet(pool, slots)) && |m| == k;
      NoMoreThanSlots(m, pool, slots, points);
    }
  }

  lemma {:induction false} NoMoreThanSlots(m: Assigned, pool: seq<Candidate>, slots: seq<Position>,
          points: map<string, real>)
    requires IsMatching(m, EdgeSet(pool, slots))
    ensures |m| <= |slots|
  {
    PlayableEdges(pool, slots, points);
    var l := LineupOfMatching(m, Playable(pool, points), slots, |slots|);
    AllHeldBelow(m, pool, slots);
    Lineup.FilledBound(l);
  }

  // ----- adding a player -----

  lemma {:induction false} EdgesGrow(pool: seq<Candidate>, c: Candidate, slots: seq<Position>)
    ensures EdgeSet(pool, slots) <= EdgeSet(pool + [c], slots)
  {
    assert (pool + [c])[..|pool|] == pool;
  }

  lemma {:induction false} MaxFillGrows(j: nat, k: nat, edges: Edges, more: Edges)
    requires edges <= more && IsMaxFill(j, edges) && IsMaxFill(k, more)
    ensures j <= k
  {
    var m :| IsMatching(m, edges) && |m| == j;
    assert IsMatching(m, more);
  }

  // ----- the add/drop check -----

  function CountAt(players: seq<RosterPlayer>, pos: Position): nat {
    if players == [] then 0
    else CountAt(players[..|players| - 1], pos) + (if pos in players[|players| - 1].positions then 1 else 0)
  }

  /** The players at a position. */
  ghost function Holders(players: seq<RosterPlayer>, pos: Position): set<nat> {
    set k: nat | k < |players| && pos in players[k].positions
  }

  lemma {:induction false} HoldersNext(front: seq<RosterPlayer>, last: RosterPlayer, pos: Position)
    ensures |Holders(front + [last], pos)| == |Holders(front, pos)| + (if pos in last.positions then 1 else 0)
  {
    if pos in last.positions {
      assert Holders(front + [last], pos) == Holders(front, pos) + {|front|};
    } else {
      assert Holders(front + [last], pos) == Holders(front, pos);
    }
  }

  lemma {:induction false} CountAtIsHolders(players: seq<RosterPlayer>, pos: Position)
    ensures CountAt(players, pos) == |Holders(players, pos)|
    decreases |players|
  {
    if players == [] {
      assert Holders(players, pos) == {};
    } else {
      var front, last := players[..|players| - 1], players[|players| - 1];
      CountAtIsHolders(front, pos);
      HoldersNext(front, last, pos);
      assert players == front + [last];
    }
  }

  ghost predicate WithinLimits(players: seq<RosterPlayer>, limits: map<Position, int>) {
    forall pos | pos in limits :: |Holders(players, pos)| <= limits[pos]
  }

  function Without(players: seq<RosterPlayer>, drop: Option<string>): seq<RosterPlayer>
    decreases |players|
  {
    if players == [] then []
    else
      var last := players[|players| - 1];
      Without(players[..|players| - 1], drop) + (if drop == Some(last.id) then [] else [last])
  }

  ghost predicate Increasing(at: seq<nat>) {
    forall i, j | 0 <= i < j < |at| :: at[i] < at[j]
  }

  /** The indices of everybody but the dropped player, in order. */
  ghost predicate Stayers(at: seq<nat>, players: seq<RosterPlayer>, drop: Option<string>) {
    Increasing(at) && forall k: nat :: k in at <==> k < |players| && drop != Some(players[k].id)
  }

  /** Exactly these players, in this order. */
  ghost predicate PickedAt(roster: seq<RosterPlayer>, players: seq<RosterPlayer>, at: seq<nat>) {
    |roster| == |at| && forall i | 0 <= i < |at| :: at[i] < |players| && roster[i] == players[at[i]]
  }

  lemma {:induction false} StayersSkip(at: seq<nat>, front: seq<RosterPlayer>, last: RosterPlayer, drop: Option<string>)
    requires Stayers(at, front, drop) && drop == Some(last.id)
    ensures Stayers(at, front + [last], drop)
  {
  }

  lemma {:induction false} StayersMore(at: seq<nat>, front: seq<RosterPlayer>, last: RosterPlayer, drop: Option<string>)
    requires Stayers(at, front, drop) && drop != Some(last.id)
    ensures Stayers(at + [|front|], front + [last], drop)
  {
    forall i | 0 <= i < |at| ensures at[i] < |front| {
      assert at[i] in at;
    }
    forall k: nat ensures k in at + [|front|] <==> k in at || k == |front| {}
  }

  lemma {:induction false} PickedNext(roster: seq<RosterPlayer>, front: seq<RosterPlayer>, at: seq<nat>,
          last: RosterPlayer)
    requires PickedAt(roster, front, at)
    ensures PickedAt(roster, front + [last], at) && PickedAt(roster + [last], front + [last], at + [|front|])
  {
  }

  lemma {:induction false} WithoutNext(front: seq<RosterPlayer>, last: RosterPlayer, drop: Option<string>)
    ensures Without(front + [last], drop) == Without(front, drop) + (if drop == Some(last.id) then [] else [last])
  {
    assert (front + [last])[..|front|] == front;
  }

  lemma {:induction false} WithoutPicks(players: seq<RosterPlayer>, drop: Option<string>) returns (at: seq<nat>)
    ensures Stayers(at, players, drop) && PickedAt(Without(players, drop), players, at)
    decreases |players|
  {
    if players == [] {
      at := [];
    } else {
      var front, last := players[..|players| - 1], players[|players| - 1];
      var before := WithoutPicks(front, drop);
      assert front + [last] == players;
      at := PicksNext(before, front, last, drop);
    }
  }

  lemma {:induction false} PicksNext(before: seq<nat>, front: seq<RosterPlayer>, last: RosterPlayer,
          drop: Option<string>)
    returns (at: seq<nat>)
    requires Stayers(before, front, drop) && PickedAt(Without(front, drop), front, before)
    ensures Stayers(at, front + [last], drop) && PickedAt(Without(front + [last], drop), front + [last], at)
  {
    PickedNext(Without(front, drop), front, before, last);
    WithoutNext(front, last, drop);
    if drop == Some(last.id) {
      at := before;
      StayersSkip(before, front, last, drop);
      assert Without(front, drop) + [] == Without(front, drop);
    } else {
      at := before + [|front|];
      StayersMore(before, front, last, drop);
    }
  }

  /** The dropped player leaves, and nobody else does; who stays keeps order and multiplicity. */
  lemma {:induction false} WithoutDropsOne(players: seq<RosterPlayer>, drop: Option<string>, p: RosterPlayer)
    returns (at: seq<nat>)
    ensures Stayers(at, players, drop) && PickedAt(Without(players, drop), players, at)
    ensures p in Without(players, drop) <==> p in players && drop != Some(p.id)
    ensures multiset(Without(players, drop))[p] == if drop == Some(p.id) then 0 else multiset(players)[p]
  {
    WithoutCounts(players, drop, p);
    assert p in players <==> p in multiset(players);
    assert p in Without(players, drop) <==> p in multiset(Without(players, drop));
    at := WithoutPicks(players, drop);
  }

  lemma {:induction false} MultisetFront(players: seq<RosterPlayer>)
    requires players != []
    ensures var n := |players| - 1; multiset(players) == multiset(players[..n]) + multiset{players[n]}
  {
    assert players == players[..|players| - 1] + [players[|players| - 1]];
  }

  lemma {:induction false} MultisetMore(players: seq<RosterPlayer>, p: RosterPlayer)
    ensures multiset(players + [p]) == multiset(players) + multiset{p} && multiset(players + []) == multiset(players)
  {
    assert players + [] == players;
  }

  lemma {:induction false} WithoutCounts(players: seq<RosterPlayer>, drop: Option<string>, p: RosterPlayer)
    ensures multiset(Without(players, drop))[p] == if drop == Some(p.id) then 0 else multiset(players)[p]
    decreases |players|
  {
    if players != [] {
      var n := |players| - 1;
      WithoutCounts(players[..n], drop, p);
      MultisetFront(players);
      MultisetMore(Without(players[..n], drop), players[n]);
    }
  }

  ghost predicate SameIndices(a: seq<nat>, b: seq<nat>) {
    forall k: nat :: k in a <==> k in b
  }

  lemma {:induction false} IndicesAgree(a: seq<nat>, b: seq<nat>)
    requires Increasing(a) && Increasing(b) && SameIndices(a, b)
    ensures a == b
    decreases |a|
  {
    assert a != [] ==> a[0] in a;
    assert b != [] ==> b[0] in b;
    if a != [] && b != [] {
      LastAgrees(a, b);
      IndicesAgree(a[..|a| - 1], b[..|b| - 1]);
      assert a == a[..|a| - 1] + [a[|a| - 1]] && b == b[..|b| - 1] + [b[|b| - 1]];
    }
  }

  lemma {:induction false} FrontIndices(front: seq<nat>, last: nat, k: nat)
    requires Increasing(front + [last])
    ensures Increasing(front)
    ensures k in front <==> k in front + [last] && k != last
  {
    forall i, j | 0 <= i < j < |front| ensures front[i] < front[j] {
      assert (front + [last])[i] == front[i] && (front + [last])[j] == front[j];
    }
    forall i | 0 <= i < |front| ensures front[i] < last {
      assert (front + [last])[i] == front[i] && (front + [last])[|front|] == last;
    }
  }

  lemma {:induction false} LastAgrees(a: seq<nat>, b: seq<nat>)
    requires a != [] && b != [] && Increasing(a) && Increasing(b) && SameIndices(a, b)
    ensures a[|a| - 1] == b[|b| - 1]
    ensures Increasing(a[..|a| - 1]) && Increasing(b[..|b| - 1]) && SameIndices(a[..|a| - 1], b[..|b| - 1])
  {
    assert a[|a| - 1] in b && b[|b| - 1] in a;
    var a', b' := a[..|a| - 1], b[..|b| - 1];
    assert a == a' + [a[|a| - 1]] && b == b' + [b[|b| - 1]];
    forall k: nat ensures k in a' <==> k in b' {
      FrontIndices(a', a[|a| - 1], k);
      FrontIndices(b', b[|b| - 1], k);
    }
  }

  lemma {:induction false} PickedIsOne(a: seq<RosterPlayer>, b: seq<RosterPlayer>, players: seq<RosterPlayer>,
          at: seq<nat>, bt: seq<nat>, drop: Option<string>)
    requires Stayers(at, players, drop) && PickedAt(a, players, at)
    requires Stayers(bt, players, drop) && PickedAt(b, players, bt)
    ensures a == b
  {
    assert SameIndices(at, bt);
    IndicesAgree(at, bt);
  }

  /** The roster after the pair: everybody but the dropped player, in order, then the added one. */
  ghost predicate Swapped(after: seq<RosterPlayer>, active: seq<RosterPlayer>, add: RosterPlayer, drop: Option<string>)
  {
    after != [] && after[|after| - 1] == add && Left(after[..|after| - 1], active, drop)
  }

  ghost predicate Left(rest: seq<RosterPlayer>, active: seq<RosterPlayer>, drop: Option<string>) {
    exists at :: Stayers(at, active, drop) && PickedAt(rest, active, at)
  }

  lemma {:induction false} LeftIsWithout(rest: seq<RosterPlayer>, active: seq<RosterPlayer>, drop: Option<string>)
    ensures Left(rest, active, drop) <==> rest == Without(active, drop)
  {
    var at := WithoutPicks(active, drop);
    if Left(rest, active, drop) {
      var b :| Stayers(b, active, drop) && PickedAt(rest, active, b);
      PickedIsOne(rest, Without(active, drop), active, b, at, drop);
    }
  }

  /** There is one such roster. */
  lemma {:induction false} SwappedIsWithout(after: seq<RosterPlayer>, active: seq<RosterPlayer>, add: RosterPlayer,
          drop: Option<string>)
    ensures Swapped(after, active, add, drop) <==> after == Without(active, drop) + [add]
  {
    if after != [] {
      LeftIsWithout(after[..|after| - 1], active, drop);
      assert after == after[..|after| - 1] + [after[|after| - 1]];
    }
  }

  lemma {:induction false} WithoutNoneStep(players: seq<RosterPlayer>, front: seq<RosterPlayer>, last: RosterPlayer)
    requires players == front + [last] && Without(front, None) == front
    ensures Without(players, None) == players
  {
    assert players[..|front|] == front && players[|front|] == last;
  }

  lemma {:induction false} WithoutNone(players: seq<RosterPlayer>)
    ensures Without(players, None) == players
    decreases |players|
  {
    if players == [] {
    } else {
      var front, last := players[..|players| - 1], players[|players| - 1];
      assert players == front + [last];
      WithoutNone(front);
      WithoutNoneStep(players, front, last);
    }
  }

  ghost predicate CoversAt(k: nat, players: seq<RosterPlayer>, week: int, selectedWeek: int, slots: seq<Position>) {
    IsMaxFill(k, EdgeSet(PoolAt(players, week, selectedWeek), slots))
  }

  /** The most slots the active roster can fill in each remaining week. */
  method Coverage(active: seq<RosterPlayer>, weeks: seq<int>, selectedWeek: int, slots: seq<Position>)
    returns (coverage: seq<nat>)
    ensures |coverage| == |weeks|
    ensures forall i | 0 <= i < |weeks| :: CoversAt(coverage[i], active, weeks[i], selectedWeek, slots)
  {
    coverage := [];
    for i := 0 to |weeks|
      invariant |coverage| == i
      invariant forall x | 0 <= x < i :: CoversAt(coverage[x], active, weeks[x], selectedWeek, slots)
    {
      var filler := new SlotFiller(PoolAt(active, weeks[i], selectedWeek), slots);
      var count := filler.FilledSlots();
      coverage := coverage + [count];
    }
  }

  /** The pair keeps the coverage of week i. */
  ghost predicate KeepsWeek(after: seq<RosterPlayer>, week: int, selectedWeek: int, slots: seq<Position>, coverage: nat)
  {
    forall k: nat | CoversAt(k, after, week, selectedWeek, slots) :: coverage <= k
  }

  ghost predicate KeepsAll(after: seq<RosterPlayer>, weeks: seq<int>, selectedWeek: int, slots: seq<Position>,
          coverage: seq<nat>)
    requires |coverage| == |weeks|
  {
    forall i | 0 <= i < |weeks| :: KeepsWeek(after, weeks[i], selectedWeek, slots, coverage[i])
  }

  /** Whether the pair keeps position limits and every week's coverage. Without a drop it can fail only
      on the position limits. */
  method LegalPair(active: seq<RosterPlayer>, add: RosterPlayer, drop: Option<string>, limits: map<Position, int>,
                   weeks: seq<int>, selectedWeek: int, slots: seq<Position>, coverage: seq<nat>) returns (ok: bool)
    requires |coverage| == |weeks|
    requires forall i | 0 <= i < |weeks| :: CoversAt(coverage[i], active, weeks[i], selectedWeek, slots)
    ensures forall after | Swapped(after, active, add, drop) ::
      ok <==> WithinLimits(after, limits) && KeepsAll(after, weeks, selectedWeek, slots, coverage)
    ensures Swapped(Without(active, drop) + [add], active, add, drop)
    ensures drop.None? ==> (ok <==> WithinLimits(active + [add], limits))
  {
    var after := Without(active, drop) + [add];
    SwappedIsWithout(after, active, add, drop);
    if drop.None? {
      WithoutNone(active);
      AddKeepsAll(active, add, weeks, selectedWeek, slots, coverage);
    }
    ok := forall pos | pos in limits :: CountAt(after, pos) <= limits[pos];
    forall pos | pos in limits ensures CountAt(after, pos) == |Holders(after, pos)| {
      CountAtIsHolders(after, pos);
    }
    if ok {
      ok := StillCoversAll(after, weeks, selectedWeek, slots, coverage);
    }
    forall other | Swapped(other, active, add, drop)
      ensures ok <==> WithinLimits(other, limits) && KeepsAll(other, weeks, selectedWeek, slots, coverage)
    {
      SwappedIsWithout(other, active, add, drop);
    }
  }

  method StillCoversAll(after: seq<RosterPlayer>, weeks: seq<int>, selectedWeek: int, slots: seq<Position>,
          coverage: seq<nat>)
    returns (ok: bool)
    requires |coverage| == |weeks|
    ensures ok <==> KeepsAll(after, weeks, selectedWeek, slots, coverage)
  {
    var i := 0;
    while i < |weeks|
      invariant 0 <= i <= |weeks|
      invariant forall x | 0 <= x < i :: KeepsWeek(after, weeks[x], selectedWeek, slots, coverage[x])
    {
      ok := StillCovers(after, weeks[i], selectedWeek, slots, coverage[i]);
      if !ok {
        return;
      }
      i := i + 1;
    }
    ok := true;
  }

  method StillCovers(after: seq<RosterPlayer>, week: int, selectedWeek: int, slots: seq<Position>, coverage: nat)
    returns (ok: bool)
    ensures ok <==> KeepsWeek(after, week, selectedWeek, slots, coverage)
  {
    var filler := new SlotFiller(PoolAt(after, week, selectedWeek), slots);
    var count := filler.FilledSlots();
    ok := count >= coverage;
    assert CoversAt(count, after, week, selectedWeek, slots);
    forall k: nat | CoversAt(k, after, week, selectedWeek, slots) ensures count <= k {
      MaxFillGrows(count, k, filler.edges, filler.edges);
    }
  }

  /** Adding a player never lowers a week's coverage. */
  lemma {:induction false} AddKeepsCoverage(active: seq<RosterPlayer>, add: RosterPlayer, week: int, selectedWeek: int,
          slots: seq<Position>, coverage: nat)
    requires CoversAt(coverage, active, week, selectedWeek, slots)
    ensures KeepsWeek(active + [add], week, selectedWeek, slots, coverage)
  {
    var c := Candidate(add.id, add.positions, CanPlay(add, week, selectedWeek));
    var pool := PoolAt(active, week, selectedWeek);
    assert PoolAt(active + [add], week, selectedWeek) == pool + [c];
    EdgesGrow(pool, c, slots);
    forall k: nat | CoversAt(k, active + [add], week, selectedWeek, slots) ensures coverage <= k {
      MaxFillGrows(coverage, k, EdgeSet(pool, slots), EdgeSet(pool + [c], slots));
    }
  }

  lemma {:induction false} AddKeepsAll(active: seq<RosterPlayer>, add: RosterPlayer, weeks: seq<int>, selectedWeek: int,
          slots: seq<Position>, coverage: seq<nat>)
    requires |coverage| == |weeks| && forall i | 0 <= i < |weeks| ::
      CoversAt(coverage[i], active, weeks[i], selectedWeek, slots)
    ensures KeepsAll(active + [add], weeks, selectedWeek, slots, coverage)
  {
    forall i | 0 <= i < |weeks| ensures KeepsWeek(active + [add], weeks[i], selectedWeek, slots, coverage[i]) {
      AddKeepsCoverage(active, add, weeks[i], selectedWeek, slots, coverage[i]);
    }
  }
}
