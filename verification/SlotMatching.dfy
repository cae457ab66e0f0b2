/** Maximum matching of players to starting slots by augmenting paths, shared by the waiver coverage
    check and the weekly outlook. A vertex cover as large as the matching proves it maximum. */
module SlotMatching {
  import opened Basics
  import opened LeagueRules

  datatype Candidate = Candidate(id: string, positions: seq<Position>, canPlay: bool)

  /** Which slot each matched player fills. */
  type Assigned = map<string, nat>

  predicate Fits(c: Candidate, slot: Position) {
    c.canPlay && CanFill(c.positions, slot)
  }

  function Ids(pool: seq<Candidate>): (r: set<string>)
    ensures forall k | 0 <= k < |pool| :: pool[k].id in r
  {
    if pool == [] then {} else Ids(pool[..|pool| - 1]) + {pool[|pool| - 1].id}
  }

  lemma {:induction false} IdsHas(pool: seq<Candidate>, id: string)
    requires id in Ids(pool)
    ensures exists k :: 0 <= k < |pool| && pool[k].id == id
  {
    if id != pool[|pool| - 1].id {
      IdsHas(pool[..|pool| - 1], id);
      var k :| 0 <= k < |pool| - 1 && pool[..|pool| - 1][k].id == id;
      assert pool[k].id == id;
    }
  }

  /** The pairs of a player id and a slot that player can fill. */
  type Edges = set<(string, nat)>

  ghost function EdgeSet(pool: seq<Candidate>, slots: seq<Position>): Edges {
    if pool == [] then {}
    else EdgeSet(pool[..|pool| - 1], slots) + PlayerEdges(pool[|pool| - 1], slots)
  }

  ghost function PlayerEdges(c: Candidate, slots: seq<Position>): Edges {
    set s | 0 <= s < |slots| && Fits(c, slots[s]) :: (c.id, s)
  }

  predicate CanTake(c: Candidate, slots: seq<Position>, id: string, s: nat) {
    s < |slots| && c.id == id && Fits(c, slots[s])
  }

  lemma {:induction false} EdgeSetNext(front: seq<Candidate>, last: Candidate, slots: seq<Position>, id: string, s: nat)
    ensures (id, s) in EdgeSet(front + [last], slots) <==>
      (id, s) in EdgeSet(front, slots) || CanTake(last, slots, id, s)
  {
    assert (front + [last])[..|front|] == front;
  }

  lemma {:induction false} SomeNext(front: seq<Candidate>, last: Candidate, slots: seq<Position>, id: string, s: nat)
    ensures (exists k :: 0 <= k < |front + [last]| && CanTake((front + [last])[k], slots, id, s)) <==>
      (exists k :: 0 <= k < |front| && CanTake(front[k], slots, id, s)) || CanTake(last, slots, id, s)
  {
    var all := front + [last];
    assert all[|front|] == last;
    if k :| 0 <= k < |front| && CanTake(front[k], slots, id, s) {
      assert all[k] == front[k];
    }
  }

  lemma {:induction false} EdgeSetHas(pool: seq<Candidate>, slots: seq<Position>, id: string, s: nat)
    ensures (id, s) in EdgeSet(pool, slots) <==> exists k :: 0 <= k < |pool| && CanTake(pool[k], slots, id, s)
    decreases |pool|
  {
    if pool != [] {
      var front, last := pool[..|pool| - 1], pool[|pool| - 1];
      assert pool == front + [last];
      EdgeSetHas(front, slots, id, s);
      EdgeSetNext(front, last, slots, id, s);
      SomeNext(front, last, slots, id, s);
    }
  }

  ghost predicate Injective(m: Assigned) {
    forall a, b | a in m && b in m && a != b :: m[a] != m[b]
  }

  ghost predicate IsMatching(m: Assigned, edges: Edges) {
    Injective(m) && forall id | id in m :: (id, m[id]) in edges
  }

  /** k is the largest number of slots any matching fills. */
  ghost predicate IsMaxFill(k: nat, edges: Edges) {
    && (exists m :: IsMatching(m, edges) && |m| == k)
    && (forall m :: IsMatching(m, edges) ==> |m| <= k)
  }

  // ----- counting -----

  /** The slots of the given players. */
  ghost function SlotsOf(m: Assigned, keys: set<string>): set<nat>
    requires keys <= m.Keys
  {
    set id | id in keys :: m[id]
  }

  lemma {:induction false} ImageSize(m: Assigned, keys: set<string>)
    requires Injective(m) && keys <= m.Keys
    ensures |SlotsOf(m, keys)| == |keys|
  {
    if keys != {} {
      var id :| id in keys;
      ImageSize(m, keys - {id});
      assert SlotsOf(m, keys) == SlotsOf(m, keys - {id}) + {m[id]};
    }
  }

  /** A cover of the matched pairs is at least as large as the matching. */
  lemma {:induction false} WeakDuality(m: Assigned, ids: set<string>, slots: set<nat>)
    requires Injective(m)
    requires forall id | id in m :: id in ids || m[id] in slots
    ensures |m| <= |ids| + |slots|
  {
    var rest := m.Keys - ids;
    ImageSize(m, rest);
    SubsetSize(SlotsOf(m, rest), slots);
    SubsetSize(m.Keys - rest, ids);
    assert m.Keys == (m.Keys - rest) + rest;
    assert |m| == |m.Keys|;
  }

  /** A cover no larger than the matching covers every matched pair exactly once. */
  lemma {:induction false} TightCover(m: Assigned, ids: set<string>, slots: set<nat>, id: string)
    requires Injective(m) && |m| == |ids| + |slots| && id in m
    requires forall x | x in m :: x in ids || m[x] in slots
    ensures id in ids <==> m[id] !in slots
  {
    if id in ids && m[id] in slots {
      var rest := m - {id};
      assert rest.Keys == m.Keys - {id};
      assert |rest| == |rest.Keys| && |m| == |m.Keys|;
      WeakDuality(rest, ids - {id}, slots - {m[id]});
    }
  }

  /** ids and covered together cover every edge of the first n slots, as cheaply as m matches them. */
  ghost predicate Cover(m: Assigned, edges: Edges, n: nat, ids: set<string>, covered: set<nat>) {
    && IsMatching(m, edges)
    && (forall id | id in m :: m[id] < n) && (forall s | s in covered :: s < n)
    && |m| == |ids| + |covered|
    && (forall id, s: nat | (id, s) in edges && s < n :: id in ids || s in covered)
  }

  lemma UnionSize<T>(a: set<T>, b: set<T>)
    ensures |a + b| == |a| + |b - a|
  {
    assert a + b == a + (b - a);
  }

  lemma DifferenceSize<T>(a: set<T>, b: set<T>)
    requires b <= a
    ensures |a - b| == |a| - |b|
  {
    assert (a - b) + b == a;
  }

  lemma {:induction false} MovedCoverSize(m: Assigned, ids: set<string>, covered: set<nat>, visited: set<string>)
    requires Injective(m) && visited <= m.Keys
    requires forall id | id in m :: id in ids <==> m[id] !in covered
    ensures |ids + visited| + |covered - SlotsOf(m, visited)| == |ids| + |covered|
  {
    var moved := visited - ids;
    UnionSize(ids, visited);
    ImageSize(m, moved);
    DifferenceSize(covered, SlotsOf(m, moved));
    assert covered - SlotsOf(m, visited) == covered - SlotsOf(m, moved);
  }

  /** The search from slot n failed: it visited every player that slot n or a slot of a visited player
      can take, and they are all matched. Moving the cover onto those players covers slot n too. */
  lemma {:induction false} CoverAfterFailure(m: Assigned, edges: Edges, n: nat,
                                             ids: set<string>, covered: set<nat>, visited: set<string>)
    requires Cover(m, edges, n, ids, covered)
    requires Exhausted(m, {}, visited, n, edges)
    ensures Cover(m, edges, n + 1, ids + visited, covered - SlotsOf(m, visited))
  {
    assert |m| == |ids + visited| + |covered - SlotsOf(m, visited)| by {
      forall id | id in m ensures id in ids <==> m[id] !in covered {
        TightCover(m, ids, covered, id);
      }
      MovedCoverSize(m, ids, covered, visited);
    }
    forall id, s: nat | (id, s) in edges && s < n + 1
      ensures id in ids + visited || s in covered - SlotsOf(m, visited)
    {
      if s < n && id !in ids && s in SlotsOf(m, visited) {
        var x :| x in visited && m[x] == s;
        assert id in visited;
      }
    }
  }

  lemma {:induction false} CoverIsMax(m: Assigned, edges: Edges, n: nat, ids: set<string>, covered: set<nat>)
    requires Cover(m, edges, n, ids, covered)
    requires forall id, s: nat | (id, s) in edges :: s < n
    ensures IsMaxFill(|m|, edges)
  {
    forall o | IsMatching(o, edges) ensures |o| <= |m| {
      WeakDuality(o, ids, covered);
    }
  }

  // ----- the search -----

  /** The slot of an unseen player after a successful search from slot s: slot s itself, or a slot
      some unseen player held before. */
  ghost predicate Comes(before: Assigned, seen: set<string>, s: nat, held: nat) {
    held == s || exists x :: x in before && x !in seen && before[x] == held
  }

  /** What a successful search from slot s does: players seen before it keep their slots; the others
      hold the slots they held before, and slot s, each once. */
  ghost predicate Placed(before: Assigned, after: Assigned, seen: set<string>, s: nat, edges: Edges) {
    && |after| == |before| + 1 && before.Keys <= after.Keys
    && (forall id | id in seen :: (id in before <==> id in after) && (id in before ==> after[id] == before[id]))
    && (forall id | id in after :: (id, after[id]) in edges)
    && (forall id {:trigger Comes(before, seen, s, after[id])} | id in after && id !in seen ::
      Comes(before, seen, s, after[id]))
    && (forall a, b | a in after && b in after && a !in seen && b !in seen && a != b :: after[a] != after[b])
  }

  /** A failed search visited every player slot s can take, and it visited only matched players whose
      slots' other players it visited too. */
  ghost predicate Exhausted(m: Assigned, seen: set<string>, visited: set<string>, s: nat, edges: Edges) {
    && seen <= visited
    && (forall id | (id, s) in edges :: id in visited)
    && Closed(m, seen, visited, edges)
  }

  ghost predicate Closed(m: Assigned, seen: set<string>, visited: set<string>, edges: Edges) {
    forall id | id in visited && id !in seen :: id in m && forall other | (other, m[id]) in edges :: other in visited
  }

  lemma {:induction false} PlacedFirst(m: Assigned, m': Assigned, edges: Edges, n: nat)
    requires Placed(m, m', {}, n, edges)
    requires forall id | id in m :: m[id] < n
    ensures IsMatching(m', edges) && forall id | id in m' :: m'[id] < n + 1
  {
    forall id | id in m' ensures m'[id] < n + 1 {
      assert Comes(m, {}, n, m'[id]);
    }
  }

  lemma {:induction false} CoverAfterSuccess(m: Assigned, m': Assigned, edges: Edges, n: nat, ids: set<string>,
          covered: set<nat>)
    requires Cover(m, edges, n, ids, covered) && |m'| == |m| + 1
    requires IsMatching(m', edges) && forall id | id in m' :: m'[id] < n + 1
    ensures Cover(m', edges, n + 1, ids, covered + {n})
  {
  }

  /** A search that started after more players were seen is also a search from the earlier point. */
  lemma {:induction false} PlacedLater(m: Assigned, m': Assigned, seen: set<string>, later: set<string>, s: nat,
          edges: Edges)
    requires Injective(m) && seen <= later && Placed(m, m', later, s, edges) && HeldBySeen(m, seen, s)
    ensures Placed(m, m', seen, s, edges)
  {
    forall a | a in m' && a !in seen ensures Comes(m, seen, s, m'[a]) {
      if a in later {
        assert m[a] == m'[a];
      } else {
        assert Comes(m, later, s, m'[a]);
      }
    }
    forall a, b | a in m' && b in m' && a in later && b !in later && a !in seen ensures m'[a] != m'[b] {
      assert Comes(m, later, s, m'[b]);
    }
  }

  lemma {:induction false} PlacedFree(m: Assigned, seen: set<string>, s: nat, id: string, edges: Edges)
    requires IsMatching(m, edges) && id !in m && id !in seen && (id, s) in edges
    requires HeldBySeen(m, seen, s)
    ensures Placed(m, m[id := s], seen, s, edges)
  {
  }

  lemma {:induction false} MovedDiffers(m: Assigned, seen: set<string>, s: nat, id: string, visited: set<string>,
          m': Assigned, edges: Edges, a: string, b: string)
    requires Injective(m) && id in m && id !in seen && id in visited && seen <= visited
    requires Placed(m, m', visited, m[id], edges)
    requires a in m' && b in m' && a !in seen && b !in seen && a != b && a != id && b != id
    ensures m'[a] != m'[b]
  {
    if a in visited && b !in visited {
      assert Comes(m, visited, m[id], m'[b]);
    } else if b in visited && a !in visited {
      assert Comes(m, visited, m[id], m'[a]);
    }
  }

  lemma {:induction false} MovedComes(m: Assigned, seen: set<string>, s: nat, id: string, visited: set<string>,
          m': Assigned, edges: Edges, a: string)
    requires id in m && id !in seen && id in visited && seen <= visited
    requires HeldBySeen(m, seen, s)
    requires Placed(m, m', visited, m[id], edges)
    requires a in m' && a !in seen && a != id
    ensures m'[a] != s && Comes(m, seen, s, m'[a])
  {
    if a in visited {
      assert m[a] == m'[a];
    } else {
      assert Comes(m, visited, m[id], m'[a]);
    }
  }

  lemma {:induction false} UpdateSize(m: Assigned, id: string, s: nat)
    requires id in m
    ensures |m[id := s]| == |m| && m[id := s].Keys == m.Keys
  {
    assert m[id := s].Keys == m.Keys;
    assert |m[id := s]| == |m[id := s].Keys| && |m| == |m.Keys|;
  }

  lemma {:induction false} MovedSlots(m: Assigned, seen: set<string>, s: nat, id: string, visited: set<string>,
          m': Assigned, edges: Edges)
    requires Injective(m) && id in m && id !in seen && id in visited && seen <= visited
    requires HeldBySeen(m, seen, s)
    requires Placed(m, m', visited, m[id], edges)
    ensures forall a | a in m' && a !in seen && a != id :: m'[a] != s && Comes(m, seen, s, m'[a])
    ensures forall a, b | a in m' && b in m' && a !in seen && b !in seen && a != b && a != id && b != id ::
      m'[a] != m'[b]
  {
    forall a | a in m' && a !in seen && a != id ensures m'[a] != s && Comes(m, seen, s, m'[a]) {
      MovedComes(m, seen, s, id, visited, m', edges, a);
    }
    forall a, b | a in m' && b in m' && a !in seen && b !in seen && a != b && a != id && b != id
      ensures m'[a] != m'[b]
    {
      MovedDiffers(m, seen, s, id, visited, m', edges, a, b);
    }
  }

  lemma {:induction false} PlacedMoved(m: Assigned, seen: set<string>, s: nat, id: string, visited: set<string>,
          m': Assigned, edges: Edges)
    requires IsMatching(m, edges) && id in m && id !in seen && id in visited && seen <= visited
    requires (id, s) in edges
    requires HeldBySeen(m, seen, s)
    requires Placed(m, m', visited, m[id], edges)
    ensures Placed(m, m'[id := s], seen, s, edges)
  {
    var after := m'[id := s];
    UpdateSize(m', id, s);
    MovedSlots(m, seen, s, id, visited, m', edges);
    forall a | a in after && a !in seen ensures Comes(m, seen, s, after[a]) {
      assert a != id ==> after[a] == m'[a];
    }
    forall a, b | a in after && b in after && a !in seen && b !in seen && a != b ensures after[a] != after[b] {
      assert (a != id ==> after[a] == m'[a]) && (b != id ==> after[b] == m'[b]);
    }
  }

  /** Slot s is held, if at all, by a player seen before. */
  ghost predicate HeldBySeen(m: Assigned, seen: set<string>, s: nat) {
    forall id | id in m && id !in seen :: m[id] != s
  }

  /** Of the first k players all that fit a slot are visited. */
  ghost predicate AllSeen(pool: seq<Candidate>, slot: Position, visited: set<string>, k: nat)
    requires k <= |pool|
  {
    forall x | 0 <= x < k && Fits(pool[x], slot) :: pool[x].id in visited
  }

  lemma {:induction false} AllVisited(pool: seq<Candidate>, slots: seq<Position>, s: nat, visited: set<string>)
    requires s < |slots| && AllSeen(pool, slots[s], visited, |pool|)
    ensures forall id | (id, s) in EdgeSet(pool, slots) :: id in visited
  {
    forall id | (id, s) in EdgeSet(pool, slots) ensures id in visited {
      EdgeSetHas(pool, slots, id, s);
    }
  }

  class SlotFiller {
    const pool: seq<Candidate>
    const slots: seq<Position>
    ghost const edges: Edges
    var slotOf: Assigned
    var visited: set<string>

    constructor (pool: seq<Candidate>, slots: seq<Position>)
      ensures this.pool == pool && this.slots == slots && Valid() && slotOf == map[]
    {
      this.pool, this.slots, this.edges := pool, slots, EdgeSet(pool, slots);
      slotOf, visited := map[], {};
    }

    ghost predicate Valid()
      reads this
    {
      edges == EdgeSet(pool, slots) && IsMatching(slotOf, edges)
    }

    ghost function Unvisited(): set<string>
      reads this
    {
      Ids(pool) - visited
    }

    /** Tries to give slot s a player, moving matched players along an augmenting path if it must. */
    method Place(s: nat) returns (ok: bool)
      requires s < |slots| && Valid()
      requires HeldBySeen(slotOf, visited, s)
      modifies this
      ensures ok ==> Placed(old(slotOf), slotOf, old(visited), s, edges)
      ensures !ok ==> slotOf == old(slotOf) && Exhausted(slotOf, old(visited), visited, s, edges)
      decreases |Unvisited()|, 1
    {
      ghost var before, seen := slotOf, visited;
      var k := 0;
      while k < |pool|
        invariant 0 <= k <= |pool| && slotOf == before && seen <= visited
        invariant Closed(before, seen, visited, edges)
        invariant AllSeen(pool, slots[s], visited, k)
      {
        if pool[k].id !in visited && Fits(pool[k], slots[s]) {
          ghost var earlier := visited;
          assert |Unvisited()| <= |Ids(pool) - seen| by {
            SubsetSize(Unvisited(), Ids(pool) - seen);
          }
          var placed := Offer(s, k);
          if placed {
            PlacedLater(before, slotOf, seen, earlier, s, edges);
            return true;
          }
        }
        k := k + 1;
      }
      AllVisited(pool, slots, s, visited);
      return false;
    }

    /** Visits the unvisited player k for slot s: takes the player if free, or frees the player by
        placing somebody else in the slot the player holds. */
    method Offer(s: nat, k: nat) returns (ok: bool)
      requires k < |pool| && s < |slots| && Valid()
      requires pool[k].id !in visited && Fits(pool[k], slots[s])
      requires HeldBySeen(slotOf, visited, s)
      modifies this
      ensures ok ==> Placed(old(slotOf), slotOf, old(visited), s, edges)
      ensures !ok ==> slotOf == old(slotOf) && old(visited) + {pool[k].id} <= visited
      ensures !ok ==> Closed(slotOf, old(visited), visited, edges)
      decreases |Unvisited()|, 0
    {
      ghost var before, seen, open := slotOf, visited, Unvisited();
      var id := pool[k].id;
      EdgeSetHas(pool, slots, id, s);
      visited := visited + {id};
      assert Unvisited() == open - {id};
      if id !in slotOf {
        PlacedFree(before, seen, s, id, edges);
        slotOf := slotOf[id := s];
        return true;
      }
      EdgeSetHas(pool, slots, id, slotOf[id]);
      ok := Place(slotOf[id]);
      if ok {
        PlacedMoved(before, seen, s, id, seen + {id}, slotOf, edges);
        slotOf := slotOf[id := s];
      }
    }

    /** Counts the slots that can be filled at once. */
    method FilledSlots() returns (count: nat)
      requires Valid() && slotOf == map[]
      modifies this
      ensures Valid() && |slotOf| == count
      ensures IsMaxFill(count, edges)
    {
      count := 0;
      ghost var ids: set<string>, covered: set<nat> := {}, {};
      var s := 0;
      while s < |slots|
        invariant 0 <= s <= |slots| && count == |slotOf| && Valid()
        invariant Cover(slotOf, edges, s, ids, covered)
      {
        ghost var before := slotOf;
        visited := {};
        var placed := Place(s);
        if placed {
          PlacedFirst(before, slotOf, edges, s);
          CoverAfterSuccess(before, slotOf, edges, s, ids, covered);
          covered := covered + {s};
          count := count + 1;
        } else {
          CoverAfterFailure(before, edges, s, ids, covered, visited);
          covered := covered - SlotsOf(before, visited);
          ids := ids + visited;
        }
        s := s + 1;
      }
      forall id, t: nat | (id, t) in edges ensures t < |slots| {
        EdgeSetHas(pool, slots, id, t);
      }
      CoverIsMax(slotOf, edges, |slots|, ids, covered);
    }
  }
}
