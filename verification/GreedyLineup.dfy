/** The lineup evaluation's greedy assignment: slots in order of how few positions they accept, each
    taking the highest-scoring remaining player who fits. It is the best lineup under a condition on
    the slots alone, and without that condition some pool defeats it. */
module GreedyLineup {
  import opened LeagueRules
  import opened Lineup
  import opened Sums

  // ----- stable sorting of indices -----

  function InsertIndex(keys: seq<real>, order: seq<nat>, x: nat): seq<nat>
    requires x < |keys| && forall k | 0 <= k < |order| :: order[k] < |keys|
  {
    if order == [] || keys[order[|order| - 1]] <= keys[x] then order + [x]
    else InsertIndex(keys, order[..|order| - 1], x) + [order[|order| - 1]]
  }

  /** The indices of keys in ascending order of key, equal keys in their original order. */
  function StableOrder(keys: seq<real>, n: nat): (order: seq<nat>)
    requires n <= |keys|
    ensures forall k | 0 <= k < |order| :: order[k] < n
  {
    if n == 0 then []
    else
      var rest := StableOrder(keys, n - 1);
      InsertIndexKeeps(keys, rest, n - 1);
      var order := InsertIndex(keys, rest, n - 1);
      assert forall k | 0 <= k < |order| :: order[k] in order;
      order
  }

  ghost predicate Ascending(keys: seq<real>, order: seq<nat>) {
    && (forall k | 0 <= k < |order| :: order[k] < |keys|)
    && (forall a, b | 0 <= a < b < |order| :: keys[order[a]] <= keys[order[b]])
  }

  lemma {:induction false} InsertIndexKeeps(keys: seq<real>, order: seq<nat>, x: nat)
    requires x < |keys| && forall k | 0 <= k < |order| :: order[k] < |keys|
    ensures |InsertIndex(keys, order, x)| == |order| + 1
    ensures forall y: nat :: y in InsertIndex(keys, order, x) <==> y in order || y == x
  {
    if order == [] || keys[order[|order| - 1]] <= keys[x] {
    } else {
      var last := |order| - 1;
      InsertIndexKeeps(keys, order[..last], x);
      assert order == order[..last] + [order[last]];
    }
  }

  lemma {:induction false} InsertIndexAscends(keys: seq<real>, order: seq<nat>, x: nat)
    requires x < |keys| && Ascending(keys, order)
    ensures Ascending(keys, InsertIndex(keys, order, x))
  {
    InsertIndexKeeps(keys, order, x);
    if order == [] || keys[order[|order| - 1]] <= keys[x] {
    } else {
      var last := |order| - 1;
      InsertIndexAscends(keys, order[..last], x);
      InsertIndexKeeps(keys, order[..last], x);
      var head := InsertIndex(keys, order[..last], x);
      forall k | 0 <= k < |head| ensures keys[head[k]] <= keys[order[last]] {
        if head[k] != x {
          assert head[k] in order[..last];
        }
      }
    }
  }

  lemma {:induction false} StableOrderHas(keys: seq<real>, n: nat)
    requires n <= |keys|
    ensures |StableOrder(keys, n)| == n && forall x: nat | x < n :: x in StableOrder(keys, n)
  {
    if n != 0 {
      StableOrderHas(keys, n - 1);
      InsertIndexKeeps(keys, StableOrder(keys, n - 1), n - 1);
    }
  }

  lemma {:induction false} StableOrderAscends(keys: seq<real>, n: nat)
    requires n <= |keys|
    ensures Ascending(keys, StableOrder(keys, n))
  {
    if n != 0 {
      StableOrderAscends(keys, n - 1);
      InsertIndexAscends(keys, StableOrder(keys, n - 1), n - 1);
    }
  }

  ghost predicate TiesInOrder(keys: seq<real>, order: seq<nat>)
    requires forall k | 0 <= k < |order| :: order[k] < |keys|
  {
    forall a, b | 0 <= a < b < |order| && keys[order[a]] == keys[order[b]] :: order[a] < order[b]
  }

  lemma {:induction false} InsertIndexTies(keys: seq<real>, order: seq<nat>, x: nat)
    requires x < |keys| && Ascending(keys, order) && TiesInOrder(keys, order)
    requires forall k | 0 <= k < |order| :: order[k] < x
    ensures Ascending(keys, InsertIndex(keys, order, x)) && TiesInOrder(keys, InsertIndex(keys, order, x))
  {
    InsertIndexAscends(keys, order, x);
    if order != [] && keys[order[|order| - 1]] > keys[x] {
      var last := |order| - 1;
      InsertIndexTies(keys, order[..last], x);
      InsertIndexKeeps(keys, order[..last], x);
      var head := InsertIndex(keys, order[..last], x);
      forall k | 0 <= k < |head| && keys[head[k]] == keys[order[last]] ensures head[k] < order[last] {
        assert head[k] in head;
        assert head[k] in order[..last];
      }
    }
  }

  lemma {:induction false} StableOrderTies(keys: seq<real>, n: nat)
    requires n <= |keys|
    ensures TiesInOrder(keys, StableOrder(keys, n))
  {
    if n != 0 {
      var rest := StableOrder(keys, n - 1);
      StableOrderTies(keys, n - 1);
      StableOrderAscends(keys, n - 1);
      InsertIndexTies(keys, rest, n - 1);
      assert StableOrder(keys, n) == InsertIndex(keys, rest, n - 1);
    }
  }

  lemma {:induction false} StableOrderSorts(keys: seq<real>, n: nat)
    requires n <= |keys|
    ensures Ascending(keys, StableOrder(keys, n)) && TiesInOrder(keys, StableOrder(keys, n))
    ensures |StableOrder(keys, n)| == n && Distinct(StableOrder(keys, n))
    ensures forall x: nat | x < n :: x in StableOrder(keys, n)
  {
    StableOrderHas(keys, n);
    StableOrderAscends(keys, n);
    StableOrderTies(keys, n);
    FullIsDistinct(StableOrder(keys, n));
  }

  /** A sequence of n naturals that contains every natural below n has no repetition. */
  lemma {:induction false} FullIsDistinct(s: seq<nat>)
    requires forall x: nat | x < |s| :: x in s
    ensures Distinct(s)
  {
    if a, b :| 0 <= a < b < |s| && s[a] == s[b] {
      var rest := s[..b] + s[b + 1..];
      forall x: nat | x < |s| ensures x in rest {
        assert x in s;
        var k :| 0 <= k < |s| && s[k] == x;
        if k < b {
          assert rest[k] == x;
        } else if k > b {
          assert rest[k - 1] == x;
        } else {
          assert rest[a] == x;
        }
      }
      var shifted := seq(|rest|, k requires 0 <= k < |rest| => rest[k] + 1);
      forall x: nat | 1 <= x <= |s| ensures x in shifted {
        var y: nat := x - 1;
        assert y in rest;
        var k :| 0 <= k < |rest| && rest[k] == y;
        assert shifted[k] == x;
      }
      Pigeonhole(shifted, |s|);
    }
  }

  // ----- the assignment -----

  /** Where the first remaining player who fits slot s stands, or the length when nobody fits. */
  function FirstFit(pool: seq<Player>, slots: seq<Position>, remaining: seq<nat>, s: nat): (k: nat)
    requires s < |slots| && forall x | 0 <= x < |remaining| :: remaining[x] < |pool|
    ensures k <= |remaining|
    ensures forall x | 0 <= x < k :: !Eligible(pool, slots, remaining[x], s)
    ensures k < |remaining| ==> Eligible(pool, slots, remaining[k], s)
  {
    if remaining == [] || Eligible(pool, slots, remaining[0], s) then 0
    else 1 + FirstFit(pool, slots, remaining[1..], s)
  }

  function Drop(remaining: seq<nat>, k: nat): seq<nat>
    requires k < |remaining|
  {
    remaining[..k] + remaining[k + 1..]
  }

  /** Fills the slots in the given order from the remaining players. */
  function Greedy(pool: seq<Player>, slots: seq<Position>, order: seq<nat>, remaining: seq<nat>, l: Lineup): (g: Lineup)
    requires |l| == |slots| && (forall x | 0 <= x < |order| :: order[x] < |slots|)
    requires forall x | 0 <= x < |remaining| :: remaining[x] < |pool|
    ensures |g| == |l|
    decreases |order|
  {
    if order == [] then l
    else
      var k := FirstFit(pool, slots, remaining, order[0]);
      if k == |remaining| then Greedy(pool, slots, order[1..], remaining, l)
      else Greedy(pool, slots, order[1..], Drop(remaining, k), l[order[0] := Some(remaining[k])])
  }

  function Widths(slots: seq<Position>): seq<real> {
    seq(|slots|, s requires 0 <= s < |slots| => |EligiblePositions(slots[s])| as real)
  }

  function Losses(pool: seq<Player>): seq<real> {
    seq(|pool|, k requires 0 <= k < |pool| => -pool[k].points)
  }

  /** Slots by how few positions they accept. */
  function SlotOrder(slots: seq<Position>): seq<nat> {
    StableOrder(Widths(slots), |slots|)
  }

  function Nobody(slots: seq<Position>): Lineup {
    seq(|slots|, _ => None)
  }

  function GreedyResult(pool: seq<Player>, slots: seq<Position>): Lineup {
    Greedy(pool, slots, SlotOrder(slots), StableOrder(Losses(pool), |pool|), Nobody(slots))
  }

  /** The assignment loop: walks the sorted slots and splices each chosen player out. */
  method Assign(pool: seq<Player>, slots: seq<Position>) returns (l: Lineup)
    ensures l == GreedyResult(pool, slots)
  {
    var remaining: seq<nat> := StableOrder(Losses(pool), |pool|);
    var order: seq<nat> := SlotOrder(slots);
    l := Nobody(slots);
    var i := 0;
    while i < |order|
      invariant 0 <= i <= |order| && |l| == |slots|
      invariant forall x | 0 <= x < |remaining| :: remaining[x] < |pool|
      invariant Greedy(pool, slots, order[i..], remaining, l) == GreedyResult(pool, slots)
    {
      var k := FirstFit(pool, slots, remaining, order[i]);
      assert order[i..][1..] == order[i + 1..];
      if k < |remaining| {
        l := l[order[i] := Some(remaining[k])];
        remaining := Drop(remaining, k);
      }
      i := i + 1;
    }
  }

  // ----- the exchange argument -----

  ghost predicate Taken(l: Lineup, p: nat) {
    exists s :: 0 <= s < |l| && l[s] == Some(p)
  }

  /** Between slots: the slots in order are empty, and the remaining players are the others, best first. */
  ghost predicate Standing(pool: seq<Player>, slots: seq<Position>, order: seq<nat>, remaining: seq<nat>, l: Lineup) {
    && Legal(l, pool, slots)
    && Distinct(order) && (forall x | 0 <= x < |order| :: order[x] < |slots| && l[order[x]].None?)
    && Distinct(remaining) && Ascending(Losses(pool), remaining)
    && (forall p: nat | p < |pool| :: p in remaining <==> !Taken(l, p))
  }

  /** Whenever some player fits an earlier and a later slot, everybody who fits the earlier fits the later. */
  ghost predicate Exchangeable(pool: seq<Player>, slots: seq<Position>, order: seq<nat>)
    requires forall x | 0 <= x < |order| :: order[x] < |slots|
  {
    forall a, b, p: nat, q: nat | 0 <= a < b < |order| && p < |pool| && q < |pool|
      && Eligible(pool, slots, p, order[a]) && Eligible(pool, slots, p, order[b]) &&
        Eligible(pool, slots, q, order[a]) ::
      Eligible(pool, slots, q, order[b])
  }

  ghost predicate Extends(o: Lineup, l: Lineup, order: seq<nat>)
    requires |o| == |l|
  {
    forall s: nat | s < |l| && s !in order :: o[s] == l[s]
  }

  lemma {:induction false} DropHas(remaining: seq<nat>, k: nat, x: nat)
    requires k < |remaining| && Distinct(remaining)
    ensures x in Drop(remaining, k) <==> x in remaining && x != remaining[k]
  {
    if x in remaining && x != remaining[k] {
      var j :| 0 <= j < |remaining| && remaining[j] == x;
      assert if j < k then Drop(remaining, k)[j] == x else Drop(remaining, k)[j - 1] == x;
    }
  }

  lemma {:induction false} TakenAfter(l: Lineup, s: nat, p: nat, x: nat)
    requires s < |l| && l[s].None?
    ensures Taken(l[s := Some(p)], x) <==> Taken(l, x) || x == p
  {
    var after := l[s := Some(p)];
    assert after[s] == Some(p);
    if Taken(l, x) {
      var t :| 0 <= t < |l| && l[t] == Some(x);
      assert after[t] == Some(x);
    }
  }

  lemma {:induction false} LegalAfter(pool: seq<Player>, slots: seq<Position>, l: Lineup, s: nat, p: nat)
    requires Legal(l, pool, slots) && s < |slots| && p < |pool| && Eligible(pool, slots, p, s)
    requires forall t | 0 <= t < |l| && t != s :: l[t] != Some(p)
    ensures Legal(l[s := Some(p)], pool, slots)
  {
  }

  lemma {:induction false} StandingAfter(pool: seq<Player>, slots: seq<Position>, order: seq<nat>, remaining: seq<nat>,
          l: Lineup, k: nat)
    requires Standing(pool, slots, order, remaining, l) && order != []
    requires k < |remaining| && Eligible(pool, slots, remaining[k], order[0])
    ensures Standing(pool, slots, order[1..], Drop(remaining, k), l[order[0] := Some(remaining[k])])
  {
    var p, after := remaining[k], l[order[0] := Some(remaining[k])];
    assert !Taken(l, p);
    LegalAfter(pool, slots, l, order[0], p);
    forall x: nat | x < |pool| ensures x in Drop(remaining, k) <==> !Taken(after, x) {
      DropHas(remaining, k, x);
      TakenAfter(l, order[0], p, x);
    }
  }

  lemma {:induction false} StandingSkip(pool: seq<Player>, slots: seq<Position>, order: seq<nat>, remaining: seq<nat>,
          l: Lineup)
    requires Standing(pool, slots, order, remaining, l) && order != []
    ensures Standing(pool, slots, order[1..], remaining, l)
  {
  }

  /** A player a lineup seats in an open slot is among the remaining players. */
  lemma {:induction false} SeatedRemains(pool: seq<Player>, slots: seq<Position>, order: seq<nat>, remaining: seq<nat>,
          l: Lineup, o: Lineup, s: nat)
    requires Standing(pool, slots, order, remaining, l) && Legal(o, pool, slots) && Extends(o, l, order)
    requires s in order && o[s].Some?
    ensures o[s].value in remaining
  {
    forall t: nat | t < |l| && l[t].Some? ensures t !in order && o[t] == l[t] {
    }
  }

  lemma {:induction false} GreedyChoiceBeats(pool: seq<Player>, slots: seq<Position>, order: seq<nat>,
          remaining: seq<nat>, l: Lineup, o: Lineup, k: nat)
    requires Standing(pool, slots, order, remaining, l) && Legal(o, pool, slots) && Extends(o, l, order)
    requires order != [] && k == FirstFit(pool, slots, remaining, order[0]) && k < |remaining|
    ensures o[order[0]].Some? ==> pool[o[order[0]].value].points <= pool[remaining[k]].points
  {
    var s := order[0];
    if o[s].Some? {
      SeatedRemains(pool, slots, order, remaining, l, o, s);
      var j :| 0 <= j < |remaining| && remaining[j] == o[s].value;
      assert j >= k;
      assert Losses(pool)[remaining[k]] <= Losses(pool)[remaining[j]];
    }
  }

  /** Seating a player nobody else seats, instead of a player with no more points. */
  lemma {:induction false} Replace(pool: seq<Player>, slots: seq<Position>, o: Lineup, s: nat, p: nat)
    requires Legal(o, pool, slots) && s < |slots| && p < |pool| && Eligible(pool, slots, p, s)
    requires !Taken(o, p)
    requires o[s].Some? ==> pool[o[s].value].points <= pool[p].points
    ensures Legal(o[s := Some(p)], pool, slots) && NoWorse(o[s := Some(p)], o, pool)
  {
    LegalAfter(pool, slots, o, s, p);
    FilledUpdate(o, s, Some(p));
    PointsUpdate(o, s, Some(p), pool);
  }

  lemma {:induction false} SwapCounts(pool: seq<Player>, o: Lineup, s: nat, t: nat)
    requires s < |o| && t < |o| && s != t
    ensures Filled(o[s := o[t]][t := o[s]]) == Filled(o) && Points(o[s := o[t]][t := o[s]], pool) == Points(o, pool)
  {
    FilledUpdate(o, s, o[t]);
    PointsUpdate(o, s, o[t], pool);
    FilledUpdate(o[s := o[t]], t, o[s]);
    PointsUpdate(o[s := o[t]], t, o[s], pool);
  }

  /** Swapping two slots' entries is legal when both players fit both slots. */
  lemma {:induction false} Swap(pool: seq<Player>, slots: seq<Position>, o: Lineup, s: nat, t: nat)
    requires Legal(o, pool, slots) && s < |slots| && t < |slots| && s != t
    requires o[t].Some? && Eligible(pool, slots, o[t].value, s)
    requires o[s].Some? ==> Eligible(pool, slots, o[s].value, t)
    ensures Legal(o[s := o[t]][t := o[s]], pool, slots) && NoWorse(o[s := o[t]][t := o[s]], o, pool)
  {
    SwapCounts(pool, o, s, t);
  }

  /** A lineup that agrees so far can be changed, without getting worse, to give the next slot the
      greedy choice. */
  lemma {:induction false} Exchange(pool: seq<Player>, slots: seq<Position>, order: seq<nat>, remaining: seq<nat>,
          l: Lineup, o: Lineup, k: nat)
    returns (o': Lineup)
    requires Standing(pool, slots, order, remaining, l) && Legal(o, pool, slots) && Extends(o, l, order)
    requires order != [] && k == FirstFit(pool, slots, remaining, order[0]) && k < |remaining|
    requires Exchangeable(pool, slots, order)
    ensures Legal(o', pool, slots) && NoWorse(o', o, pool)
    ensures Extends(o', l[order[0] := Some(remaining[k])], order[1..])
  {
    var s, p := order[0], remaining[k];
    if !Taken(o, p) {
      GreedyChoiceBeats(pool, slots, order, remaining, l, o, k);
      Replace(pool, slots, o, s, p);
      o' := o[s := Some(p)];
    } else if o[s] == Some(p) {
      o' := o;
    } else {
      var t: nat :| t < |o| && o[t] == Some(p);
      assert t in order by {
        assert !Taken(l, p);
      }
      var b :| 0 <= b < |order| && order[b] == t;
      assert Eligible(pool, slots, p, order[0]) && Eligible(pool, slots, p, order[b]);
      if o[s].Some? {
        assert Eligible(pool, slots, o[s].value, order[0]);
        assert Eligible(pool, slots, o[s].value, order[b]);
      }
      Swap(pool, slots, o, s, t);
      o' := o[s := o[t]][t := o[s]];
    }
    forall x: nat | x < |l| && x !in order[1..] ensures o'[x] == l[s := Some(p)][x] {
      if x != s {
        assert x !in order;
      }
    }
  }

  lemma {:induction false} GreedyDominates(pool: seq<Player>, slots: seq<Position>, order: seq<nat>,
          remaining: seq<nat>, l: Lineup, o: Lineup)
    requires Standing(pool, slots, order, remaining, l) && Legal(o, pool, slots) && Extends(o, l, order)
    requires Exchangeable(pool, slots, order)
    ensures NoWorse(Greedy(pool, slots, order, remaining, l), o, pool)
    decreases |order|
  {
    if order == [] {
      assert o == l;
    } else {
      var k := FirstFit(pool, slots, remaining, order[0]);
      if k == |remaining| {
        StandingSkip(pool, slots, order, remaining, l);
        if o[order[0]].Some? {
          SeatedRemains(pool, slots, order, remaining, l, o, order[0]);
        }
        assert Extends(o, l, order[1..]);
        GreedyDominates(pool, slots, order[1..], remaining, l, o);
      } else {
        var o' := Exchange(pool, slots, order, remaining, l, o, k);
        StandingAfter(pool, slots, order, remaining, l, k);
        GreedyDominates(pool, slots, order[1..], Drop(remaining, k), l[order[0] := Some(remaining[k])], o');
      }
    }
  }

  lemma {:induction false} GreedyIsLegal(pool: seq<Player>, slots: seq<Position>, order: seq<nat>, remaining: seq<nat>,
          l: Lineup)
    requires Standing(pool, slots, order, remaining, l)
    ensures Legal(Greedy(pool, slots, order, remaining, l), pool, slots)
    decreases |order|
  {
    if order != [] {
      var k := FirstFit(pool, slots, remaining, order[0]);
      if k == |remaining| {
        StandingSkip(pool, slots, order, remaining, l);
        GreedyIsLegal(pool, slots, order[1..], remaining, l);
      } else {
        StandingAfter(pool, slots, order, remaining, l, k);
        GreedyIsLegal(pool, slots, order[1..], Drop(remaining, k), l[order[0] := Some(remaining[k])]);
      }
    }
  }

  lemma {:induction false} StartStands(pool: seq<Player>, slots: seq<Position>)
    ensures Standing(pool, slots, SlotOrder(slots), StableOrder(Losses(pool), |pool|), Nobody(slots))
  {
    StableOrderSorts(Widths(slots), |slots|);
    StableOrderSorts(Losses(pool), |pool|);
  }

  /** The greedy lineup is best whenever the slots and the pool allow exchanges. */
  lemma {:induction false} GreedyIsBest(pool: seq<Player>, slots: seq<Position>)
    requires Exchangeable(pool, slots, SlotOrder(slots))
    ensures Best(GreedyResult(pool, slots), pool, slots)
  {
    StartStands(pool, slots);
    StableOrderSorts(Widths(slots), |slots|);
    GreedyIsLegal(pool, slots, SlotOrder(slots), StableOrder(Losses(pool), |pool|), Nobody(slots));
    forall o | Legal(o, pool, slots) ensures NoWorse(GreedyResult(pool, slots), o, pool) {
      GreedyDominates(pool, slots, SlotOrder(slots), StableOrder(Losses(pool), |pool|), Nobody(slots), o);
    }
  }
}
