/** The exact trade lineup: slots are rows, pool players and one dummy per slot are columns, and the
    cost table makes filling a slot outrank any difference in points. */
module TradeLineup {
  import opened Basics
  import opened LeagueRules
  import opened Lineup
  import opened Sums
  import opened Hungarian

  datatype LineupSlot = LineupSlot(slot: Position, playerId: Option<string>, points: real)
  datatype TradeLineup = TradeLineup(legal: bool, points: real, slots: seq<LineupSlot>)

  function Abs(x: real): real {
    if x < 0.0 then -x else x
  }

  /** The largest absolute score in the pool, or 1 if that is larger. */
  function Scale(pool: seq<Player>): (b: real)
    ensures b >= 1.0
    ensures forall k | 0 <= k < |pool| :: Abs(pool[k].points) <= b
  {
    if pool == [] then 1.0
    else
      var rest := Scale(pool[..|pool| - 1]);
      var last := Abs(pool[|pool| - 1].points);
      if last > rest then last else rest
  }

  /** Worth more than any difference in points between two lineups of n slots. */
  function Reward(pool: seq<Player>, n: nat): real {
    1.0 + 2.0 * Times(n, Scale(pool))
  }

  function Cell(pool: seq<Player>, slots: seq<Position>, s: nat, j: nat): real
    requires s < |slots|
  {
    if j >= |pool| then 0.0
    else if CanFill(pool[j].positions, slots[s]) then -Reward(pool, |slots|) - pool[j].points
    else Times(|slots| + 1, Reward(pool, |slots|))
  }

  function CostTable(pool: seq<Player>, slots: seq<Position>): (c: Costs)
    ensures IsTable(c, |slots|, |pool| + |slots|)
    ensures forall s, j | 0 <= s < |slots| && 0 <= j < |pool| + |slots| :: c[s][j] == Cell(pool, slots, s, j)
  {
    seq(|slots|, s requires 0 <= s < |slots| =>
      seq(|pool| + |slots|, j requires 0 <= j < |pool| + |slots| => Cell(pool, slots, s, j)))
  }

  function Cents(x: real): real {
    Round(x * 100.0) as real / 100.0
  }

  /** The reward in products: repeated addition is only how proofs see it. */
  lemma {:induction false} RewardInProducts(pool: seq<Player>, n: nat)
    ensures Reward(pool, n) == 1.0 + 2.0 * n as real * Scale(pool)
  {
    TimesIsProduct(n, Scale(pool));
  }

  /** Rounding gives whole cents, moves a total by half a cent at most, and never reverses two totals. */
  lemma {:induction false} CentsAreNear(x: real, y: real)
    ensures 100.0 * Cents(x) == (100.0 * Cents(x)).Floor as real
    ensures -0.005 <= x - Cents(x) < 0.005
    ensures x <= y ==> Cents(x) <= Cents(y)
  {
    RoundIsNearest(x * 100.0);
    if x <= y {
      RoundIsMonotone(x * 100.0, y * 100.0);
    }
  }

  // ----- lineups as column choices -----

  function ToChoice(l: Lineup, pool: seq<Player>): seq<nat> {
    seq(|l|, s requires 0 <= s < |l| => if l[s].Some? then l[s].value else |pool| + s)
  }

  function FromChoice(choice: seq<nat>, pool: seq<Player>): Lineup {
    seq(|choice|, s requires 0 <= s < |choice| => if choice[s] < |pool| then Some(choice[s]) else None)
  }

  lemma {:induction false} ToChoiceIsChoice(l: Lineup, pool: seq<Player>, slots: seq<Position>)
    requires Legal(l, pool, slots)
    ensures Choice(ToChoice(l, pool), |slots|, |pool| + |slots|)
  {
  }

  lemma {:induction false} FilledSum(l: Lineup, pool: seq<Player>, reward: real, costs: seq<real>)
    requires |costs| == |l|
    requires forall s | 0 <= s < |l| :: costs[s] == (if l[s].Some? then -reward else 0.0) - SlotPoints(l[s], pool)
    ensures Sum(costs) == -Times(Filled(l), reward) - Points(l, pool)
  {
    if l != [] {
      var last := |l| - 1;
      FilledSum(l[..last], pool, reward, costs[..last]);
      assert PointsBySlot(l, pool)[..last] == PointsBySlot(l[..last], pool);
    }
  }

  /** The cost of a legal lineup is minus its reward minus its points. */
  lemma {:induction false} LineupCost(l: Lineup, pool: seq<Player>, slots: seq<Position>)
    requires Legal(l, pool, slots)
    ensures Choice(ToChoice(l, pool), |slots|, |pool| + |slots|)
    ensures Sum(ChoiceCosts(CostTable(pool, slots), ToChoice(l, pool)))
      == -Times(Filled(l), Reward(pool, |slots|)) - Points(l, pool)
  {
    ToChoiceIsChoice(l, pool, slots);
    FilledSum(l, pool, Reward(pool, |slots|), ChoiceCosts(CostTable(pool, slots), ToChoice(l, pool)));
  }

  lemma {:induction false} PointsBound(l: Lineup, pool: seq<Player>)
    ensures Abs(Points(l, pool)) <= Times(|l|, Scale(pool))
  {
    var high, low := seq(|l|, s => Scale(pool)), seq(|l|, s => -Scale(pool));
    SumConstant(high, Scale(pool));
    SumConstant(low, -Scale(pool));
    TimesNegated(|l|, Scale(pool));
    SumMonotone(PointsBySlot(l, pool), high);
    SumMonotone(low, PointsBySlot(l, pool));
  }

  lemma {:induction false} TimesNegated(k: nat, x: real)
    ensures Times(k, -x) == -Times(k, x)
  {
    if k != 0 {
      TimesNegated(k - 1, x);
    }
  }

  lemma {:induction false} TimesAdds(k: nat, x: real, y: real)
    ensures Times(k, x + y) == Times(k, x) + Times(k, y)
  {
    if k != 0 {
      TimesAdds(k - 1, x, y);
    }
  }

  /** One ineligible column costs more than every reward together could repay. */
  lemma {:induction false} CheapMeansEligible(choice: seq<nat>, pool: seq<Player>, slots: seq<Position>)
    requires Choice(choice, |slots|, |pool| + |slots|)
    requires Sum(ChoiceCosts(CostTable(pool, slots), choice)) <= 0.0
    ensures Legal(FromChoice(choice, pool), pool, slots)
  {
    forall s | 0 <= s < |slots| && choice[s] < |pool| ensures CanFill(pool[choice[s]].positions, slots[s]) {
      if !CanFill(pool[choice[s]].positions, slots[s]) {
        IneligibleCosts(choice, pool, slots, s);
      }
    }
  }

  lemma {:induction false} IneligibleCosts(choice: seq<nat>, pool: seq<Player>, slots: seq<Position>, s: nat)
    requires Choice(choice, |slots|, |pool| + |slots|) && s < |slots|
    requires choice[s] < |pool| && !CanFill(pool[choice[s]].positions, slots[s])
    ensures Sum(ChoiceCosts(CostTable(pool, slots), choice)) > 0.0
  {
    var n, costs := |slots|, ChoiceCosts(CostTable(pool, slots), choice);
    var reward, scale := Reward(pool, n), Scale(pool);
    TimesBound(n, scale);
    TimesBound(n, reward);
    var least := -(reward + scale);
    var floor := seq(n, k => least);
    SumConstant(floor, least);
    TimesNegated(n, reward + scale);
    TimesAdds(n, reward, scale);
    SumUpdate(floor, s, costs[s]);
    forall k | 0 <= k < n ensures floor[s := costs[s]][k] <= costs[k] {
      assert costs[k] == Cell(pool, slots, k, choice[k]);
    }
    SumMonotone(floor[s := costs[s]], costs);
  }

  lemma {:induction false} RoundTrip(choice: seq<nat>, pool: seq<Player>, slots: seq<Position>)
    requires Choice(choice, |slots|, |pool| + |slots|)
    requires Legal(FromChoice(choice, pool), pool, slots)
    ensures Sum(ChoiceCosts(CostTable(pool, slots), ToChoice(FromChoice(choice, pool), pool)))
      == Sum(ChoiceCosts(CostTable(pool, slots), choice))
  {
    var l := FromChoice(choice, pool);
    ToChoiceIsChoice(l, pool, slots);
    assert ChoiceCosts(CostTable(pool, slots), ToChoice(l, pool)) == ChoiceCosts(CostTable(pool, slots), choice);
  }

  /** A cheapest choice of columns is a best lineup: filled slots first, then points. */
  lemma {:induction false} CheapestIsBest(choice: seq<nat>, pool: seq<Player>, slots: seq<Position>)
    requires Choice(choice, |slots|, |pool| + |slots|)
    requires forall o :: Choice(o, |slots|, |pool| + |slots|) ==>
      Sum(ChoiceCosts(CostTable(pool, slots), choice)) <= Sum(ChoiceCosts(CostTable(pool, slots), o))
    ensures Best(FromChoice(choice, pool), pool, slots)
  {
    var l := FromChoice(choice, pool);
    assert Legal(l, pool, slots) by {
      var empty: Lineup := seq(|slots|, s => None);
      LineupCost(empty, pool, slots);
      EmptyLineup(empty, pool);
      CheapMeansEligible(choice, pool, slots);
    }
    RoundTrip(choice, pool, slots);
    LineupCost(l, pool, slots);
    forall o | Legal(o, pool, slots) ensures NoWorse(l, o, pool) {
      CheaperIsNoWorse(l, o, pool, slots);
    }
  }

  /** Of two legal lineups the one that costs no more is no worse. */
  lemma {:induction false} CheaperIsNoWorse(l: Lineup, o: Lineup, pool: seq<Player>, slots: seq<Position>)
    requires Legal(l, pool, slots) && Legal(o, pool, slots)
    requires Choice(ToChoice(l, pool), |slots|, |pool| + |slots|) &&
      Choice(ToChoice(o, pool), |slots|, |pool| + |slots|)
    requires Sum(ChoiceCosts(CostTable(pool, slots), ToChoice(l, pool))) <=
      Sum(ChoiceCosts(CostTable(pool, slots), ToChoice(o, pool)))
    ensures NoWorse(l, o, pool)
  {
    LineupCost(l, pool, slots);
    LineupCost(o, pool, slots);
    PointsBound(l, pool);
    PointsBound(o, pool);
    RewardDecides(Filled(l), Filled(o), Points(l, pool), Points(o, pool), Times(|slots|, Scale(pool)));
  }

  lemma {:induction false} EmptyLineup(l: Lineup, pool: seq<Player>)
    requires forall s | 0 <= s < |l| :: l[s].None?
    ensures Filled(l) == 0 && Points(l, pool) == 0.0
  {
    SumZero(PointsBySlot(l, pool));
    if l != [] {
      EmptyLineup(l[..|l| - 1], pool);
    }
  }

  lemma {:induction false} RewardDecides(f: nat, g: nat, x: real, y: real, bound: real)
    requires Abs(x) <= bound && Abs(y) <= bound
    requires -Times(f, 1.0 + 2.0 * bound) - x <= -Times(g, 1.0 + 2.0 * bound) - y
    ensures g < f || (g == f && y <= x)
  {
    if f < g {
      TimesGrows(f, g, 1.0 + 2.0 * bound);
    }
  }

  // ----- the algorithm -----

  lemma {:induction false} SolvedIsBest(x: Matching, pool: seq<Player>, slots: seq<Position>)
    requires x.c == CostTable(pool, slots) && x.n == |slots| && x.m == |pool| + |slots| && x.Solved(x.n)
    ensures Best(FromChoice(MatchedChoice(x), pool), pool, slots)
  {
    MatchedChoiceIsChoice(x);
    forall o | Choice(o, x.n, x.m)
      ensures Sum(ChoiceCosts(x.c, MatchedChoice(x))) <= Sum(ChoiceCosts(x.c, o))
    {
      MatchedIsCheapest(x, o);
    }
    CheapestIsBest(MatchedChoice(x), pool, slots);
  }

  method OptimizeTradeLineup(pool: seq<Player>, slots: seq<Position>) returns (r: TradeLineup, ghost l: Lineup)
    ensures Best(l, pool, slots)
    ensures |r.slots| == |slots|
    ensures forall s | 0 <= s < |slots| ::
      (r.slots[s] == LineupSlot(slots[s], if l[s].Some? then Some(pool[l[s].value].id)
        else None, SlotPoints(l[s], pool)))
    ensures r.legal <==> exists o :: Legal(o, pool, slots) && Complete(o)
    ensures r.points == Cents(Points(l, pool))
    ensures forall o | Legal(o, pool, slots) && Filled(o) == Filled(l) :: Points(o, pool) < r.points + 0.005
  {
    var n, m := |slots|, |pool| + |slots|;
    var c := CostTable(pool, slots);
    var p;
    ghost var x;
    p, x := Solve(c, n, m);
    SolvedIsBest(x, pool, slots);
    l := FromChoice(MatchedChoice(x), pool);
    var columns := ReadAssignment(p, n, m, x);
    r := Report(pool, slots, columns, l);
    CompleteIffBestIs(l, pool, slots);
    CentsAreNear(Points(l, pool), Points(l, pool));
    forall o | Legal(o, pool, slots) && Filled(o) == Filled(l) ensures Points(o, pool) < r.points + 0.005 {
      assert NoWorse(l, o, pool);
    }
  }

  /** Names the player of each slot and totals the lineup. */
  function Report(pool: seq<Player>, slots: seq<Position>, columns: seq<int>, ghost l: Lineup): (r: TradeLineup)
    requires |columns| == |slots| == |l|
    requires forall s | 0 <= s < |slots| ::
      (if 0 <= columns[s] < |pool| then l[s] == Some(columns[s] as nat) else l[s] == None)
    ensures |r.slots| == |slots|
    ensures forall s | 0 <= s < |slots| ::
      (r.slots[s] == LineupSlot(slots[s], if l[s].Some? then Some(pool[l[s].value].id)
        else None, SlotPoints(l[s], pool)))
    ensures r.legal <==> Complete(l)
    ensures r.points == Cents(Points(l, pool))
  {
    var rows := seq(|slots|, s requires 0 <= s < |slots| => SlotOf(pool, slots[s], columns[s]));
    SumSlotsIsPoints(rows, l, pool);
    TradeLineup(forall s | 0 <= s < |rows| :: rows[s].playerId.Some?, Cents(SumSlots(rows)), rows)
  }

  function SlotOf(pool: seq<Player>, slot: Position, j: int): LineupSlot {
    if 0 <= j < |pool| then LineupSlot(slot, Some(pool[j].id), pool[j].points) else LineupSlot(slot, None, 0.0)
  }

  function SumSlots(rows: seq<LineupSlot>): real {
    if rows == [] then 0.0 else SumSlots(rows[..|rows| - 1]) + rows[|rows| - 1].points
  }

  lemma {:induction false} SumSlotsIsPoints(rows: seq<LineupSlot>, l: Lineup, pool: seq<Player>)
    requires |rows| == |l| && forall s | 0 <= s < |l| :: rows[s].points == SlotPoints(l[s], pool)
    ensures SumSlots(rows) == Points(l, pool)
  {
    if rows != [] {
      SumSlotsIsPoints(rows[..|rows| - 1], l[..|l| - 1], pool);
      assert PointsBySlot(l, pool)[..|l| - 1] == PointsBySlot(l[..|l| - 1], pool);
    }
  }

  /** Reads the column of each row back from the matching. */
  method ReadAssignment(p: array<nat>, n: nat, m: nat, ghost x: Matching) returns (columns: seq<int>)
    requires x.Solved(n) && x.n == n && x.m == m && p[..] == x.p
    ensures |columns| == n && forall s | 0 <= s < n :: columns[s] == MatchedChoice(x)[s]
  {
    columns := seq(n, _ => -1);
    var j := 1;
    while j <= m
      invariant 1 <= j <= m + 1 && |columns| == n
      invariant forall r | 1 <= r <= n && x.col[r] < j :: columns[r - 1] == x.col[r] - 1
    {
      if p[j] != 0 {
        columns := columns[p[j] - 1 := j - 1];
      }
      j := j + 1;
    }
  }

  /** A complete legal lineup exists exactly when a best lineup is complete. */
  lemma {:induction false} CompleteIffBestIs(l: Lineup, pool: seq<Player>, slots: seq<Position>)
    requires Best(l, pool, slots)
    ensures Complete(l) <==> exists o :: Legal(o, pool, slots) && Complete(o)
  {
    FilledBound(l);
    forall o | Legal(o, pool, slots) && Complete(o) ensures Complete(l) {
      FilledBound(o);
      assert NoWorse(l, o, pool);
    }
  }
}
