/** Exactly which starting slots make the greedy lineup best. The report calls it the best legal
    assignment; these results say for which leagues that is so. */
module GreedyExactness {
  import opened Basics
  import opened LeagueRules
  import opened Lineup
  import opened Sums
  import opened GreedyLineup

  ghost predicate UniqueIds(pool: seq<Player>) {
    forall a, b | 0 <= a < b < |pool| :: pool[a].id != pool[b].id
  }

  ghost predicate SinglePosition(pool: seq<Player>) {
    forall k | 0 <= k < |pool| :: |pool[k].positions| == 1
  }

  /** Greedy is best on every pool of players with one position each. */
  ghost predicate ExactOnSinglePositions(slots: seq<Position>) {
    forall pool :: UniqueIds(pool) && SinglePosition(pool) ==> Best(GreedyResult(pool, slots), pool, slots)
  }

  ghost predicate ExactOnAllPools(slots: seq<Position>) {
    forall pool :: UniqueIds(pool) ==> Best(GreedyResult(pool, slots), pool, slots)
  }

  ghost predicate Accepts(slot: Position, x: Position) {
    x in EligiblePositions(slot)
  }

  ghost predicate Within(slot: Position, other: Position) {
    forall x :: Accepts(slot, x) ==> Accepts(other, x)
  }

  ghost predicate Overlap(slot: Position, other: Position) {
    exists x :: Accepts(slot, x) && Accepts(other, x)
  }

  /** Any two starting slots are nested or disjoint. */
  ghost predicate Laminar(slots: seq<Position>) {
    forall s, t | s in slots && t in slots && Overlap(s, t) :: Within(s, t) || Within(t, s)
  }

  /** Any two starting slots are nested. */
  ghost predicate Chain(slots: seq<Position>) {
    forall s, t | s in slots && t in slots :: Within(s, t) || Within(t, s)
  }

  // ----- sufficiency -----

  /** Of two nested slots the one processed first is the smaller. */
  lemma {:induction false} EarlierIsSmaller(slots: seq<Position>, a: nat, b: nat)
    requires a < b < |SlotOrder(slots)|
    requires Within(slots[SlotOrder(slots)[b]], slots[SlotOrder(slots)[a]])
    ensures Within(slots[SlotOrder(slots)[a]], slots[SlotOrder(slots)[b]])
  {
    StableOrderSorts(Widths(slots), |slots|);
    var s, t := slots[SlotOrder(slots)[a]], slots[SlotOrder(slots)[b]];
    assert |EligiblePositions(s)| <= |EligiblePositions(t)|;
    SameWidth(t, s);
  }

  /** The eligibility table, position by position. */
  ghost predicate Lists(slot: Position, x: Position) {
    match slot
    case FLEX => x == RB || x == WR || x == TE
    case REC_FLEX => x == WR || x == TE
    case SUPER_FLEX => x == QB || x == RB || x == WR || x == TE
    case WRRB_FLEX => x == RB || x == WR
    case IDP_FLEX => x == DL || x == LB || x == DB
    case _ => x == slot
  }

  lemma {:induction false} AcceptsIsListed(slot: Position, x: Position)
    ensures Accepts(slot, x) <==> Lists(slot, x)
  {
  }

  /** A slot that accepts no more positions than t and all that t does accepts nothing else. */
  lemma {:induction false} SameWidthAt(t: Position, s: Position, x: Position)
    requires Within(t, s) && |EligiblePositions(s)| <= |EligiblePositions(t)| && Accepts(s, x)
    ensures Accepts(t, x)
  {
    var listed := EligiblePositions(t);
    forall k | 0 <= k < |listed| ensures Lists(s, listed[k]) {
      assert Accepts(t, listed[k]);
      AcceptsIsListed(s, listed[k]);
    }
    AcceptsIsListed(s, x);
    AcceptsIsListed(t, x);
    assert listed[0] in listed && listed[|listed| - 1] in listed;
  }

  lemma {:induction false} SameWidth(t: Position, s: Position)
    requires Within(t, s) && |EligiblePositions(s)| <= |EligiblePositions(t)|
    ensures Within(s, t)
  {
    forall x | Accepts(s, x) ensures Accepts(t, x) { SameWidthAt(t, s, x); }
  }

  lemma {:induction false} LaminarExchange(slots: seq<Position>, a: nat, b: nat, x: Position, y: Position)
    requires Laminar(slots) && a < b < |SlotOrder(slots)|
    requires Accepts(slots[SlotOrder(slots)[a]], x) && Accepts(slots[SlotOrder(slots)[b]], x) &&
      Accepts(slots[SlotOrder(slots)[a]], y)
    ensures Accepts(slots[SlotOrder(slots)[b]], y)
  {
    if Within(slots[SlotOrder(slots)[b]], slots[SlotOrder(slots)[a]]) {
      EarlierIsSmaller(slots, a, b);
    }
  }

  lemma {:induction false} SingleFills(p: Player, slot: Position)
    requires |p.positions| == 1
    ensures CanFill(p.positions, slot) <==> Accepts(slot, p.positions[0])
  {
  }

  lemma {:induction false} LaminarIsExact(slots: seq<Position>, pool: seq<Player>)
    requires Laminar(slots) && SinglePosition(pool)
    ensures Best(GreedyResult(pool, slots), pool, slots)
  {
    var order := SlotOrder(slots);
    forall a, b, p: nat, q: nat | 0 <= a < b < |order| && p < |pool| && q < |pool|
      && Eligible(pool, slots, p, order[a]) && Eligible(pool, slots, p, order[b]) && Eligible(pool, slots, q, order[a])
      ensures Eligible(pool, slots, q, order[b])
    {
      SingleFills(pool[p], slots[order[a]]);
      SingleFills(pool[p], slots[order[b]]);
      SingleFills(pool[q], slots[order[a]]);
      SingleFills(pool[q], slots[order[b]]);
      LaminarExchange(slots, a, b, pool[p].positions[0], pool[q].positions[0]);
    }
    GreedyIsBest(pool, slots);
  }

  lemma {:induction false} ChainExchange(slots: seq<Position>, a: nat, b: nat)
    requires Chain(slots) && a < b < |SlotOrder(slots)|
    ensures Within(slots[SlotOrder(slots)[a]], slots[SlotOrder(slots)[b]])
  {
    if Within(slots[SlotOrder(slots)[b]], slots[SlotOrder(slots)[a]]) {
      EarlierIsSmaller(slots, a, b);
    }
  }

  lemma {:induction false} WithinFills(positions: seq<Position>, s: Position, t: Position)
    requires Within(s, t) && CanFill(positions, s)
    ensures CanFill(positions, t)
  {
    var k :| 0 <= k < |positions| && positions[k] in EligiblePositions(s);
    assert Accepts(s, positions[k]);
  }

  lemma {:induction false} ChainIsExact(slots: seq<Position>, pool: seq<Player>)
    requires Chain(slots)
    ensures Best(GreedyResult(pool, slots), pool, slots)
  {
    var order := SlotOrder(slots);
    forall a, b, p: nat, q: nat | 0 <= a < b < |order| && p < |pool| && q < |pool|
      && Eligible(pool, slots, p, order[a]) && Eligible(pool, slots, p, order[b]) && Eligible(pool, slots, q, order[a])
      ensures Eligible(pool, slots, q, order[b])
    {
      ChainExchange(slots, a, b);
      WithinFills(pool[q].positions, slots[order[a]], slots[order[b]]);
    }
    GreedyIsBest(pool, slots);
  }

  // ----- what greedy does to a contested player -----

  lemma {:induction false} GreedyExtends(pool: seq<Player>, slots: seq<Position>, order: seq<nat>, remaining: seq<nat>,
          l: Lineup)
    requires |l| == |slots| && (forall x | 0 <= x < |order| :: order[x] < |slots|)
    requires forall x | 0 <= x < |remaining| :: remaining[x] < |pool|
    ensures Extends(Greedy(pool, slots, order, remaining, l), l, order)
    decreases |order|
  {
    if order != [] {
      var k := FirstFit(pool, slots, remaining, order[0]);
      if k == |remaining| {
        GreedyExtends(pool, slots, order[1..], remaining, l);
      } else {
        GreedyExtends(pool, slots, order[1..], Drop(remaining, k), l[order[0] := Some(remaining[k])]);
      }
      assert forall s | s in order[1..] :: s in order;
    }
  }

  lemma {:induction false} FirstTakesBetter(pool: seq<Player>, slots: seq<Position>, order: seq<nat>,
          remaining: seq<nat>, l: Lineup, p: nat)
    requires Standing(pool, slots, order, remaining, l) && order != []
    requires p in remaining && Eligible(pool, slots, p, order[0])
    ensures var entry := Greedy(pool, slots, order, remaining, l)[order[0]];
      entry.Some? && entry.value < |pool| && pool[p].points <= pool[entry.value].points
  {
    var k := FirstFit(pool, slots, remaining, order[0]);
    var j :| 0 <= j < |remaining| && remaining[j] == p;
    assert k <= j;
    assert Losses(pool)[remaining[k]] <= Losses(pool)[remaining[j]];
    GreedyExtends(pool, slots, order[1..], Drop(remaining, k), l[order[0] := Some(remaining[k])]);
    assert order[0] !in order[1..];
  }

  lemma {:induction false} LaterRemains(pool: seq<Player>, slots: seq<Position>, order: seq<nat>, remaining: seq<nat>,
          l: Lineup, b: nat, p: nat)
    requires Standing(pool, slots, order, remaining, l) && b < |order|
    requires Greedy(pool, slots, order, remaining, l)[order[b]] == Some(p)
    ensures p in remaining
  {
    GreedyIsLegal(pool, slots, order, remaining, l);
    GreedyExtends(pool, slots, order, remaining, l);
    SeatedRemains(pool, slots, order, remaining, l, Greedy(pool, slots, order, remaining, l), order[b]);
  }

  predicate HoldsBetter(pool: seq<Player>, entry: Option<nat>, p: nat)
    requires p < |pool|
  {
    entry.Some? && entry.value < |pool| && pool[p].points <= pool[entry.value].points
  }

  /** Greedy over the slots after the first, from where the first leaves it. */
  lemma {:induction false} GreedyAfterFirst(pool: seq<Player>, slots: seq<Position>, order: seq<nat>,
          remaining: seq<nat>, l: Lineup)
    returns (left: seq<nat>, started: Lineup)
    requires Standing(pool, slots, order, remaining, l) && order != []
    ensures Standing(pool, slots, order[1..], left, started)
    ensures Greedy(pool, slots, order[1..], left, started) == Greedy(pool, slots, order, remaining, l)
  {
    var k := FirstFit(pool, slots, remaining, order[0]);
    if k == |remaining| {
      StandingSkip(pool, slots, order, remaining, l);
      left, started := remaining, l;
    } else {
      StandingAfter(pool, slots, order, remaining, l, k);
      left, started := Drop(remaining, k), l[order[0] := Some(remaining[k])];
    }
  }

  /** The first slot holds somebody at least as good as any player who fits it and went to a later slot. */
  ghost predicate FirstHolds(pool: seq<Player>, slots: seq<Position>, order: seq<nat>, g: Lineup)
    requires |g| == |slots| && forall x | 0 <= x < |order| :: order[x] < |slots|
  {
    forall b, p: nat | 0 < b < |order| && p < |pool| && g[order[b]] == Some(p) && Eligible(pool, slots, p, order[0]) ::
      HoldsBetter(pool, g[order[0]], p)
  }

  /** So does every slot. */
  ghost predicate EarlierHold(pool: seq<Player>, slots: seq<Position>, order: seq<nat>, g: Lineup)
    requires |g| == |slots| && forall x | 0 <= x < |order| :: order[x] < |slots|
  {
    forall a, b, p: nat | 0 <= a < b < |order| && p < |pool| && g[order[b]] == Some(p) &&
      Eligible(pool, slots, p, order[a]) ::
      HoldsBetter(pool, g[order[a]], p)
  }

  lemma {:induction false} EarlierHoldCons(pool: seq<Player>, slots: seq<Position>, order: seq<nat>, g: Lineup)
    requires |g| == |slots| && order != [] && forall x | 0 <= x < |order| :: order[x] < |slots|
    requires FirstHolds(pool, slots, order, g) && EarlierHold(pool, slots, order[1..], g)
    ensures EarlierHold(pool, slots, order, g)
  {
    forall a, b, p: nat | 0 <= a < b < |order| && p < |pool| && g[order[b]] == Some(p) &&
      Eligible(pool, slots, p, order[a])
      ensures HoldsBetter(pool, g[order[a]], p)
    {
      if a > 0 {
        assert order[1..][a - 1] == order[a] && order[1..][b - 1] == order[b];
      }
    }
  }

  lemma {:induction false} FirstHoldsBetter(pool: seq<Player>, slots: seq<Position>, order: seq<nat>,
          remaining: seq<nat>, l: Lineup, b: nat, p: nat)
    requires Standing(pool, slots, order, remaining, l) && 0 < b < |order|
    requires Greedy(pool, slots, order, remaining, l)[order[b]] == Some(p)
    requires p < |pool| && Eligible(pool, slots, p, order[0])
    ensures HoldsBetter(pool, Greedy(pool, slots, order, remaining, l)[order[0]], p)
  {
    assert p in remaining by {
      LaterRemains(pool, slots, order, remaining, l, b, p);
    }
    FirstTakesBetter(pool, slots, order, remaining, l, p);
  }

  lemma {:induction false} GreedyFirstHolds(pool: seq<Player>, slots: seq<Position>, order: seq<nat>,
          remaining: seq<nat>, l: Lineup)
    requires Standing(pool, slots, order, remaining, l) && order != []
    ensures FirstHolds(pool, slots, order, Greedy(pool, slots, order, remaining, l))
  {
    var g := Greedy(pool, slots, order, remaining, l);
    forall b, p: nat | 0 < b < |order| && p < |pool| && g[order[b]] == Some(p) && Eligible(pool, slots, p, order[0])
      ensures HoldsBetter(pool, g[order[0]], p)
    {
      FirstHoldsBetter(pool, slots, order, remaining, l, b, p);
    }
  }

  lemma {:induction false} GreedyEarlierHold(pool: seq<Player>, slots: seq<Position>, order: seq<nat>,
          remaining: seq<nat>, l: Lineup)
    requires Standing(pool, slots, order, remaining, l)
    ensures EarlierHold(pool, slots, order, Greedy(pool, slots, order, remaining, l))
    decreases |order|
  {
    if order != [] {
      GreedyFirstHolds(pool, slots, order, remaining, l);
      var left, started := GreedyAfterFirst(pool, slots, order, remaining, l);
      GreedyEarlierHold(pool, slots, order[1..], left, started);
      EarlierHoldCons(pool, slots, order, Greedy(pool, slots, order, remaining, l));
    }
  }

  // ----- necessity: a pool that defeats greedy -----

  /** The marked ones of the first n indices. */
  function Marked(marks: seq<bool>, n: nat): seq<nat>
    requires n <= |marks|
  {
    if n == 0 then [] else Marked(marks, n - 1) + if marks[n - 1] then [n - 1] else []
  }

  lemma {:induction false} MarkedHas(marks: seq<bool>, n: nat)
    requires n <= |marks|
    ensures forall i | 0 <= i < |Marked(marks, n)| :: Marked(marks, n)[i] < n && marks[Marked(marks, n)[i]]
    ensures Distinct(Marked(marks, n))
  {
    if n != 0 {
      MarkedHas(marks, n - 1);
    }
  }

  lemma {:induction false} MarkedGrows(marks: seq<bool>, m: nat, n: nat)
    requires m <= n <= |marks|
    ensures |Marked(marks, m)| <= |Marked(marks, n)|
    ensures m < n && marks[m] ==> |Marked(marks, m)| < |Marked(marks, n)|
    decreases n
  {
    if m < n {
      MarkedGrows(marks, m, n - 1);
    }
  }

  /** Whether each slot takes a strong player but no weak one. */
  function Hard(slots: seq<Position>, xs: seq<Position>, y: Position): seq<bool> {
    seq(|slots|, s requires 0 <= s < |slots| => CanFill(xs, slots[s]) && !CanFill([y], slots[s]))
  }

  /** The first n slots that take a strong player but no weak one. */
  function StrongOnly(slots: seq<Position>, xs: seq<Position>, y: Position, n: nat): seq<nat>
    requires n <= |slots|
  {
    Marked(Hard(slots, xs, y), n)
  }

  lemma {:induction false} StrongOnlyStep(slots: seq<Position>, xs: seq<Position>, y: Position, m: nat, n: nat)
    requires m < n <= |slots| && CanFill(xs, slots[m]) && !CanFill([y], slots[m])
    ensures |StrongOnly(slots, xs, y, m)| < |StrongOnly(slots, xs, y, n)|
  {
    MarkedGrows(Hard(slots, xs, y), m, n);
  }

  function Name(k: nat): string {
    if k == 0 then "" else Name(k - 1) + "p"
  }

  lemma {:induction false} NameLength(k: nat)
    ensures |Name(k)| == k
  {
    if k != 0 {
      NameLength(k - 1);
    }
  }

  /** c strong players at positions xs, then n weak players at position y. */
  function Crowd(xs: seq<Position>, y: Position, c: nat, n: nat): seq<Player> {
    seq(c + n, k requires 0 <= k < c + n => if k < c then Player(Name(k), xs, 2.0) else Player(Name(k), [y], 1.0))
  }

  lemma {:induction false} CrowdIds(xs: seq<Position>, y: Position, c: nat, n: nat)
    ensures UniqueIds(Crowd(xs, y, c, n))
  {
    forall a, b | 0 <= a < b < c + n ensures Name(a) != Name(b) {
      NameLength(a);
      NameLength(b);
    }
  }

  function Ideal(slots: seq<Position>, xs: seq<Position>, y: Position): Lineup {
    seq(|slots|, s requires 0 <= s < |slots| =>
      if CanFill([y], slots[s]) then Some(|StrongOnly(slots, xs, y, |slots|)| + s)
      else if CanFill(xs, slots[s]) then Some(|StrongOnly(slots, xs, y, s)|)
      else None)
  }

  lemma {:induction false} IdealIsLegal(slots: seq<Position>, xs: seq<Position>, y: Position)
    ensures Legal(Ideal(slots, xs, y), Crowd(xs, y, |StrongOnly(slots, xs, y, |slots|)|, |slots|), slots)
  {
    var l, c := Ideal(slots, xs, y), |StrongOnly(slots, xs, y, |slots|)|;
    var pool := Crowd(xs, y, c, |slots|);
    forall s: nat | s < |slots| && l[s].Some?
      ensures l[s].value < |pool| && Eligible(pool, slots, l[s].value, s)
      ensures l[s].value < c <==> !CanFill([y], slots[s])
    {
      if !CanFill([y], slots[s]) {
        StrongOnlyStep(slots, xs, y, s, |slots|);
      }
    }
    forall s: nat, t: nat | s < t < |slots| && l[s].Some? && l[t].Some? ensures l[s].value != l[t].value {
      if !CanFill([y], slots[s]) && !CanFill([y], slots[t]) {
        StrongOnlyStep(slots, xs, y, s, t);
      }
    }
  }

  lemma {:induction false} FilledWithin(g: Lineup, o: Lineup)
    requires |g| == |o| && forall s | 0 <= s < |g| && g[s].Some? :: o[s].Some?
    ensures Filled(g) <= Filled(o)
    ensures Filled(g) == Filled(o) ==> forall s | 0 <= s < |g| && o[s].Some? :: g[s].Some?
  {
    if g != [] {
      FilledWithin(g[..|g| - 1], o[..|o| - 1]);
      assert forall s | 0 <= s < |g| - 1 :: g[..|g| - 1][s] == g[s] && o[..|o| - 1][s] == o[s];
    }
  }

  lemma {:induction false} DistinctBound(s: seq<nat>, n: nat)
    requires Distinct(s) && forall k | 0 <= k < |s| :: s[k] < n
    ensures |s| <= n
  {
    var shifted: seq<nat> := seq(|s|, k requires 0 <= k < |s| => s[k] + 1);
    DistinctElements(shifted);
    SubsetSize(Elements(shifted), Interval(n));
  }

  lemma {:induction false} DistinctElements(s: seq<nat>)
    requires Distinct(s)
    ensures |Elements(s)| == |s|
  {
    if s != [] {
      DistinctElements(s[..|s| - 1]);
      assert s[|s| - 1] !in s[..|s| - 1];
    }
  }

  lemma {:induction false} TooManyStrong(g: Lineup, only: seq<nat>, s: nat)
    requires Distinct(only) && s !in only && s < |g| && forall i | 0 <= i < |only| :: only[i] < |g|
    requires forall a, b | 0 <= a < b < |g| && g[a].Some? && g[b].Some? :: g[a].value != g[b].value
    requires forall i | 0 <= i < |only| :: g[only[i]].Some? && g[only[i]].value < |only|
    ensures g[s].Some? ==> g[s].value >= |only|
  {
    if g[s].Some? && g[s].value < |only| {
      var seated: seq<nat> := seq(|only|, i requires 0 <= i < |only| => g[only[i]].value) + [g[s].value];
      forall a, b | 0 <= a < b < |seated| ensures seated[a] != seated[b] {
        var p, q := only[a], if b < |only| then only[b] else s;
        assert p != q;
        assert seated[a] == g[p].value && seated[b] == g[q].value;
      }
      DistinctBound(seated, |only|);
    }
  }

  /** If a slot got one of the first c players, who are the better ones, so did every earlier slot they fit. */
  lemma {:induction false} EarlierGetsStrong(pool: seq<Player>, slots: seq<Position>, c: nat, a: nat, b: nat)
    requires a < b < |SlotOrder(slots)|
    requires forall p: nat | p < |pool| :: if p < c then pool[p].points == 2.0 else pool[p].points == 1.0
    requires forall p: nat | p < c && p < |pool| :: Eligible(pool, slots, p, SlotOrder(slots)[a])
    requires GreedyResult(pool, slots)[SlotOrder(slots)[b]].Some? &&
      GreedyResult(pool, slots)[SlotOrder(slots)[b]].value < c
    ensures GreedyResult(pool, slots)[SlotOrder(slots)[a]].Some? &&
      GreedyResult(pool, slots)[SlotOrder(slots)[a]].value < c
  {
    StartStands(pool, slots);
    GreedyIsLegal(pool, slots, SlotOrder(slots), StableOrder(Losses(pool), |pool|), Nobody(slots));
    GreedyEarlierHold(pool, slots, SlotOrder(slots), StableOrder(Losses(pool), |pool|), Nobody(slots));
    assert HoldsBetter(pool, GreedyResult(pool, slots)[SlotOrder(slots)[a]],
      GreedyResult(pool, slots)[SlotOrder(slots)[b]].value);
  }

  /** Two slots, the earlier taking strong and weak players, the later only strong ones: greedy spends a
      strong player on the earlier, and leaves one slot more open than it has to. */
  lemma {:induction false} ContestedDefeats(slots: seq<Position>, xs: seq<Position>, y: Position, a: nat, b: nat)
    requires a < b < |SlotOrder(slots)|
    requires CanFill(xs, slots[SlotOrder(slots)[a]]) && CanFill([y], slots[SlotOrder(slots)[a]])
    requires CanFill(xs, slots[SlotOrder(slots)[b]]) && !CanFill([y], slots[SlotOrder(slots)[b]])
    ensures var pool := Crowd(xs, y, |StrongOnly(slots, xs, y, |slots|)|, |slots|);
      !Best(GreedyResult(pool, slots), pool, slots)
  {
    var pool := Crowd(xs, y, |StrongOnly(slots, xs, y, |slots|)|, |slots|);
    var g := GreedyResult(pool, slots);
    if Best(g, pool, slots) {
      LaterIsStrong(slots, xs, y, g, SlotOrder(slots)[b]);
      EarlierGetsStrong(pool, slots, |StrongOnly(slots, xs, y, |slots|)|, a, b);
      EarlierIsWeak(slots, xs, y, g, SlotOrder(slots)[a]);
    }
  }

  /** In a best lineup of the crowd a slot that takes only strong players has one. */
  lemma {:induction false} LaterIsStrong(slots: seq<Position>, xs: seq<Position>, y: Position, g: Lineup, s: nat)
    requires Best(g, Crowd(xs, y, |StrongOnly(slots, xs, y, |slots|)|, |slots|), slots)
    requires s < |slots| && CanFill(xs, slots[s]) && !CanFill([y], slots[s])
    ensures |g| == |slots| && g[s].Some? && g[s].value < |StrongOnly(slots, xs, y, |slots|)|
  {
    FullLineup(slots, xs, y, g);
  }

  /** And a slot that takes weak players has none, because the strong are all needed elsewhere. */
  lemma {:induction false} EarlierIsWeak(slots: seq<Position>, xs: seq<Position>, y: Position, g: Lineup, s: nat)
    requires Best(g, Crowd(xs, y, |StrongOnly(slots, xs, y, |slots|)|, |slots|), slots)
    requires s < |slots| && CanFill([y], slots[s])
    ensures |g| == |slots| && (g[s].Some? ==> g[s].value >= |StrongOnly(slots, xs, y, |slots|)|)
  {
    FullLineup(slots, xs, y, g);
    MarkedHas(Hard(slots, xs, y), |slots|);
    TooManyStrong(g, StrongOnly(slots, xs, y, |slots|), s);
  }

  /** A best lineup of the crowd fills every slot that takes anybody, so strong players fill every
      slot that takes only them. */
  lemma {:induction false} FullLineup(slots: seq<Position>, xs: seq<Position>, y: Position, g: Lineup)
    requires Best(g, Crowd(xs, y, |StrongOnly(slots, xs, y, |slots|)|, |slots|), slots)
    ensures forall s | 0 <= s < |slots| && CanFill(xs, slots[s]) && !CanFill([y], slots[s]) ::
      g[s].Some? && g[s].value < |StrongOnly(slots, xs, y, |slots|)|
  {
    var ideal, c := Ideal(slots, xs, y), |StrongOnly(slots, xs, y, |slots|)|;
    var pool := Crowd(xs, y, c, |slots|);
    IdealIsLegal(slots, xs, y);
    assert NoWorse(g, ideal, pool);
    forall s | 0 <= s < |g| && g[s].Some? ensures ideal[s].Some? {
      assert Eligible(pool, slots, g[s].value, s);
    }
    FilledWithin(g, ideal);
    forall s | 0 <= s < |slots| && CanFill(xs, slots[s]) && !CanFill([y], slots[s])
      ensures g[s].Some? && g[s].value < c
    {
      assert ideal[s].Some?;
      assert Eligible(pool, slots, g[s].value, s);
    }
  }

  // ----- the characterizations -----

  /** Two slots that are not nested come in some order, the earlier accepting a position the later does not. */
  lemma {:induction false} Ranked(slots: seq<Position>, s: Position) returns (x: nat)
    requires s in slots
    ensures x < |SlotOrder(slots)| && slots[SlotOrder(slots)[x]] == s
  {
    StableOrderSorts(Widths(slots), |slots|);
    var i: nat :| i < |slots| && slots[i] == s;
    assert i in SlotOrder(slots);
    x :| 0 <= x < |SlotOrder(slots)| && SlotOrder(slots)[x] == i;
  }

  lemma {:induction false} NotWithin(s: Position, t: Position) returns (y: Position)
    requires !Within(s, t)
    ensures Accepts(s, y) && !Accepts(t, y)
  {
    y :| Accepts(s, y) && !Accepts(t, y);
  }

  lemma {:induction false} Unnested(slots: seq<Position>, s: Position, t: Position)
    returns (a: nat, b: nat, y: Position)
    requires s in slots && t in slots && !Within(s, t) && !Within(t, s)
    ensures a < b < |SlotOrder(slots)|
    ensures var e, f := slots[SlotOrder(slots)[a]], slots[SlotOrder(slots)[b]];
      ((e == s && f == t) || (e == t && f == s)) && Accepts(e, y) && !Accepts(f, y)
  {
    var x := Ranked(slots, s);
    var z := Ranked(slots, t);
    if x < z {
      a, b := x, z;
      y := NotWithin(s, t);
    } else {
      a, b := z, x;
      y := NotWithin(t, s);
    }
  }

  lemma {:induction false} FillsSingle(y: Position, slot: Position)
    ensures CanFill([y], slot) <==> Accepts(slot, y)
  {
    assert [y][0] == y;
  }

  lemma {:induction false} ContestedRefutes(slots: seq<Position>, xs: seq<Position>, y: Position, a: nat, b: nat)
    requires a < b < |SlotOrder(slots)|
    requires CanFill(xs, slots[SlotOrder(slots)[a]]) && CanFill([y], slots[SlotOrder(slots)[a]])
    requires CanFill(xs, slots[SlotOrder(slots)[b]]) && !CanFill([y], slots[SlotOrder(slots)[b]])
    ensures !ExactOnAllPools(slots)
    ensures |xs| == 1 ==> !ExactOnSinglePositions(slots)
  {
    var pool := Crowd(xs, y, |StrongOnly(slots, xs, y, |slots|)|, |slots|);
    ContestedDefeats(slots, xs, y, a, b);
    CrowdIds(xs, y, |StrongOnly(slots, xs, y, |slots|)|, |slots|);
    assert UniqueIds(pool) && (|xs| == 1 ==> SinglePosition(pool));
  }

  /** Slots that cross have a single-position pool that defeats greedy. */
  lemma {:induction false} CrossingDefeats(slots: seq<Position>, s: Position, t: Position, x: Position)
    requires s in slots && t in slots && !Within(s, t) && !Within(t, s) && Accepts(s, x) && Accepts(t, x)
    ensures !ExactOnSinglePositions(slots)
  {
    var a, b, y := Unnested(slots, s, t);
    FillsSingle(x, s);
    FillsSingle(x, t);
    FillsSingle(y, s);
    FillsSingle(y, t);
    ContestedRefutes(slots, [x], y, a, b);
  }

  lemma {:induction false} FillsPair(x: Position, y: Position, slot: Position)
    ensures CanFill([x, y], slot) <==> Accepts(slot, x) || Accepts(slot, y)
  {
    assert [x, y][0] == x && [x, y][1] == y;
  }

  /** Slots that are not nested have a pool that defeats greedy, with players at two positions. */
  lemma {:induction false} UnnestedDefeats(slots: seq<Position>, s: Position, t: Position)
    requires s in slots && t in slots && !Within(s, t) && !Within(t, s)
    ensures !ExactOnAllPools(slots)
  {
    var a, b, y := Unnested(slots, s, t);
    var earlier, later := slots[SlotOrder(slots)[a]], slots[SlotOrder(slots)[b]];
    var x := EligiblePositions(later)[0];
    assert Accepts(later, x);
    FillsPair(x, y, later);
    FillsPair(x, y, earlier);
    FillsSingle(y, earlier);
    FillsSingle(y, later);
    ContestedRefutes(slots, [x, y], y, a, b);
  }

  /** Greedy is best on all single-position pools exactly when the starting slots are pairwise nested or
      disjoint. */
  lemma {:induction false} ExactIffLaminar(slots: seq<Position>)
    ensures ExactOnSinglePositions(slots) <==> Laminar(slots)
  {
    if Laminar(slots) {
      forall pool | UniqueIds(pool) && SinglePosition(pool) ensures Best(GreedyResult(pool, slots), pool, slots) {
        LaminarIsExact(slots, pool);
      }
    } else {
      var s, t :| s in slots && t in slots && Overlap(s, t) && !Within(s, t) && !Within(t, s);
      var x :| Accepts(s, x) && Accepts(t, x);
      CrossingDefeats(slots, s, t, x);
    }
  }

  /** Greedy is best on all pools exactly when the starting slots are pairwise nested. */
  lemma {:induction false} ExactIffChain(slots: seq<Position>)
    ensures ExactOnAllPools(slots) <==> Chain(slots)
  {
    if Chain(slots) {
      forall pool | UniqueIds(pool) ensures Best(GreedyResult(pool, slots), pool, slots) {
        ChainIsExact(slots, pool);
      }
    } else {
      var s, t :| s in slots && t in slots && !Within(s, t) && !Within(t, s);
      UnnestedDefeats(slots, s, t);
    }
  }

  lemma {:induction false} TheseCross()
    ensures Overlap(REC_FLEX, WRRB_FLEX) && !Within(REC_FLEX, WRRB_FLEX) && !Within(WRRB_FLEX, REC_FLEX)
  {
    AcceptsIsListed(REC_FLEX, WR);
    AcceptsIsListed(WRRB_FLEX, WR);
    AcceptsIsListed(REC_FLEX, TE);
    AcceptsIsListed(WRRB_FLEX, TE);
    AcceptsIsListed(REC_FLEX, RB);
    AcceptsIsListed(WRRB_FLEX, RB);
    assert Accepts(REC_FLEX, WR) && Accepts(WRRB_FLEX, WR);
    assert Accepts(REC_FLEX, TE) && !Accepts(WRRB_FLEX, TE);
    assert Accepts(WRRB_FLEX, RB) && !Accepts(REC_FLEX, RB);
  }

  /** Among the slot kinds only REC_FLEX and WRRB_FLEX overlap without one containing the other. */
  lemma {:induction false} OnlyTheseCross(s: Position, t: Position, x: Position)
    requires Accepts(s, x) && Accepts(t, x)
    requires !(s == REC_FLEX && t == WRRB_FLEX) && !(s == WRRB_FLEX && t == REC_FLEX)
    ensures Within(s, t) || Within(t, s)
  {
    forall z ensures (Accepts(s, z) <==> Lists(s, z)) && (Accepts(t, z) <==> Lists(t, z)) {
      AcceptsIsListed(s, z);
      AcceptsIsListed(t, z);
    }
  }

  /** So the greedy lineup is best on all single-position pools exactly when the league does not start
      both a REC_FLEX and a WRRB_FLEX. */
  lemma {:induction false} ExactIffNotBothNarrowFlexes(slots: seq<Position>)
    ensures ExactOnSinglePositions(slots) <==> !(REC_FLEX in slots && WRRB_FLEX in slots)
  {
    ExactIffLaminar(slots);
    if REC_FLEX in slots && WRRB_FLEX in slots {
      TheseCross();
    } else {
      forall s, t | s in slots && t in slots && Overlap(s, t) ensures Within(s, t) || Within(t, s) {
        var x :| Accepts(s, x) && Accepts(t, x);
        OnlyTheseCross(s, t, x);
      }
    }
  }
}
