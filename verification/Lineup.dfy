/** What a legal lineup is, and which lineups are best. Every assignment algorithm is proved against
    these definitions. */
module Lineup {
  import opened LeagueRules
  import opened Sums

  datatype Player = Player(id: string, positions: seq<Position>, points: real)

  /** For each starting slot, the pool index of the player in it, if any. */
  type Lineup = seq<Option<nat>>

  predicate Eligible(pool: seq<Player>, slots: seq<Position>, p: nat, s: nat)
    requires p < |pool| && s < |slots|
  {
    CanFill(pool[p].positions, slots[s])
  }

  ghost predicate Legal(l: Lineup, pool: seq<Player>, slots: seq<Position>) {
    && |l| == |slots|
    && (forall s | 0 <= s < |l| && l[s].Some? :: l[s].value < |pool| && Eligible(pool, slots, l[s].value, s))
    && (forall s, t | 0 <= s < t < |l| && l[s].Some? && l[t].Some? :: l[s].value != l[t].value)
  }

  function SlotPoints(entry: Option<nat>, pool: seq<Player>): real {
    if entry.Some? && entry.value < |pool| then pool[entry.value].points else 0.0
  }

  ghost function PointsBySlot(l: Lineup, pool: seq<Player>): seq<real> {
    seq(|l|, s requires 0 <= s < |l| => SlotPoints(l[s], pool))
  }

  ghost function Points(l: Lineup, pool: seq<Player>): real {
    Sum(PointsBySlot(l, pool))
  }

  /** How many slots the lineup fills. */
  function Filled(l: Lineup): nat {
    if l == [] then 0 else Filled(l[..|l| - 1]) + (if l[|l| - 1].Some? then 1 else 0)
  }

  /** Filling more slots always wins; points decide between lineups filling equally many. */
  ghost predicate NoWorse(a: Lineup, b: Lineup, pool: seq<Player>) {
    Filled(b) < Filled(a) || (Filled(b) == Filled(a) && Points(b, pool) <= Points(a, pool))
  }

  ghost predicate Best(l: Lineup, pool: seq<Player>, slots: seq<Position>) {
    Legal(l, pool, slots) && forall o :: Legal(o, pool, slots) ==> NoWorse(l, o, pool)
  }

  ghost predicate Complete(l: Lineup) {
    forall s | 0 <= s < |l| :: l[s].Some?
  }

  lemma {:induction false} FilledBound(l: Lineup)
    ensures Filled(l) <= |l|
    ensures Filled(l) == |l| <==> Complete(l)
  {
    if l != [] {
      FilledBound(l[..|l| - 1]);
      assert forall s | 0 <= s < |l| - 1 :: l[..|l| - 1][s] == l[s];
    }
  }

  lemma {:induction false} FilledUpdate(l: Lineup, k: nat, entry: Option<nat>)
    requires k < |l|
    ensures Filled(l[k := entry]) ==
      Filled(l) - (if l[k].Some? then 1 else 0) + (if entry.Some? then 1 else 0)
  {
    var last := |l| - 1;
    if k == last {
      assert l[k := entry][..last] == l[..last];
    } else {
      assert l[k := entry][..last] == l[..last][k := entry];
      FilledUpdate(l[..last], k, entry);
    }
  }

  lemma {:induction false} PointsUpdate(l: Lineup, k: nat, entry: Option<nat>, pool: seq<Player>)
    requires k < |l|
    ensures Points(l[k := entry], pool) == Points(l, pool) - SlotPoints(l[k], pool) + SlotPoints(entry, pool)
  {
    SumUpdate(PointsBySlot(l, pool), k, SlotPoints(entry, pool));
    assert PointsBySlot(l[k := entry], pool) == PointsBySlot(l, pool)[k := SlotPoints(entry, pool)];
  }
}
