/** How many starting slots a roster can fill in a later week, byes excluded. */
module LineupOutlook {
  import opened LeagueRules
  import opened SlotMatching
  import Lineup
  import opened WaiverCoverage

  datatype WeekForecast = WeekForecast(bye: bool, points: real)
  datatype ScoredPlayer = ScoredPlayer(id: string, positions: seq<Position>, weeks: map<int, WeekForecast>)

  /** A player without a forecast for the week, or on bye, cannot fill a slot. */
  function OutlookPool(active: seq<ScoredPlayer>, week: int): seq<Candidate> {
    seq(|active|, k requires 0 <= k < |active| =>
      Candidate(active[k].id, active[k].positions, week in active[k].weeks && !active[k].weeks[week].bye))
  }

  /** The pairs are those of a slot and a player who fits it and is forecast to play that week. */
  lemma {:induction false} OutlookEdges(active: seq<ScoredPlayer>, week: int, slots: seq<Position>, id: string, s: nat)
    ensures (id, s) in EdgeSet(OutlookPool(active, week), slots) <==>
      s < |slots| && (exists k: nat ::
        k < |active| && active[k].id == id && CanFill(active[k].positions, slots[s])
        && week in active[k].weeks && !active[k].weeks[week].bye)
  {
    var pool := OutlookPool(active, week);
    EdgeSetHas(pool, slots, id, s);
    forall k: nat | k < |active|
      ensures CanTake(pool[k], slots, id, s) <==>
        (s < |slots| && active[k].id == id && CanFill(active[k].positions, slots[s])
        && week in active[k].weeks && !active[k].weeks[week].bye)
    {
    }
  }

  /** The fillable slots of a week are all of them exactly when a complete legal lineup exists. */
  method FillableSlots(active: seq<ScoredPlayer>, week: int, slots: seq<Position>) returns (fillable: nat)
    requires forall a, b | 0 <= a < b < |active| :: active[a].id != active[b].id
    ensures IsMaxFill(fillable, EdgeSet(OutlookPool(active, week), slots))
    ensures forall points: map<string, real>, l: Lineup.Lineup |
      Lineup.Best(l, Playable(OutlookPool(active, week), points), slots) :: Lineup.Filled(l) == fillable
    ensures forall points: map<string, real> :: fillable == |slots| <==>
      CanBeComplete(OutlookPool(active, week), slots, points)
  {
    var pool := OutlookPool(active, week);
    var filler := new SlotFiller(pool, slots);
    fillable := filler.FilledSlots();
    forall points: map<string, real>, l: Lineup.Lineup | Lineup.Best(l, Playable(pool, points), slots)
      ensures Lineup.Filled(l) == fillable
    {
      MaxFillIsBestFilled(fillable, pool, slots, points, l);
    }
    forall points: map<string, real>
      ensures fillable == |slots| <==> CanBeComplete(pool, slots, points)
    {
      FullIffComplete(fillable, pool, slots, points);
    }
  }
}
