/** Roster slots and the positions that may fill them. */
module LeagueRules {
  datatype Option<+T> = None | Some(value: T)

  /** Position and slot names. The named ones are those the eligibility table mentions. */
  datatype Position =
    | QB | RB | WR | TE | DL | LB | DB
    | FLEX | REC_FLEX | SUPER_FLEX | WRRB_FLEX | IDP_FLEX
    | Other(name: string)

  /** The positions a roster slot accepts. A slot that is not a flex accepts only its own name. */
  function EligiblePositions(slot: Position): seq<Position> {
    match slot
    case FLEX => [RB, WR, TE]
    case REC_FLEX => [WR, TE]
    case SUPER_FLEX => [QB, RB, WR, TE]
    case WRRB_FLEX => [RB, WR]
    case IDP_FLEX => [DL, LB, DB]
    case _ => [slot]
  }

  predicate CanFill(positions: seq<Position>, slot: Position) {
    exists k | 0 <= k < |positions| :: positions[k] in EligiblePositions(slot)
  }
}
