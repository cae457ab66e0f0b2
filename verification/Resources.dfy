/** What synchronization stores for readers: league records, the records of each collection by id, weekly
    snapshots, freshness marks, and the older whole-league snapshots with the log of runs. A change merges
    what one synchronization carries, replaces all players, saves a snapshot, logs a run or removes a
    league. */
module Resources {
  import opened Basics
  import opened LeagueRules

  type LeagueId = string
  type ScoringId = string

  /** season and scoring are read back by the store itself; body stands for the rest. */
  datatype League = League(season: string, scoring: Option<ScoringId>, body: string)

  datatype Kind = Users | Players | Rosters | Matchups | Transactions | DraftPicks

  /** A record of a collection; those of users and players belong to no league. */
  datatype Item = Item(kind: Kind, id: string, league: LeagueId, body: string)

  type ItemKey = (Kind, string)

  function KeyOf(i: Item): ItemKey {
    (i.kind, i.id)
  }

  datatype Weekly = Weekly(id: string, league: LeagueId, body: string)

  /** scope is a league, or the sport for the player list. */
  datatype FreshKey = FreshKey(resource: string, scope: string, period: string)

  /** One run of a synchronization; a run of the player directory belongs to no league. */
  datatype SyncRun = SyncRun(league: Option<LeagueId>, body: string)

  datatype Shared = Shared(leagues: map<LeagueId, League>, items: map<ItemKey, Item>, weekly: seq<Weekly>,
                           freshness: map<FreshKey, string>, snapshots: map<LeagueId, string>, runs: seq<SyncRun>)

  const NOTHING := Shared(map[], map[], [], map[], map[], [])

  const RUN_LIMIT := 100

  /** What one write carries. picksGiven says whether draft picks are among its collections, if only as an
      empty one. */
  datatype Sync = Sync(leagueId: LeagueId, league: Option<League>, items: seq<Item>, picksGiven: bool,
                       replacePicksOf: Option<LeagueId>, weekly: Option<Weekly>, freshness: map<FreshKey, string>)

  type PlayerItem = i: Item | i.kind == Players witness Item(Players, "", "", "")

  /** The directory replaces all players at once. */
  datatype Change =
    | Merge(sync: Sync)
    | DropLeague(league: LeagueId)
    | ReplacePlayers(players: seq<PlayerItem>, at: string)
    | SaveSnapshot(owner: LeagueId, body: string, run: SyncRun)
    | LogRun(run: SyncRun)

  const PLAYERS_MARK := FreshKey("players", "nfl", "")

  // ----- what a change does -----

  /** An empty league id names none. */
  predicate ReplacesPicks(w: Sync) {
    w.picksGiven && w.replacePicksOf.Some? && w.replacePicksOf.value != ""
  }

  /** The transferred picks a write replaces as a whole. */
  predicate Replaces(w: Sync, i: Item) {
    ReplacesPicks(w) && i.kind == DraftPicks && i.league == w.replacePicksOf.value
  }

  function Spared(items: map<ItemKey, Item>, w: Sync): map<ItemKey, Item> {
    map k | k in items && !Replaces(w, items[k]) :: items[k]
  }

  /** Later records win. */
  function Upserted(items: map<ItemKey, Item>, values: seq<Item>): map<ItemKey, Item>
    decreases |values|
  {
    if values == [] then items
    else Upserted(items, values[..|values| - 1])[KeyOf(values[|values| - 1]) := values[|values| - 1]]
  }

  function FindWeekly(weekly: seq<Weekly>, id: string): (r: Option<Weekly>)
    ensures r.Some? ==> r.value in weekly && r.value.id == id
    ensures r.None? ==> forall w | w in weekly :: w.id != id
    decreases |weekly|
  {
    if weekly == [] then None else if weekly[0].id == id then Some(weekly[0]) else FindWeekly(weekly[1..], id)
  }

  /** A weekly snapshot already recorded is not written twice. */
  function Noted(weekly: seq<Weekly>, w: Weekly): seq<Weekly> {
    if FindWeekly(weekly, w.id).Some? then weekly else weekly + [w]
  }

  function Merged(s: Shared, w: Sync): Shared {
    s.(leagues := if w.league.Some? then s.leagues[w.leagueId := w.league.value] else s.leagues,
       items := Upserted(Spared(s.items, w), w.items),
       weekly := if w.weekly.Some? then Noted(s.weekly, w.weekly.value) else s.weekly,
       freshness := s.freshness + w.freshness)
  }

  /** Newest first, and only so many. */
  function Logged(runs: seq<SyncRun>, run: SyncRun): seq<SyncRun> {
    if |runs| < RUN_LIMIT then [run] + runs else ([run] + runs)[..RUN_LIMIT]
  }

  predicate BelongsTo(i: Item, league: LeagueId) {
    !i.kind.Users? && !i.kind.Players? && i.league == league
  }

  function ItemsBut(items: map<ItemKey, Item>, league: LeagueId): map<ItemKey, Item> {
    map k | k in items && !BelongsTo(items[k], league) :: items[k]
  }

  function WeeklyOfOther(league: LeagueId): Weekly -> bool {
    (w: Weekly) => w.league != league
  }

  function RunOfOther(league: LeagueId): SyncRun -> bool {
    (r: SyncRun) => r.league != Some(league)
  }

  function FreshnessBut(freshness: map<FreshKey, string>, league: LeagueId): map<FreshKey, string> {
    map k | k in freshness && k.scope != league :: freshness[k]
  }

  function Dropped(s: Shared, league: LeagueId): Shared {
    Shared(s.leagues - {league}, ItemsBut(s.items, league), Keep(s.weekly, WeeklyOfOther(league)),
           FreshnessBut(s.freshness, league), s.snapshots - {league}, Keep(s.runs, RunOfOther(league)))
  }

  function OtherItems(items: map<ItemKey, Item>): map<ItemKey, Item> {
    map k | k in items && k.0 != Players :: items[k]
  }

  function PlayersReplaced(s: Shared, players: seq<PlayerItem>, at: string): Shared {
    s.(items := Upserted(OtherItems(s.items), players), freshness := s.freshness[PLAYERS_MARK := at])
  }

  function Changed(s: Shared, c: Change): Shared {
    match c
    case ReplacePlayers(players, at) => PlayersReplaced(s, players, at)
    case Merge(w) => Merged(s, w)
    case DropLeague(league) => Dropped(s, league)
    case SaveSnapshot(owner, body, run) => s.(snapshots := s.snapshots[owner := body], runs := Logged(s.runs, run))
    case LogRun(run) => s.(runs := Logged(s.runs, run))
  }

  // ----- what each change stores -----

  /** A record of the collections after a merge: the last one carried under its key; else the one from before,
      unless it is a transferred pick of the league whose picks are replaced. */
  ghost predicate MergedItem(s: Shared, w: Sync, items: map<ItemKey, Item>, k: ItemKey) {
    && (forall i | 0 <= i < |w.items| && (w.items[i].kind, w.items[i].id) == k && LastOfItsKey(w.items, i) ::
      k in items && items[k] == w.items[i])
    && ((forall i | 0 <= i < |w.items| :: (w.items[i].kind, w.items[i].id) != k) ==>
      && (k in items <==> k in s.items && !IsReplacedPick(w, s.items[k]))
      && (k in items ==> items[k] == s.items[k]))
  }

  /** A transferred pick of the league whose picks the write replaces. */
  predicate IsReplacedPick(w: Sync, i: Item) {
    w.picksGiven && i.kind == DraftPicks && i.league != "" && w.replacePicksOf == Some(i.league)
  }

  ghost predicate LastOfItsKey(values: seq<Item>, i: nat)
    requires i < |values|
  {
    forall j | i < j < |values| :: values[j].kind != values[i].kind || values[j].id != values[i].id
  }

  lemma {:induction false} UpsertedLast(items: map<ItemKey, Item>, values: seq<Item>, i: nat)
    requires i < |values| && LastOfItsKey(values, i)
    ensures var k := (values[i].kind, values[i].id);
      k in Upserted(items, values) && Upserted(items, values)[k] == values[i]
    decreases |values|
  {
    var n := |values| - 1;
    var front := values[..n];
    if i < n {
      assert KeyOf(values[n]) != KeyOf(values[i]);
      assert LastOfItsKey(front, i);
      UpsertedLast(items, front, i);
    }
  }

  lemma {:induction false} UpsertedElsewhere(items: map<ItemKey, Item>, values: seq<Item>, k: ItemKey)
    requires forall i | 0 <= i < |values| :: (values[i].kind, values[i].id) != k
    ensures k in Upserted(items, values) <==> k in items
    ensures k in items ==> Upserted(items, values)[k] == items[k]
    decreases |values|
  {
    if values != [] {
      UpsertedElsewhere(items, values[..|values| - 1], k);
    }
  }

  lemma {:induction false} MergedItems(s: Shared, w: Sync, k: ItemKey)
    ensures MergedItem(s, w, Upserted(Spared(s.items, w), w.items), k)
  {
    var items := Upserted(Spared(s.items, w), w.items);
    forall i | 0 <= i < |w.items| && (w.items[i].kind, w.items[i].id) == k && LastOfItsKey(w.items, i)
      ensures k in items && items[k] == w.items[i]
    {
      UpsertedLast(Spared(s.items, w), w.items, i);
    }
    if forall i | 0 <= i < |w.items| :: (w.items[i].kind, w.items[i].id) != k {
      UpsertedElsewhere(Spared(s.items, w), w.items, k);
    }
  }

  /** A merge stores the league it carries, its records, its weekly snapshot unless one has that id, and its
      freshness marks; and nothing else. */
  lemma {:induction false} MergeStores(s: Shared, w: Sync, k: ItemKey)
    ensures var s' := Merged(s, w);
      && MergedItem(s, w, s'.items, k)
      && (w.league.Some? ==> s'.leagues == s.leagues[w.leagueId := w.league.value])
      && (w.league.None? ==> s'.leagues == s.leagues)
      && (w.weekly.Some? && (forall x | x in s.weekly :: x.id != w.weekly.value.id) ==>
        s'.weekly == s.weekly + [w.weekly.value])
      && ((w.weekly.Some? ==> exists x :: x in s.weekly && x.id == w.weekly.value.id) ==> s'.weekly == s.weekly)
      && s'.freshness.Keys == s.freshness.Keys + w.freshness.Keys
      && (forall m | m in s'.freshness ::
        s'.freshness[m] == if m in w.freshness then w.freshness[m] else s.freshness[m])
      && s'.snapshots == s.snapshots && s'.runs == s.runs
  {
    MergedItems(s, w, k);
  }

  /** Removing a league takes exactly its records, snapshots, marks and runs; users and players stay. */
  lemma {:induction false} DropTakes(s: Shared, l: LeagueId, k: ItemKey, w: Weekly, run: SyncRun)
    ensures var s' := Dropped(s, l);
      && s'.leagues == s.leagues - {l} && s'.snapshots == s.snapshots - {l}
      && (k in s'.items <==> k in s.items && (s.items[k].kind in {Users, Players} || s.items[k].league != l))
      && (k in s'.items ==> s'.items[k] == s.items[k])
      && (w in s'.weekly <==> w in s.weekly && w.league != l)
      && (run in s'.runs <==> run in s.runs && run.league != Some(l))
      && (forall m :: m in s'.freshness <==> m in s.freshness && m.scope != l)
      && (forall m | m in s'.freshness :: s'.freshness[m] == s.freshness[m])
  {
    KeepHas(s.weekly, WeeklyOfOther(l), w);
    KeepHas(s.runs, RunOfOther(l), run);
  }

  /** The directory replaces all players and nobody else. */
  lemma {:induction false} DirectoryStores(s: Shared, players: seq<PlayerItem>, at: string, k: ItemKey)
    ensures var s' := PlayersReplaced(s, players, at);
      && (k.0 == Players ==> (k in s'.items <==> exists i :: 0 <= i < |players| && players[i].id == k.1))
      && (k.0 != Players ==> (k in s'.items <==> k in s.items) && (k in s.items ==> s'.items[k] == s.items[k]))
      && (forall i | 0 <= i < |players| && players[i].id == k.1 && k.0 == Players && LastOfItsKey(players, i) ::
        k in s'.items && s'.items[k] == players[i])
      && s' == s.(items := s'.items, freshness := s.freshness[FreshKey("players", "nfl", "") := at])
  {
    forall i | 0 <= i < |players| && players[i].id == k.1 && k.0 == Players && LastOfItsKey(players, i)
      ensures k in PlayersReplaced(s, players, at).items && PlayersReplaced(s, players, at).items[k] == players[i]
    {
      UpsertedLast(OtherItems(s.items), players, i);
    }
    if i :| 0 <= i < |players| && players[i].id == k.1 && k.0 == Players {
      var j := LastWith(players, i);
    } else {
      UpsertedElsewhere(OtherItems(s.items), players, k);
    }
  }

  /** Some record is the last of its key. */
  lemma {:induction false} LastWith(values: seq<Item>, i: nat) returns (j: nat)
    requires i < |values|
    ensures i <= j < |values| && KeyOf(values[j]) == KeyOf(values[i]) && LastOfItsKey(values, j)
    decreases |values| - i
  {
    if LastOfItsKey(values, i) {
      j := i;
    } else {
      var next :| i < next < |values| && values[next].kind == values[i].kind && values[next].id == values[i].id;
      j := LastWith(values, next);
    }
  }

  /** The newest run comes first, the others follow as they were, and the oldest beyond a hundred goes. */
  lemma {:induction false} LogHolds(runs: seq<SyncRun>, run: SyncRun)
    ensures var after := Logged(runs, run);
      && |after| == Min(|runs| + 1, 100) && after[0] == run
      && forall i | 0 < i < |after| :: after[i] == runs[i - 1]
  {
  }

  // ----- what readers see, resource by resource -----

  datatype Resource =
    | LeagueRecord(league: LeagueId)
    | Record(key: ItemKey)
    | WeeklySnapshot(id: string)
    | Freshness(mark: FreshKey)
    | LeagueSnapshot(owner: LeagueId)

  datatype Value =
    | ALeague(record: League)
    | AnItem(item: Item)
    | AWeek(week: Weekly)
    | AMark(at: string)
    | ASnapshot(body: string)

  /** Weekly snapshots are only ever written once. */
  predicate WrittenOnce(r: Resource) {
    r.WeeklySnapshot?
  }

  function Read(s: Shared, r: Resource): Option<Value> {
    match r
    case LeagueRecord(l) => if l in s.leagues then Some(ALeague(s.leagues[l])) else None
    case Record(k) => if k in s.items then Some(AnItem(s.items[k])) else None
    case WeeklySnapshot(id) => AsWeek(FindWeekly(s.weekly, id))
    case Freshness(k) => if k in s.freshness then Some(AMark(s.freshness[k])) else None
    case LeagueSnapshot(l) => if l in s.snapshots then Some(ASnapshot(s.snapshots[l])) else None
  }

  function AsWeek(w: Option<Weekly>): Option<Value> {
    if w.Some? then Some(AWeek(w.value)) else None
  }

  function LastItem(values: seq<Item>, k: ItemKey): Option<Item>
    decreases |values|
  {
    if values == [] then None
    else if KeyOf(values[|values| - 1]) == k then Some(values[|values| - 1])
    else LastItem(values[..|values| - 1], k)
  }

  function AsItem(i: Option<Item>): Option<Value> {
    if i.Some? then Some(AnItem(i.value)) else None
  }

  /** The value a change brings for a resource, if it brings one. */
  function Carried(c: Change, r: Resource): Option<Value> {
    match c
    case Merge(w) => CarriedBySync(w, r)
    case ReplacePlayers(players, at) => CarriedByDirectory(players, at, r)
    case SaveSnapshot(owner, body, _) => if r == LeagueSnapshot(owner) then Some(ASnapshot(body)) else None
    case _ => None
  }

  function CarriedBySync(w: Sync, r: Resource): Option<Value> {
    match r
    case LeagueRecord(l) => if w.leagueId == l && w.league.Some? then Some(ALeague(w.league.value)) else None
    case Record(k) => AsItem(LastItem(w.items, k))
    case WeeklySnapshot(id) => if w.weekly.Some? && w.weekly.value.id == id then Some(AWeek(w.weekly.value)) else None
    case Freshness(k) => if k in w.freshness then Some(AMark(w.freshness[k])) else None
    case LeagueSnapshot(_) => None
  }

  function CarriedByDirectory(players: seq<PlayerItem>, at: string, r: Resource): Option<Value> {
    match r
    case Record(k) => AsItem(LastItem(players, k))
    case Freshness(k) => if k == PLAYERS_MARK then Some(AMark(at)) else None
    case _ => None
  }

  /** Whether a resource with this value belongs to a league. */
  predicate IsOfLeague(r: Resource, v: Value, l: LeagueId) {
    match r
    case LeagueRecord(league) => league == l
    case Record(_) => v.AnItem? && BelongsTo(v.item, l)
    case WeeklySnapshot(_) => v.AWeek? && v.week.league == l
    case Freshness(k) => k.scope == l
    case LeagueSnapshot(owner) => owner == l
  }

  /** Whether a change takes away a resource with this value. */
  predicate TakesAway(c: Change, r: Resource, v: Value) {
    match c
    case Merge(w) => v.AnItem? && Replaces(w, v.item)
    case ReplacePlayers(_, _) => r.Record? && r.key.0 == Players
    case DropLeague(l) => IsOfLeague(r, v, l)
    case _ => false
  }

  lemma {:induction false} UpsertedAt(items: map<ItemKey, Item>, values: seq<Item>, k: ItemKey)
    ensures k in Upserted(items, values) <==> k in items || LastItem(values, k).Some?
    ensures k in Upserted(items, values) ==>
      Upserted(items, values)[k] == if LastItem(values, k).Some? then LastItem(values, k).value else items[k]
    decreases |values|
  {
    if values != [] {
      UpsertedAt(items, values[..|values| - 1], k);
    }
  }

  ghost predicate UniqueWeekly(weekly: seq<Weekly>)
    decreases |weekly|
  {
    weekly == [] || ((forall w | w in weekly[1..] :: w.id != weekly[0].id) && UniqueWeekly(weekly[1..]))
  }

  lemma {:induction false} KeepKeepsWeekly(weekly: seq<Weekly>, p: Weekly -> bool)
    requires UniqueWeekly(weekly)
    ensures UniqueWeekly(Keep(weekly, p))
    decreases |weekly|
  {
    if weekly != [] {
      var rest := Keep(weekly[1..], p);
      KeepKeepsWeekly(weekly[1..], p);
      KeepFirst(weekly, p);
      forall w | w in rest ensures w.id != weekly[0].id { KeepHas(weekly[1..], p, w); }
      assert ([weekly[0]] + rest)[1..] == rest;
    }
  }

  lemma {:induction false} FindKept(weekly: seq<Weekly>, p: Weekly -> bool, id: string)
    requires UniqueWeekly(weekly)
    ensures var found := FindWeekly(weekly, id);
      FindWeekly(Keep(weekly, p), id) == if found.Some? && p(found.value) then found else None
    decreases |weekly|
  {
    if weekly != [] {
      var rest := Keep(weekly[1..], p);
      FindKept(weekly[1..], p, id);
      KeepFirst(weekly, p);
      assert ([weekly[0]] + rest)[1..] == rest;
      forall w | w in rest ensures w.id != weekly[0].id { KeepHas(weekly[1..], p, w); }
    }
  }

  lemma {:induction false} FindNoted(weekly: seq<Weekly>, w: Weekly, id: string)
    ensures FindWeekly(weekly + [w], id) ==
      if FindWeekly(weekly, id).Some? then FindWeekly(weekly, id) else if w.id == id then Some(w) else None
    decreases |weekly|
  {
    if weekly == [] {
      assert weekly + [w] == [w];
    } else {
      assert (weekly + [w])[1..] == weekly[1..] + [w];
      FindNoted(weekly[1..], w, id);
    }
  }

  lemma {:induction false} NotedStaysUnique(weekly: seq<Weekly>, w: Weekly)
    requires UniqueWeekly(weekly) && FindWeekly(weekly, w.id).None?
    ensures UniqueWeekly(weekly + [w])
    decreases |weekly|
  {
    if weekly == [] {
      assert weekly + [w] == [w] && [w][1..] == [];
    } else {
      assert (weekly + [w])[1..] == weekly[1..] + [w];
      assert weekly == [weekly[0]] + weekly[1..];
      NotedStaysUnique(weekly[1..], w);
    }
  }

  lemma {:induction false} ChangingKeepsWeekly(s: Shared, c: Change)
    requires UniqueWeekly(s.weekly)
    ensures UniqueWeekly(Changed(s, c).weekly)
  {
    match c
    case Merge(w) =>
      if w.weekly.Some? && FindWeekly(s.weekly, w.weekly.value.id).None? {
        NotedStaysUnique(s.weekly, w.weekly.value);
      }
    case DropLeague(l) => KeepKeepsWeekly(s.weekly, WeeklyOfOther(l));
    case _ =>
  }

  /** Whether a change writes a resource that reads as this before. */
  predicate Writes(before: Option<Value>, c: Change, r: Resource) {
    Carried(c, r).Some? && !(WrittenOnce(r) && before.Some?)
  }

  /** What a resource reads as after a change, from what it read as before and nothing else. */
  function ReadAfter(before: Option<Value>, c: Change, r: Resource): Option<Value> {
    if Writes(before, c, r) then Carried(c, r)
    else if before.Some? && TakesAway(c, r, before.value) then None
    else before
  }

  lemma {:induction false} ReadMerged(s: Shared, w: Sync, r: Resource)
    ensures Read(Merged(s, w), r) == ReadAfter(Read(s, r), Merge(w), r)
  {
    match r
    case Record(k) => UpsertedAt(Spared(s.items, w), w.items, k);
    case WeeklySnapshot(id) =>
      if w.weekly.Some? {
        FindNoted(s.weekly, w.weekly.value, id);
      }
    case _ =>
  }

  lemma {:induction false} ReadSaved(s: Shared, owner: LeagueId, body: string, run: SyncRun, r: Resource)
    ensures Read(Changed(s, SaveSnapshot(owner, body, run)), r) ==
      ReadAfter(Read(s, r), SaveSnapshot(owner, body, run), r)
  {
    match r
    case LeagueSnapshot(l) => assert r == LeagueSnapshot(owner) <==> l == owner;
    case _ =>
  }

  /** What a change does to one resource depends on that resource alone. */
  lemma {:induction false} ReadChanged(s: Shared, c: Change, r: Resource)
    requires UniqueWeekly(s.weekly)
    ensures Read(Changed(s, c), r) == ReadAfter(Read(s, r), c, r)
  {
    match c
    case Merge(w) => ReadMerged(s, w, r);
    case ReplacePlayers(players, _) =>
      if r.Record? {
        UpsertedAt(OtherItems(s.items), players, r.key);
      }
    case DropLeague(l) =>
      if r.WeeklySnapshot? {
        FindKept(s.weekly, WeeklyOfOther(l), r.id);
      }
    case SaveSnapshot(owner, body, run) => ReadSaved(s, owner, body, run, r);
    case LogRun(_) =>
  }

  function ChangedAll(s: Shared, changes: seq<Change>): Shared
    decreases |changes|
  {
    if changes == [] then s else Changed(ChangedAll(s, changes[..|changes| - 1]), changes[|changes| - 1])
  }

  lemma {:induction false} AlwaysUnique(changes: seq<Change>)
    ensures UniqueWeekly(ChangedAll(NOTHING, changes).weekly)
    decreases |changes|
  {
    if changes != [] {
      AlwaysUnique(changes[..|changes| - 1]);
      ChangingKeepsWeekly(ChangedAll(NOTHING, changes[..|changes| - 1]), changes[|changes| - 1]);
    }
  }

  /** The i-th change, coming after the earlier ones, wrote a resource. */
  ghost predicate Wrote(changes: seq<Change>, i: nat, r: Resource)
    requires i < |changes|
  {
    Writes(Read(ChangedAll(NOTHING, changes[..i]), r), changes[i], r)
  }

  /** The j-th change left the resource with its value. */
  ghost predicate Left(changes: seq<Change>, j: nat, r: Resource, v: Value)
    requires j < |changes|
  {
    !Wrote(changes, j, r) && !TakesAway(changes[j], r, v)
  }

  /** The i-th change wrote this value to the resource, and no later one wrote to it or took it away. */
  ghost predicate LastWrote(changes: seq<Change>, i: nat, r: Resource, v: Value) {
    && i < |changes| && Wrote(changes, i, r) && Carried(changes[i], r) == Some(v)
    && forall j | i < j < |changes| :: Left(changes, j, r, v)
  }

  lemma {:induction false} SameBefore(changes: seq<Change>, c: Change, i: nat, r: Resource, v: Value)
    requires i < |changes|
    ensures (changes + [c])[i] == changes[i] && (Wrote(changes + [c], i, r) <==> Wrote(changes, i, r))
    ensures Left(changes + [c], i, r, v) <==> Left(changes, i, r, v)
  {
    assert (changes + [c])[..i] == changes[..i] && (changes + [c])[i] == changes[i];
  }

  lemma {:induction false} WroteLast(changes: seq<Change>, c: Change, r: Resource)
    ensures Wrote(changes + [c], |changes|, r) <==> Writes(Read(ChangedAll(NOTHING, changes), r), c, r)
  {
    assert (changes + [c])[..|changes|] == changes && (changes + [c])[|changes|] == c;
  }

  lemma {:induction false} LastWroteStays(changes: seq<Change>, all: seq<Change>, c: Change, i: nat, r: Resource,
          v: Value)
    requires all == changes + [c] && LastWrote(changes, i, r, v) && Left(all, |changes|, r, v)
    ensures LastWrote(all, i, r, v)
  {
    SameBefore(changes, c, i, r, v);
    forall j | i < j < |all| ensures Left(all, j, r, v) {
      if j < |changes| {
        SameBefore(changes, c, j, r, v);
      }
    }
  }

  lemma {:induction false} LastWroteWas(changes: seq<Change>, all: seq<Change>, c: Change, i: nat, r: Resource,
          v: Value)
    requires all == changes + [c] && LastWrote(all, i, r, v) && i < |changes|
    ensures LastWrote(changes, i, r, v) && Left(all, |changes|, r, v)
  {
    SameBefore(changes, c, i, r, v);
    forall j | i < j < |changes| ensures Left(changes, j, r, v) {
      SameBefore(changes, c, j, r, v);
      assert Left(all, j, r, v);
    }
  }

  lemma {:induction false} LastWroteGrows(changes: seq<Change>, all: seq<Change>, c: Change, i: nat, r: Resource,
          v: Value)
    requires i < |changes| && all == changes + [c]
    ensures LastWrote(all, i, r, v) <==> LastWrote(changes, i, r, v) && Left(all, |changes|, r, v)
  {
    if LastWrote(all, i, r, v) {
      LastWroteWas(changes, all, c, i, r, v);
    } else if LastWrote(changes, i, r, v) && Left(all, |changes|, r, v) {
      LastWroteStays(changes, all, c, i, r, v);
    }
  }

  /** A reader sees a value of a resource exactly when some change wrote it and no later one wrote to the
      resource or took it away. */
  lemma {:induction false} ReadersSeeLastWrite(changes: seq<Change>, r: Resource, v: Value)
    ensures Read(ChangedAll(NOTHING, changes), r) == Some(v) <==> exists i: nat :: LastWrote(changes, i, r, v)
    decreases |changes|
  {
    if changes != [] {
      var n := |changes| - 1;
      assert changes == changes[..n] + [changes[n]];
      ReadersSeeLastWrite(changes[..n], r, v);
      OneMoreWrite(changes[..n], changes[n], r, v);
    }
  }

  lemma {:induction false} OneMoreWrite(before: seq<Change>, c: Change, r: Resource, v: Value)
    requires Read(ChangedAll(NOTHING, before), r) == Some(v) <==> exists i: nat :: LastWrote(before, i, r, v)
    ensures Read(ChangedAll(NOTHING, before + [c]), r) == Some(v) <==> exists i: nat :: LastWrote(before + [c], i, r, v)
  {
    var all, n := before + [c], |before|;
    assert all[..n] == before && all[n] == c;
    AlwaysUnique(before);
    ReadChanged(ChangedAll(NOTHING, before), c, r);
    WroteLast(before, c, r);
    assert LastWrote(all, n, r, v) <==> Wrote(all, n, r) && Carried(c, r) == Some(v);
    forall i: nat | i < n ensures LastWrote(all, i, r, v) <==> LastWrote(before, i, r, v) && Left(all, n, r, v) {
      LastWroteGrows(before, all, c, i, r, v);
    }
    if i: nat :| LastWrote(before, i, r, v) {
      assert LastWrote(all, i, r, v) <==> Left(all, n, r, v);
    }
  }

  // ----- removing several leagues -----

  function ItemsOutside(items: map<ItemKey, Item>, leagues: set<LeagueId>): map<ItemKey, Item> {
    map k | k in items && (items[k].kind.Users? || items[k].kind.Players? || items[k].league !in leagues) :: items[k]
  }

  function WeeklyOfOthers(leagues: set<LeagueId>): Weekly -> bool {
    (w: Weekly) => w.league !in leagues
  }

  function RunOfOthers(leagues: set<LeagueId>): SyncRun -> bool {
    (r: SyncRun) => r.league.None? || r.league.value !in leagues
  }

  function DroppedAll(s: Shared, leagues: set<LeagueId>): Shared {
    Shared(s.leagues - leagues, ItemsOutside(s.items, leagues), Keep(s.weekly, WeeklyOfOthers(leagues)),
           map k | k in s.freshness && k.scope !in leagues :: s.freshness[k],
           s.snapshots - leagues, Keep(s.runs, RunOfOthers(leagues)))
  }

  lemma {:induction false} NoneDropped(s: Shared)
    ensures DroppedAll(s, {}) == s
  {
    KeepAll(s.weekly, WeeklyOfOthers({}));
    KeepAll(s.runs, RunOfOthers({}));
    assert s.leagues - {} == s.leagues && s.snapshots - {} == s.snapshots && ItemsOutside(s.items, {}) == s.items;
  }

  /** Removing leagues one by one, in any order, is removing them together. */
  lemma {:induction false} DroppedGrow(s: Shared, leagues: set<LeagueId>, league: LeagueId)
    ensures Dropped(DroppedAll(s, leagues), league) == DroppedAll(s, leagues + {league})
  {
    var more := leagues + {league};
    KeepBoth(s.weekly, WeeklyOfOthers(leagues), WeeklyOfOther(league), WeeklyOfOthers(more));
    KeepBoth(s.runs, RunOfOthers(leagues), RunOfOther(league), RunOfOthers(more));
    assert s.leagues - leagues - {league} == s.leagues - more && s.snapshots - leagues - {league} == s.snapshots - more;
    assert ItemsBut(ItemsOutside(s.items, leagues), league) == ItemsOutside(s.items, more);
  }

  function WeeklyOf(league: LeagueId): Weekly -> bool {
    (w: Weekly) => w.league == league
  }

  function RunOf(league: LeagueId): SyncRun -> bool {
    (r: SyncRun) => r.league == Some(league)
  }

  /** Everything stored of a league is the same in both: what readers see by key, and the league's weekly
      snapshots and runs in order. */
  ghost predicate Untouched(s: Shared, s': Shared, league: LeagueId) {
    && (forall r, v | IsOfLeague(r, v, league) && !WrittenOnce(r) ::
         Read(s, r) == Some(v) <==> Read(s', r) == Some(v))
    && Keep(s.weekly, WeeklyOf(league)) == Keep(s'.weekly, WeeklyOf(league))
    && Keep(s.runs, RunOf(league)) == Keep(s'.runs, RunOf(league))
  }

  lemma {:induction false} ReadOfOther(s: Shared, leagues: set<LeagueId>, league: LeagueId, r: Resource, v: Value)
    requires league !in leagues && IsOfLeague(r, v, league) && !WrittenOnce(r)
    ensures Read(s, r) == Some(v) <==> Read(DroppedAll(s, leagues), r) == Some(v)
  {
  }

  /** Removing leagues touches no other league. */
  lemma {:induction false} OthersUntouched(s: Shared, leagues: set<LeagueId>, league: LeagueId)
    requires league !in leagues
    ensures Untouched(s, DroppedAll(s, leagues), league)
  {
    forall r, v | IsOfLeague(r, v, league) && !WrittenOnce(r)
      ensures Read(s, r) == Some(v) <==> Read(DroppedAll(s, leagues), r) == Some(v)
    {
      ReadOfOther(s, leagues, league, r, v);
    }
    assert Keep(s.weekly, WeeklyOf(league)) == Keep(DroppedAll(s, leagues).weekly, WeeklyOf(league)) by {
      KeepBoth(s.weekly, WeeklyOfOthers(leagues), WeeklyOf(league), WeeklyOf(league));
    }
    assert Keep(s.runs, RunOf(league)) == Keep(DroppedAll(s, leagues).runs, RunOf(league)) by {
      KeepBoth(s.runs, RunOfOthers(leagues), RunOf(league), RunOf(league));
    }
  }
}
