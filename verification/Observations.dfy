/** Append-only observations and pruning them by rank: forecast ingestions and roster history. Times are
    instants; the order of their stored text is the order of the instants. */
module Observations {
  import opened Basics
  import opened LeagueRules

  type ObservationId = string

  /** What an observation is one of: a source's forecast of a week, or a roster in a week. */
  datatype Group =
    | ForecastOf(source: string, season: string, week: int)
    | RosterOf(league: string, rosterId: int, rosterSeason: string, rosterWeek: int)

  /** A roster observation has one time, so both of its times are equal. */
  datatype Observation = Observation(id: ObservationId, group: Group, updatedAt: int, ingestedAt: int, body: string)

  type Log = seq<Observation>

  predicate Has(log: Log, id: ObservationId) {
    exists i | 0 <= i < |log| :: log[i].id == id
  }

  predicate UniqueIds(log: Log) {
    forall i, j | 0 <= i < j < |log| :: log[i].id != log[j].id
  }

  function Find(log: Log, id: ObservationId): (r: Option<Observation>)
    ensures r.Some? <==> Has(log, id)
    ensures r.Some? ==> r.value in log && r.value.id == id
    decreases |log|
  {
    if log == [] then None
    else if log[0].id == id then Some(log[0])
    else
      var rest := Find(log[1..], id);
      assert Has(log, id) <==> Has(log[1..], id) by {
        if Has(log, id) {
          var i :| 0 <= i < |log| && log[i].id == id;
          assert log[1..][i - 1].id == id;
        }
      }
      rest
  }

  /** An observation already recorded is not written twice. */
  function Appended(log: Log, o: Observation): Log {
    if Has(log, o.id) then log else log + [o]
  }

  function AppendedAll(log: Log, os: seq<Observation>): Log
    decreases |os|
  {
    if os == [] then log else AppendedAll(Appended(log, os[0]), os[1..])
  }

  lemma {:induction false} AppendedAllFrom(log: Log, os: seq<Observation>, i: nat)
    requires i < |os|
    ensures AppendedAll(log, os[i..]) == AppendedAll(Appended(log, os[i]), os[i + 1..])
  {
    assert os[i..][1..] == os[i + 1..];
  }

  // ----- newest first -----

  predicate Newer(a: Observation, b: Observation) {
    a.updatedAt > b.updatedAt || (a.updatedAt == b.updatedAt && a.ingestedAt > b.ingestedAt)
  }

  predicate NewestFirst(log: Log) {
    forall i, j | 0 <= i < j < |log| :: !Newer(log[j], log[i])
  }

  function Insert(o: Observation, log: Log): Log
    decreases |log|
  {
    if log == [] || !Newer(log[0], o) then [o] + log else [log[0]] + Insert(o, log[1..])
  }

  /** A stable sort, newest first. */
  function Sort(log: Log): Log
    decreases |log|
  {
    if log == [] then [] else Insert(log[0], Sort(log[1..]))
  }

  lemma {:induction false} InsertPermutes(o: Observation, log: Log)
    ensures multiset(Insert(o, log)) == multiset(log) + multiset{o}
    decreases |log|
  {
    if log != [] && Newer(log[0], o) {
      InsertPermutes(o, log[1..]);
      assert log == [log[0]] + log[1..];
    }
  }

  lemma {:induction false} NewestFirstCons(first: Observation, rest: Log)
    requires NewestFirst(rest) && forall x | x in rest :: !Newer(x, first)
    ensures NewestFirst([first] + rest)
  {
  }

  lemma {:induction false} NewestFirstTail(log: Log)
    requires log != [] && NewestFirst(log)
    ensures NewestFirst(log[1..]) && forall x | x in log[1..] :: !Newer(x, log[0])
  {
  }

  lemma {:induction false} InsertHas(o: Observation, log: Log, x: Observation)
    ensures x in Insert(o, log) <==> x == o || x in log
  {
    InsertPermutes(o, log);
    assert x in multiset(Insert(o, log)) <==> x in multiset(log) + multiset{o};
  }

  lemma {:induction false} InsertKeepsOrder(o: Observation, log: Log)
    requires NewestFirst(log)
    ensures NewestFirst(Insert(o, log))
    decreases |log|
  {
    if log != [] {
      NewestFirstTail(log);
      if Newer(log[0], o) {
        InsertKeepsOrder(o, log[1..]);
        forall x | x in Insert(o, log[1..]) ensures !Newer(x, log[0]) { InsertHas(o, log[1..], x); }
        NewestFirstCons(log[0], Insert(o, log[1..]));
      } else {
        forall x | x in log ensures !Newer(x, o) { assert x == log[0] || x in log[1..]; }
        NewestFirstCons(o, log);
      }
    }
  }

  lemma {:induction false} SortIsNewestFirst(log: Log)
    ensures NewestFirst(Sort(log)) && multiset(Sort(log)) == multiset(log)
    decreases |log|
  {
    if log != [] {
      SortIsNewestFirst(log[1..]);
      InsertKeepsOrder(log[0], Sort(log[1..]));
      InsertPermutes(log[0], Sort(log[1..]));
      assert log == [log[0]] + log[1..];
    }
  }

  // ----- queries -----

  /** A query for a week's forecasts, from one source or any. */
  datatype Query = Query(season: string, week: int, source: Option<string>)

  predicate Matches(q: Query, g: Group) {
    g.ForecastOf? && g.season == q.season && g.week == q.week && (q.source.Some? ==> g.source == q.source.value)
  }

  function InQuery(q: Query): Observation -> bool {
    (o: Observation) => Matches(q, o.group)
  }

  function NotIn(ids: set<ObservationId>): Observation -> bool {
    (o: Observation) => o.id !in ids
  }

  function Latest(log: Log, q: Query): Option<Observation> {
    var found := Sort(Keep(log, InQuery(q)));
    if found == [] then None else Some(found[0])
  }

  // ----- pruning -----

  function CountOf(log: Log, g: Group): nat
    decreases |log|
  {
    if log == [] then 0 else (if log[0].group == g then 1 else 0) + CountOf(log[1..], g)
  }

  /** Ranked below the newest ones of its group, old, and cited by nothing. sorted[i] has the rank
      CountOf(sorted[..i + 1], sorted[i].group). */
  predicate Drops(sorted: Log, i: nat, before: int, keep: int, cited: set<ObservationId>)
    requires i < |sorted|
  {
    CountOf(sorted[..i + 1], sorted[i].group) > keep && sorted[i].ingestedAt < before && sorted[i].id !in cited
  }

  function DroppedIds(sorted: Log, n: nat, before: int, keep: int, cited: set<ObservationId>): set<ObservationId>
    requires n <= |sorted|
  {
    set i: nat | i < n && Drops(sorted, i, before, keep, cited) :: sorted[i].id
  }

  function PruneIds(log: Log, before: int, keep: int, cited: set<ObservationId>): set<ObservationId> {
    DroppedIds(Sort(log), |Sort(log)|, before, keep, cited)
  }

  function Pruned(log: Log, before: int, keep: int, cited: set<ObservationId>): Log {
    Keep(log, NotIn(PruneIds(log, before, keep, cited)))
  }

  // ----- what filtering does -----

  lemma {:induction false} UniqueCons(o: Observation, log: Log)
    ensures UniqueIds([o] + log) <==> UniqueIds(log) && forall x | x in log :: x.id != o.id
  {
    var all := [o] + log;
    if UniqueIds(all) {
      forall i, j | 0 <= i < j < |log| ensures log[i].id != log[j].id {
        assert all[i + 1].id != all[j + 1].id;
      }
      forall x | x in log ensures x.id != o.id {
        var i :| 0 <= i < |log| && log[i] == x;
        assert all[0].id != all[i + 1].id;
      }
    }
  }

  lemma {:induction false} KeepKeepsUnique(log: Log, p: Observation -> bool)
    requires UniqueIds(log)
    ensures UniqueIds(Keep(log, p))
    decreases |log|
  {
    if log != [] {
      assert log == [log[0]] + log[1..];
      UniqueCons(log[0], log[1..]);
      KeepKeepsUnique(log[1..], p);
      forall x | x in Keep(log[1..], p) ensures x.id != log[0].id {
        KeepHas(log[1..], p, x);
      }
      UniqueCons(log[0], Keep(log[1..], p));
    }
  }

  lemma {:induction false} InsertInFront(o: Observation, log: Log)
    requires forall x | x in log :: !Newer(x, o)
    ensures Insert(o, log) == [o] + log
  {
  }

  lemma {:induction false} KeepInsertDeeper(o: Observation, log: Log, p: Observation -> bool)
    requires log != [] && Newer(log[0], o)
    requires Keep(Insert(o, log[1..]), p) == if p(o) then Insert(o, Keep(log[1..], p)) else Keep(log[1..], p)
    ensures Keep(Insert(o, log), p) == if p(o) then Insert(o, Keep(log, p)) else Keep(log, p)
  {
    KeepCons(log[0], Insert(o, log[1..]), p);
    KeepFirst(log, p);
    InsertBehind(log[0], o, Keep(log[1..], p));
  }

  lemma {:induction false} KeepInsert(o: Observation, log: Log, p: Observation -> bool)
    requires NewestFirst(log)
    ensures Keep(Insert(o, log), p) == if p(o) then Insert(o, Keep(log, p)) else Keep(log, p)
    decreases |log|
  {
    if log != [] && Newer(log[0], o) {
      KeepInsert(o, log[1..], p);
      KeepInsertDeeper(o, log, p);
    } else {
      KeepCons(o, log, p);
      forall x | x in Keep(log, p) ensures !Newer(x, o) { KeepHas(log, p, x); }
      InsertInFront(o, log);
      InsertInFront(o, Keep(log, p));
    }
  }

  lemma {:induction false} InsertBehind(first: Observation, o: Observation, log: Log)
    requires Newer(first, o)
    ensures Insert(o, [first] + log) == [first] + Insert(o, log)
  {
    assert ([first] + log)[1..] == log;
  }

  /** Filtering and stable sorting commute. */
  lemma {:induction false} KeepSort(log: Log, p: Observation -> bool)
    ensures Sort(Keep(log, p)) == Keep(Sort(log), p)
    decreases |log|
  {
    if log != [] {
      KeepSort(log[1..], p);
      SortIsNewestFirst(log[1..]);
      KeepInsert(log[0], Sort(log[1..]), p);
      KeepFirst(log, p);
      SortCons(log[0], Keep(log[1..], p));
    }
  }

  lemma {:induction false} SortCons(o: Observation, log: Log)
    ensures Sort([o] + log) == Insert(o, Sort(log))
  {
    assert ([o] + log)[1..] == log;
  }

  lemma {:induction false} SortHas(log: Log, o: Observation)
    ensures o in Sort(log) <==> o in log
  {
    SortIsNewestFirst(log);
    assert o in multiset(Sort(log)) <==> o in multiset(log);
  }

  lemma {:induction false} InsertKeepsUnique(o: Observation, log: Log)
    requires UniqueIds(log) && forall x | x in log :: x.id != o.id
    ensures UniqueIds(Insert(o, log)) && forall x | x in Insert(o, log) :: x == o || x in log
    decreases |log|
  {
    if log != [] && Newer(log[0], o) {
      assert log == [log[0]] + log[1..];
      UniqueCons(log[0], log[1..]);
      InsertKeepsUnique(o, log[1..]);
      UniqueCons(log[0], Insert(o, log[1..]));
    } else {
      UniqueCons(o, log);
    }
  }

  lemma {:induction false} SortKeepsUnique(log: Log)
    requires UniqueIds(log)
    ensures UniqueIds(Sort(log))
    decreases |log|
  {
    if log != [] {
      assert log == [log[0]] + log[1..];
      UniqueCons(log[0], log[1..]);
      SortKeepsUnique(log[1..]);
      forall x | x in Sort(log[1..]) ensures x.id != log[0].id { SortHas(log[1..], x); }
      InsertKeepsUnique(log[0], Sort(log[1..]));
    }
  }

  /** A forecast of the asked week, from the asked source if there is one. */
  ghost predicate Asked(q: Query, o: Observation) {
    exists source :: o.group == ForecastOf(source, q.season, q.week) && (q.source == None || q.source == Some(source))
  }

  /** The answer to a query is a matching observation that no other matching one is newer than. */
  lemma {:induction false} LatestIsNewest(log: Log, q: Query)
    ensures Latest(log, q).None? ==> forall o | o in log :: !Asked(q, o)
    ensures Latest(log, q).Some? ==> Latest(log, q).value in log && Asked(q, Latest(log, q).value)
    ensures Latest(log, q).Some? ==> forall o | o in log && Asked(q, o) ::
      o.updatedAt < Latest(log, q).value.updatedAt || (o.updatedAt == Latest(log, q).value.updatedAt
        && o.ingestedAt <= Latest(log, q).value.ingestedAt)
  {
    var found := Sort(Keep(log, InQuery(q)));
    SortIsNewestFirst(Keep(log, InQuery(q)));
    forall o: Observation ensures o in found <==> o in log && Asked(q, o) {
      SortHas(Keep(log, InQuery(q)), o);
      KeepHas(log, InQuery(q), o);
    }
  }

  // ----- what pruning keeps -----

  lemma {:induction false} CountOfAppend(log: Log, o: Observation, g: Group)
    ensures CountOf(log + [o], g) == CountOf(log, g) + if o.group == g then 1 else 0
    decreases |log|
  {
    if log == [] {
      assert log + [o] == [o];
    } else {
      CountOfAppend(log[1..], o, g);
      assert (log + [o])[1..] == log[1..] + [o];
    }
  }

  lemma {:induction false} CountOfNone(log: Log, g: Group)
    requires forall i | 0 <= i < |log| :: log[i].group != g
    ensures CountOf(log, g) == 0
    decreases |log|
  {
    if log != [] { CountOfNone(log[1..], g); }
  }

  lemma {:induction false} CountOfKeep(log: Log, p: Observation -> bool, g: Group)
    ensures CountOf(Keep(log, p), g) <= CountOf(log, g)
    decreases |log|
  {
    if log != [] {
      CountOfKeep(log[1..], p, g);
      assert Keep(log, p)[if p(log[0]) then 1 else 0..] == Keep(log[1..], p);
    }
  }

  /** The first observation a filter keeps, and where it was. */
  lemma {:induction false} FirstKept(log: Log, p: Observation -> bool) returns (i: nat)
    requires Keep(log, p) != []
    ensures i < |log| && log[i] == Keep(log, p)[0] && p(log[i]) && forall j | 0 <= j < i :: !p(log[j])
    decreases |log|
  {
    if p(log[0]) {
      i := 0;
    } else {
      var rest := FirstKept(log[1..], p);
      i := rest + 1;
    }
  }

  /** Where the i-th kept observation was. */
  lemma {:induction false} KeptFrom(log: Log, p: Observation -> bool, i: nat) returns (j: nat)
    requires i < |Keep(log, p)|
    ensures j < |log| && log[j] == Keep(log, p)[i] && Keep(log[..j + 1], p) == Keep(log, p)[..i + 1]
    decreases |log|
  {
    var head := if p(log[0]) then [log[0]] else [];
    if p(log[0]) && i == 0 {
      j := 0;
      assert log[..1] == [log[0]];
      assert Keep(log[..1], p) == [log[0]];
    } else {
      var k := KeptFrom(log[1..], p, i - |head|);
      j := k + 1;
      assert log[..j + 1][1..] == log[1..][..k + 1];
      assert log[..j + 1][0] == log[0];
      assert Keep(log[..j + 1], p) == head + Keep(log[1..][..k + 1], p);
    }
  }

  // ----- what pruning drops -----

  /** The i-th observation of a log ranks above the k-th: same group, and updated later, or at the same time
      and ingested later, or both at the same time and recorded first. */
  predicate Above(log: Log, i: nat, k: nat)
    requires i < |log| && k < |log|
  {
    && log[i].group == log[k].group
    && (log[i].updatedAt > log[k].updatedAt
      || (log[i].updatedAt == log[k].updatedAt && log[i].ingestedAt > log[k].ingestedAt)
      || (log[i].updatedAt == log[k].updatedAt && log[i].ingestedAt == log[k].ingestedAt && i < k))
  }

  ghost function AllAbove(log: Log, k: nat, from: nat): set<nat>
    requires k < |log|
  {
    set i: nat | from <= i < |log| && Above(log, i, k)
  }

  lemma {:induction false} AllAboveFirst(log: Log, k: nat, from: nat)
    requires k < |log| && from < |log|
    ensures |AllAbove(log, k, from)| == (if Above(log, from, k) then 1 else 0) + |AllAbove(log, k, from + 1)|
  {
    if Above(log, from, k) {
      assert AllAbove(log, k, from) == AllAbove(log, k, from + 1) + {from};
    } else {
      assert AllAbove(log, k, from) == AllAbove(log, k, from + 1);
    }
  }

  /** How many of a group come before the observation with an id, and how many are newer than one. */
  function Preceding(log: Log, id: ObservationId, g: Group): nat
    decreases |log|
  {
    if log == [] || log[0].id == id then 0
    else (if log[0].group == g then 1 else 0) + Preceding(log[1..], id, g)
  }

  function NewerIn(log: Log, o: Observation, g: Group): nat
    decreases |log|
  {
    if log == [] then 0
    else (if log[0].group == g && Newer(log[0], o) then 1 else 0) + NewerIn(log[1..], o, g)
  }

  lemma {:induction false} NoneNewerIn(log: Log, o: Observation, g: Group)
    requires forall x | x in log :: !Newer(x, o)
    ensures NewerIn(log, o, g) == 0
    decreases |log|
  {
    if log != [] {
      assert forall x | x in log[1..] :: x in log;
      NoneNewerIn(log[1..], o, g);
    }
  }

  lemma {:induction false} NewerInInsert(o: Observation, log: Log, x: Observation, g: Group)
    ensures NewerIn(Insert(x, log), o, g) == NewerIn([x] + log, o, g)
    decreases |log|
  {
    assert ([x] + log)[1..] == log;
    if log != [] && Newer(log[0], x) {
      NewerInInsert(o, log[1..], x, g);
      assert ([log[0]] + Insert(x, log[1..]))[1..] == Insert(x, log[1..]);
      assert ([x] + log[1..])[1..] == log[1..];
    }
  }

  lemma {:induction false} NewerInSort(o: Observation, log: Log, g: Group)
    ensures NewerIn(Sort(log), o, g) == NewerIn(log, o, g)
    decreases |log|
  {
    if log != [] {
      NewerInSort(o, log[1..], g);
      NewerInInsert(o, Sort(log[1..]), log[0], g);
      assert ([log[0]] + Sort(log[1..]))[1..] == Sort(log[1..]);
    }
  }

  /** A new observation is sorted in behind those newer than it. */
  lemma {:induction false} InsertedBehind(x: Observation, log: Log, g: Group)
    requires NewestFirst(log) && forall y | y in log :: y.id != x.id
    ensures Preceding(Insert(x, log), x.id, g) == NewerIn(log, x, g)
    decreases |log|
  {
    if log != [] {
      NewestFirstTail(log);
      if Newer(log[0], x) {
        assert forall y | y in log[1..] :: y in log;
        InsertedBehind(x, log[1..], g);
        assert ([log[0]] + Insert(x, log[1..]))[1..] == Insert(x, log[1..]);
        assert log[0].id != x.id;
      } else {
        forall y | y in log ensures !Newer(y, x) { assert y == log[0] || y in log[1..]; }
        NoneNewerIn(log, x, g);
      }
    }
  }

  /** And moves back those no newer than it. */
  lemma {:induction false} InsertedAhead(x: Observation, log: Log, o: Observation, g: Group)
    requires NewestFirst(log) && UniqueIds(log) && o in log && x.id != o.id
    ensures Preceding(Insert(x, log), o.id, g) ==
      Preceding(log, o.id, g) + (if x.group == g && !Newer(o, x) then 1 else 0)
    decreases |log|
  {
    NewestFirstTail(log);
    if Newer(log[0], x) {
      PrecedingCons(log[0], Insert(x, log[1..]), o.id, g);
      if log[0].id != o.id {
        UniqueTail(log);
        assert o in log[1..];
        InsertedAhead(x, log[1..], o, g);
      }
    } else {
      PrecedingCons(x, log, o.id, g);
      assert o == log[0] || o in log[1..];
    }
  }

  lemma {:induction false} PrecedingCons(first: Observation, log: Log, id: ObservationId, g: Group)
    ensures Preceding([first] + log, id, g) ==
      if first.id == id then 0 else (if first.group == g then 1 else 0) + Preceding(log, id, g)
  {
    assert ([first] + log)[1..] == log;
  }

  lemma {:induction false} UniqueTail(log: Log)
    requires log != [] && UniqueIds(log)
    ensures UniqueIds(log[1..])
  {
  }

  lemma {:induction false} PrecedingPlace(sorted: Log, i: nat, g: Group)
    requires UniqueIds(sorted) && i < |sorted| && sorted[i].group == g
    ensures CountOf(sorted[..i + 1], g) == Preceding(sorted, sorted[i].id, g) + 1
    decreases |sorted|
  {
    assert sorted[..i + 1][1..] == sorted[1..][..i];
    if i > 0 {
      assert sorted[0].id != sorted[i].id;
      PrecedingPlace(sorted[1..], i - 1, g);
      assert sorted[1..][..i - 1 + 1] == sorted[1..][..i];
    }
  }

  /** Behind the k-th observation of the log rank those newer than it; what comes before it also ranks above
      at equal times. */
  lemma {:induction false} RankedBehind(log: Log, k: nat, from: nat)
    requires k < from <= |log|
    ensures NewerIn(log[from..], log[k], log[k].group) == |AllAbove(log, k, from)|
    decreases |log| - from
  {
    if from < |log| {
      RankedBehind(log, k, from + 1);
      AllAboveFirst(log, k, from);
      assert log[from..][1..] == log[from + 1..];
    } else {
      assert AllAbove(log, k, from) == {};
    }
  }

  lemma {:induction false} RankedFrom(log: Log, k: nat, from: nat)
    requires UniqueIds(log) && from <= k < |log|
    ensures Preceding(Sort(log[from..]), log[k].id, log[k].group) == |AllAbove(log, k, from)|
    decreases |log| - from
  {
    var rest := log[from + 1..];
    assert log[from..][1..] == rest && log[from..][0] == log[from];
    AllAboveFirst(log, k, from);
    SortIsNewestFirst(rest);
    SortKeepsUnique(rest);
    if from == k {
      forall y | y in Sort(rest) ensures y.id != log[k].id { SortHas(rest, y); }
      InsertedBehind(log[k], Sort(rest), log[k].group);
      NewerInSort(log[k], rest, log[k].group);
      RankedBehind(log, k, k + 1);
    } else {
      RankedFrom(log, k, from + 1);
      assert rest[k - from - 1] == log[k];
      SortHas(rest, log[k]);
      InsertedAhead(log[from], Sort(rest), log[k], log[k].group);
    }
  }

  lemma {:induction false} DroppedAt(sorted: Log, at: nat, before: int, keep: int, cited: set<ObservationId>)
    requires UniqueIds(sorted) && at < |sorted|
    ensures sorted[at].id in DroppedIds(sorted, |sorted|, before, keep, cited) <==>
      Drops(sorted, at, before, keep, cited)
  {
  }

  /** An observation is pruned exactly if it was ingested before the cutoff, nothing cites it, and at least
      as many observations of its group rank above it as are to be kept. */
  lemma {:induction false} PrunedExactly(log: Log, before: int, keep: int, cited: set<ObservationId>, k: nat)
    requires UniqueIds(log) && k < |log|
    ensures log[k] !in Pruned(log, before, keep, cited) <==>
      log[k].ingestedAt < before && log[k].id !in cited && |AllAbove(log, k, 0)| >= keep
    ensures forall o | o in Pruned(log, before, keep, cited) :: o in log
  {
    var sorted := Sort(log);
    SortKeepsUnique(log);
    SortHas(log, log[k]);
    var at: nat :| at < |sorted| && sorted[at] == log[k];
    PrecedingPlace(sorted, at, log[k].group);
    assert log[0..] == log;
    RankedFrom(log, k, 0);
    DroppedAt(sorted, at, before, keep, cited);
    forall o ensures o in Pruned(log, before, keep, cited) ==> o in log { PrunedHas(log, before, keep, cited, o); }
    PrunedHas(log, before, keep, cited, log[k]);
  }

  lemma {:induction false} PrunedHas(log: Log, before: int, keep: int, cited: set<ObservationId>, o: Observation)
    ensures o in Pruned(log, before, keep, cited) <==> o in log && o.id !in PruneIds(log, before, keep, cited)
  {
    KeepHas(log, NotIn(PruneIds(log, before, keep, cited)), o);
  }

  /** Nothing cited is ever pruned, and nothing recent. */
  lemma {:induction false} CitedStay(log: Log, before: int, keep: int, cited: set<ObservationId>, o: Observation)
    requires UniqueIds(log) && o in log && (o.id in cited || o.ingestedAt >= before)
    ensures o in Pruned(log, before, keep, cited)
  {
    var sorted := Sort(log);
    SortKeepsUnique(log);
    SortHas(log, o);
    var at :| 0 <= at < |sorted| && sorted[at] == o;
    assert o.id !in PruneIds(log, before, keep, cited);
    KeepHas(log, NotIn(PruneIds(log, before, keep, cited)), o);
  }

  /** Pruning never changes the answer to a latest-forecast query, as long as it keeps one per week. */
  lemma {:induction false} LatestSurvivesPruning(log: Log, before: int, keep: int, cited: set<ObservationId>, q: Query)
    requires UniqueIds(log) && keep >= 1
    ensures Latest(Pruned(log, before, keep, cited), q) == Latest(log, q)
  {
    var sorted := Sort(log);
    var gone := PruneIds(log, before, keep, cited);
    KeepSort(log, InQuery(q));
    KeepSort(Pruned(log, before, keep, cited), InQuery(q));
    KeepSort(log, NotIn(gone));
    KeepTwice(sorted, NotIn(gone), InQuery(q));
    if Keep(sorted, InQuery(q)) != [] {
      var i := FirstKept(sorted, InQuery(q));
      SortKeepsUnique(log);
      FirstRanksFirst(sorted, i, q);
      assert sorted[i].id !in gone;
      assert Keep(sorted, InQuery(q)) == [sorted[i]] + Keep(sorted, InQuery(q))[1..];
    }
  }

  lemma {:induction false} FirstRanksFirst(sorted: Log, i: nat, q: Query)
    requires i < |sorted| && Matches(q, sorted[i].group) && forall j | 0 <= j < i :: !Matches(q, sorted[j].group)
    ensures CountOf(sorted[..i + 1], sorted[i].group) == 1
  {
    assert sorted[..i + 1] == sorted[..i] + [sorted[i]];
    CountOfAppend(sorted[..i], sorted[i], sorted[i].group);
    CountOfNone(sorted[..i], sorted[i].group);
  }

  /** Repeating a prune removes nothing more. */
  lemma {:induction false} PruningTwice(log: Log, before: int, keep: int, cited: set<ObservationId>)
    ensures var once := Pruned(log, before, keep, cited);
      PruneIds(once, before, keep, cited) == {} && Pruned(once, before, keep, cited) == once
  {
    var sorted := Sort(log);
    var gone := PruneIds(log, before, keep, cited);
    var once := Pruned(log, before, keep, cited);
    KeepSort(log, NotIn(gone));
    var left := Keep(sorted, NotIn(gone));
    forall i: nat | i < |left|
      ensures !Drops(left, i, before, keep, cited)
    {
      var j := KeptFrom(sorted, NotIn(gone), i);
      KeepHas(sorted, NotIn(gone), left[i]);
      CountOfKeep(sorted[..j + 1], NotIn(gone), left[i].group);
      assert !Drops(sorted, j, before, keep, cited);
    }
    assert PruneIds(once, before, keep, cited) == {};
    KeepAll(once, NotIn({}));
  }

  /** An id always finds the record first stored under it. */
  lemma {:induction false} AppendedFinds(log: Log, o: Observation, id: ObservationId)
    requires Has(log, id)
    ensures Find(Appended(log, o), id) == Find(log, id)
    decreases |log|
  {
    if !Has(log, o.id) && log[0].id != id {
      assert Has(log[1..], id) && !Has(log[1..], o.id) by {
        var i :| 0 <= i < |log| && log[i].id == id;
        assert log[1..][i - 1].id == id;
        forall j | 0 <= j < |log[1..]| ensures log[1..][j].id != o.id { assert log[j + 1].id != o.id; }
      }
      AppendedFinds(log[1..], o, id);
      assert (log + [o])[1..] == log[1..] + [o];
    }
  }

  lemma {:induction false} KeepFinds(log: Log, p: Observation -> bool, id: ObservationId)
    requires Find(log, id).Some? && p(Find(log, id).value)
    ensures Find(Keep(log, p), id) == Find(log, id)
    decreases |log|
  {
    KeepFirst(log, p);
    if log[0].id != id {
      KeepFinds(log[1..], p, id);
      assert ([log[0]] + Keep(log[1..], p))[1..] == Keep(log[1..], p);
    }
  }
}
