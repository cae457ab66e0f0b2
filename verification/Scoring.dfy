/** A league's scoring: rates per statistic applied to a line of raw amounts, in exact arithmetic. */
module Scoring {
  import opened LeagueRules

  /** A stat line lists each statistic once, in the order its keys were set. */
  datatype Entry<S> = Entry(stat: S, amount: real)
  type Line<S> = seq<Entry<S>>
  type Rates<S> = map<S, real>

  const TOLERANCE := 0.000001

  predicate Close(a: real, b: real) {
    -TOLERANCE <= a - b <= TOLERANCE
  }

  predicate Knows<S>(rates: Rates<S>, stat: S) {
    stat in rates
  }

  function Rate<S>(rates: Rates<S>, stat: S): real {
    if stat in rates then rates[stat] else 0.0
  }

  predicate Has<S(==)>(line: Line<S>, stat: S) {
    exists i | 0 <= i < |line| :: line[i].stat == stat
  }

  ghost predicate Unique<S>(line: Line<S>) {
    forall i, j | 0 <= i < j < |line| :: line[i].stat != line[j].stat
  }

  /** The amount of a statistic, zero when the line does not have it. */
  function Amount<S(==)>(line: Line<S>, stat: S): real
    decreases |line|
  {
    if line == [] then 0.0 else if line[0].stat == stat then line[0].amount else Amount(line[1..], stat)
  }

  /** What one statistic is worth, were it selected. */
  function Worth<S(==)>(rates: Rates<S>, stat: S, amount: real, selected: bool): real {
    if selected then amount * Rate(rates, stat) else 0.0
  }

  /** The points of the contributions whose statistic is selected. */
  function PointsOf<S(==)>(line: Line<S>, rates: Rates<S>, selected: S -> bool): real
    decreases |line|
  {
    if line == [] then 0.0
    else Worth(rates, line[0].stat, line[0].amount, selected(line[0].stat)) + PointsOf(line[1..], rates, selected)
  }

  /** The unrounded total. */
  function Total<S(==)>(line: Line<S>, rates: Rates<S>): real
    decreases |line|
  {
    if line == [] then 0.0 else Worth(rates, line[0].stat, line[0].amount, true) + Total(line[1..], rates)
  }

  function Removed<S(==)>(line: Line<S>, stat: S): Line<S>
    decreases |line|
  {
    if line == [] then [] else (if line[0].stat == stat then [] else [line[0]]) + Removed(line[1..], stat)
  }

  lemma {:induction false} RemovedHas<S>(line: Line<S>, stat: S, e: Entry<S>)
    ensures e in Removed(line, stat) <==> e in line && e.stat != stat
    decreases |line|
  {
    if line != [] {
      RemovedHas(line[1..], stat, e);
      assert line == [line[0]] + line[1..];
    }
  }

  lemma {:induction false} UniqueCons<S>(e: Entry<S>, line: Line<S>)
    ensures Unique([e] + line) <==> Unique(line) && forall x | x in line :: x.stat != e.stat
  {
    var all := [e] + line;
    if Unique(all) {
      forall i, j | 0 <= i < j < |line|
        ensures line[i].stat != line[j].stat { assert all[i + 1].stat != all[j + 1].stat; }
      forall x | x in line ensures x.stat != e.stat {
        var i :| 0 <= i < |line| && line[i] == x;
        assert all[0].stat != all[i + 1].stat;
      }
    }
  }

  lemma {:induction false} RemovedFirst<S>(line: Line<S>, stat: S)
    requires line != []
    ensures Removed(line, stat) == if line[0].stat == stat then Removed(line[1..], stat)
      else [line[0]] + Removed(line[1..], stat)
  {
  }

  lemma {:induction false} RemovedAmount<S>(line: Line<S>, stat: S, other: S)
    requires other != stat
    ensures Amount(Removed(line, stat), other) == Amount(line, other)
    decreases |line|
  {
    if line != [] {
      RemovedAmount(line[1..], stat, other);
      RemovedFirst(line, stat);
    }
  }

  lemma {:induction false} RemovedKeepsUnique<S>(line: Line<S>, stat: S)
    requires Unique(line)
    ensures Unique(Removed(line, stat))
    decreases |line|
  {
    if line != [] {
      assert line == [line[0]] + line[1..];
      UniqueCons(line[0], line[1..]);
      RemovedKeepsUnique(line[1..], stat);
      forall x | x in Removed(line[1..], stat) ensures x.stat != line[0].stat { RemovedHas(line[1..], stat, x); }
      UniqueCons(line[0], Removed(line[1..], stat));
    }
  }

  lemma {:induction false} NothingToRemove<S>(line: Line<S>, stat: S)
    requires forall x | x in line :: x.stat != stat
    ensures Removed(line, stat) == line && Amount(line, stat) == 0.0
    decreases |line|
  {
    if line != [] {
      assert forall x | x in line[1..] :: x in line;
      NothingToRemove(line[1..], stat);
    }
  }

  lemma {:induction false} PointsCons<S>(e: Entry<S>, line: Line<S>, rates: Rates<S>, selected: S -> bool)
    ensures PointsOf([e] + line, rates, selected) == Worth(rates, e.stat, e.amount, selected(e.stat)) +
      PointsOf(line, rates, selected)
  {
    assert ([e] + line)[1..] == line;
  }

  /** Taking one statistic off a line takes off exactly its points. */
  lemma {:induction false} RemovedPoints<S>(line: Line<S>, rates: Rates<S>, selected: S -> bool, stat: S)
    requires Unique(line)
    ensures PointsOf(line, rates, selected) == PointsOf(Removed(line, stat), rates, selected) +
      Worth(rates, stat, Amount(line, stat), selected(stat))
    decreases |line|
  {
    if line != [] {
      var first, rest := line[0], line[1..];
      assert line == [first] + rest;
      UniqueCons(first, rest);
      RemovedFirst(line, stat);
      if first.stat == stat {
        NothingToRemove(rest, stat);
      } else {
        RemovedPoints(rest, rates, selected, stat);
        PointsCons(first, Removed(rest, stat), rates, selected);
      }
    }
  }

  function AmountsOf<S(==)>(line: Line<S>, rates: Rates<S>, stats: seq<S>): real
    decreases |stats|
  {
    if stats == [] then 0.0
      else Worth(rates, stats[0], Amount(line, stats[0]), true) + AmountsOf(line, rates, stats[1..])
  }

  lemma {:induction false} RemovedAmounts<S>(line: Line<S>, rates: Rates<S>, stat: S, stats: seq<S>)
    requires forall i | 0 <= i < |stats| :: stats[i] != stat
    ensures AmountsOf(Removed(line, stat), rates, stats) == AmountsOf(line, rates, stats)
    decreases |stats|
  {
    if stats != [] {
      RemovedAmount(line, stat, stats[0]);
      RemovedAmounts(line, rates, stat, stats[1..]);
    }
  }

  /** The points of a listed family of statistics are the sum of amount times rate over the list. */
  lemma {:induction false} PointsByStat<S>(line: Line<S>, rates: Rates<S>, selected: S -> bool, stats: seq<S>)
    requires Unique(line)
    requires forall i, j | 0 <= i < j < |stats| :: stats[i] != stats[j]
    requires forall i | 0 <= i < |stats| :: selected(stats[i])
    requires forall e | e in line && selected(e.stat) :: e.stat in stats
    ensures PointsOf(line, rates, selected) == AmountsOf(line, rates, stats)
    decreases |stats|
  {
    if stats == [] {
      NothingSelected(line, rates, selected);
    } else {
      var left := Removed(line, stats[0]);
      RemovedPoints(line, rates, selected, stats[0]);
      RemovedKeepsUnique(line, stats[0]);
      forall e | e in left && selected(e.stat) ensures e.stat in stats[1..] {
        RemovedHas(line, stats[0], e);
        var i :| 0 <= i < |stats| && stats[i] == e.stat;
        assert stats[1..][i - 1] == e.stat;
      }
      PointsByStat(left, rates, selected, stats[1..]);
      RemovedAmounts(line, rates, stats[0], stats[1..]);
    }
  }

  lemma {:induction false} NothingSelected<S>(line: Line<S>, rates: Rates<S>, selected: S -> bool)
    requires forall e | e in line :: !selected(e.stat)
    ensures PointsOf(line, rates, selected) == 0.0
    decreases |line|
  {
    if line != [] {
      assert forall e | e in line[1..] :: e in line;
      NothingSelected(line[1..], rates, selected);
    }
  }

  // ----- normalization -----

  /** A line with some statistics taken off. */
  function Without<S(==)>(line: Line<S>, stats: seq<S>): Line<S>
    decreases |stats|
  {
    if stats == [] then line else Without(Removed(line, stats[0]), stats[1..])
  }

  function Stats<S>(line: Line<S>): seq<S>
    decreases |line|
  {
    if line == [] then [] else [line[0].stat] + Stats(line[1..])
  }

  function Known<S>(line: Line<S>, rates: Rates<S>): Line<S>
    decreases |line|
  {
    if line == [] then [] else (if Knows(rates, line[0].stat) then [line[0]] else []) + Known(line[1..], rates)
  }

  /** Replaces every canonical statistic by its canonical amount, where the league's rules know it. */
  function Replaced<S(==)>(line: Line<S>, canonical: Line<S>, rates: Rates<S>): Line<S>
    decreases |canonical|
  {
    if canonical == [] then line
    else
      var first := canonical[0];
      Replaced(Removed(line, first.stat) + (if Knows(rates, first.stat) then [first] else []), canonical[1..], rates)
  }

  lemma {:induction false} RemovedAppend<S>(a: Line<S>, b: Line<S>, stat: S)
    ensures Removed(a + b, stat) == Removed(a, stat) + Removed(b, stat)
    decreases |a|
  {
    if a == [] {
      assert a + b == b;
    } else {
      assert (a + b)[1..] == a[1..] + b;
      RemovedAppend(a[1..], b, stat);
    }
  }

  lemma {:induction false} ReplacedStep<S>(line: Line<S>, done: Line<S>, first: Entry<S>, rest: Line<S>,
          rates: Rates<S>)
    requires forall x | x in done :: x.stat != first.stat
    ensures var kept := if Knows(rates, first.stat) then [first] else [];
      Replaced(line + done, [first] + rest, rates) == Replaced(Removed(line, first.stat) + (done + kept), rest, rates)
  {
    var kept := if Knows(rates, first.stat) then [first] else [];
    RemovedAppend(line, done, first.stat);
    NothingToRemove(done, first.stat);
    assert ([first] + rest)[1..] == rest;
    assert Removed(line, first.stat) + done + kept == Removed(line, first.stat) + (done + kept);
  }

  lemma {:induction false} WithoutFirst<S>(line: Line<S>, canonical: Line<S>)
    requires canonical != []
    ensures Without(line, Stats(canonical)) == Without(Removed(line, canonical[0].stat), Stats(canonical[1..]))
  {
    assert Stats(canonical)[1..] == Stats(canonical[1..]);
  }

  lemma {:induction false} KnownFirst<S>(done: Line<S>, canonical: Line<S>, rates: Rates<S>)
    requires canonical != []
    ensures var kept := if Knows(rates, canonical[0].stat) then [canonical[0]] else [];
      done + kept + Known(canonical[1..], rates) == done + Known(canonical, rates)
  {
    var kept := if Knows(rates, canonical[0].stat) then [canonical[0]] else [];
    var rest := Known(canonical[1..], rates);
    assert Known(canonical, rates) == kept + rest;
    assert done + kept + rest == done + (kept + rest);
  }

  lemma {:induction false} ReplacedIs<S>(line: Line<S>, done: Line<S>, canonical: Line<S>, rates: Rates<S>)
    requires Unique(canonical) && forall x, y | x in done && y in canonical :: x.stat != y.stat
    ensures Replaced(line + done, canonical, rates) == Without(line, Stats(canonical)) +
      (done + Known(canonical, rates))
    decreases |canonical|
  {
    if canonical == [] {
      assert line + done == Without(line, []) + (done + Known(canonical, rates));
    } else {
      var first, rest := canonical[0], canonical[1..];
      assert canonical == [first] + rest;
      UniqueCons(first, rest);
      var kept := if Knows(rates, first.stat) then [first] else [];
      assert Replaced(line + done, canonical, rates) ==
        Replaced(Removed(line, first.stat) + (done + kept), rest, rates) by {
        ReplacedStep(line, done, first, rest, rates);
      }
      ReplacedIs(Removed(line, first.stat), done + kept, rest, rates);
      WithoutFirst(line, canonical);
      KnownFirst(done, canonical, rates);
    }
  }

  /** What normalization leaves: everything that is not canonical, then the canonical amounts. */
  lemma {:induction false} ReplacedShape<S>(line: Line<S>, canonical: Line<S>, rates: Rates<S>)
    requires Unique(canonical)
    ensures Replaced(line, canonical, rates) == Without(line, Stats(canonical)) + Known(canonical, rates)
  {
    ReplacedIs(line, [], canonical, rates);
    assert line + [] == line;
    assert [] + Known(canonical, rates) == Known(canonical, rates);
  }

  lemma {:induction false} WithoutHas<S>(line: Line<S>, stats: seq<S>, e: Entry<S>)
    ensures e in Without(line, stats) <==> e in line && e.stat !in stats
    decreases |stats|
  {
    if stats != [] {
      RemovedHas(line, stats[0], e);
      WithoutHas(Removed(line, stats[0]), stats[1..], e);
      assert stats == [stats[0]] + stats[1..];
    }
  }

  lemma {:induction false} WithoutAppend<S>(a: Line<S>, b: Line<S>, stats: seq<S>)
    ensures Without(a + b, stats) == Without(a, stats) + Without(b, stats)
    decreases |stats|
  {
    if stats != [] {
      RemovedAppend(a, b, stats[0]);
      WithoutAppend(Removed(a, stats[0]), Removed(b, stats[0]), stats[1..]);
    }
  }

  lemma {:induction false} WithoutNothing<S>(line: Line<S>, stats: seq<S>)
    requires forall e | e in line :: e.stat !in stats
    ensures Without(line, stats) == line
    decreases |stats|
  {
    if stats != [] {
      assert stats[0] in stats;
      NothingToRemove(line, stats[0]);
      assert forall x | x in stats[1..] :: x in stats;
      WithoutNothing(line, stats[1..]);
    }
  }

  lemma {:induction false} WithoutKeepsUnique<S>(line: Line<S>, stats: seq<S>)
    requires Unique(line)
    ensures Unique(Without(line, stats))
    decreases |stats|
  {
    if stats != [] {
      RemovedKeepsUnique(line, stats[0]);
      WithoutKeepsUnique(Removed(line, stats[0]), stats[1..]);
    }
  }

  lemma {:induction false} StatsHas<S>(line: Line<S>, stat: S)
    ensures stat in Stats(line) <==> exists e :: e in line && e.stat == stat
    decreases |line|
  {
    if line != [] {
      StatsHas(line[1..], stat);
      assert line == [line[0]] + line[1..];
      if exists e :: e in line && e.stat == stat {
        var e :| e in line && e.stat == stat;
        assert e == line[0] || e in line[1..];
      }
    }
  }

  lemma {:induction false} KnownHas<S>(line: Line<S>, rates: Rates<S>, e: Entry<S>)
    ensures e in Known(line, rates) <==> e in line && Knows(rates, e.stat)
    decreases |line|
  {
    if line != [] {
      KnownHas(line[1..], rates, e);
      assert line == [line[0]] + line[1..];
    }
  }

  lemma {:induction false} KnownKeepsUnique<S>(line: Line<S>, rates: Rates<S>)
    requires Unique(line)
    ensures Unique(Known(line, rates))
    decreases |line|
  {
    if line != [] {
      assert line == [line[0]] + line[1..];
      UniqueCons(line[0], line[1..]);
      KnownKeepsUnique(line[1..], rates);
      forall x | x in Known(line[1..], rates) ensures x.stat != line[0].stat { KnownHas(line[1..], rates, x); }
      UniqueCons(line[0], Known(line[1..], rates));
    }
  }

  lemma {:induction false} UniqueAppend<S>(a: Line<S>, b: Line<S>)
    requires Unique(a) && Unique(b) && forall x, y | x in a && y in b :: x.stat != y.stat
    ensures Unique(a + b)
  {
    forall i, j | 0 <= i < j < |a + b| ensures (a + b)[i].stat != (a + b)[j].stat {
      if i < |a| { assert (a + b)[i] in a; }
      if j >= |a| { assert (a + b)[j] in b; }
    }
  }

  lemma {:induction false} UniqueAmount<S>(line: Line<S>, e: Entry<S>)
    requires Unique(line) && e in line
    ensures Amount(line, e.stat) == e.amount
    decreases |line|
  {
    assert line == [line[0]] + line[1..];
    UniqueCons(line[0], line[1..]);
    if line[0] != e {
      UniqueAmount(line[1..], e);
    }
  }

  /** After normalization each canonical statistic counts its canonical amount, whatever was supplied, and
      a statistic the league has no rule for counts nothing. */
  lemma {:induction false} ReplacedWorth<S>(line: Line<S>, canonical: Line<S>, rates: Rates<S>, e: Entry<S>)
    requires Unique(line) && Unique(canonical) && e in canonical
    ensures Worth(rates, e.stat, Amount(Replaced(line, canonical, rates), e.stat), true) ==
      Worth(rates, e.stat, e.amount, true)
  {
    var replaced := Replaced(line, canonical, rates);
    if Knows(rates, e.stat) {
      ReplacedKeepsUnique(line, canonical, rates);
      ReplacedShape(line, canonical, rates);
      KnownHas(canonical, rates, e);
      UniqueAmount(replaced, e);
    }
  }

  lemma {:induction false} ReplacedKeepsUnique<S>(line: Line<S>, canonical: Line<S>, rates: Rates<S>)
    requires Unique(line) && Unique(canonical)
    ensures Unique(Replaced(line, canonical, rates))
  {
    var rest, known := Without(line, Stats(canonical)), Known(canonical, rates);
    ReplacedShape(line, canonical, rates);
    WithoutKeepsUnique(line, Stats(canonical));
    KnownKeepsUnique(canonical, rates);
    forall x, y | x in rest && y in known ensures x.stat != y.stat {
      WithoutHas(line, Stats(canonical), x);
      KnownHas(canonical, rates, y);
      StatsHas(canonical, y.stat);
    }
    UniqueAppend(rest, known);
  }

  lemma {:induction false} ReplacedFrom<S>(line: Line<S>, canonical: Line<S>, rates: Rates<S>, e: Entry<S>)
    requires Unique(canonical) && e in Replaced(line, canonical, rates)
    ensures e in canonical || (e in line && e.stat !in Stats(canonical))
  {
    ReplacedShape(line, canonical, rates);
    WithoutHas(line, Stats(canonical), e);
    KnownHas(canonical, rates, e);
  }

  lemma {:induction false} ReplacedHas<S>(line: Line<S>, canonical: Line<S>, rates: Rates<S>, e: Entry<S>)
    requires Unique(canonical)
    ensures e in Replaced(line, canonical, rates) <==>
      (e in canonical && e.stat in rates) || (e in line && e.stat !in Stats(canonical))
  {
    ReplacedShape(line, canonical, rates);
    WithoutHas(line, Stats(canonical), e);
    KnownHas(canonical, rates, e);
  }

  /** What a normalized line says of a canonical statistic is the canonical amount. */
  lemma {:induction false} ReplacedAgrees<S>(line: Line<S>, canonical: Line<S>, rates: Rates<S>, e: Entry<S>)
    requires Unique(line) && Unique(canonical) && e in canonical && Has(Replaced(line, canonical, rates), e.stat)
    ensures Amount(Replaced(line, canonical, rates), e.stat) == e.amount
  {
    var replaced := Replaced(line, canonical, rates);
    ReplacedKeepsUnique(line, canonical, rates);
    var i :| 0 <= i < |replaced| && replaced[i].stat == e.stat;
    ReplacedFrom(line, canonical, rates, replaced[i]);
    StatsHas(canonical, e.stat);
    UniqueAmount(replaced, replaced[i]);
    UniqueAmount(canonical, replaced[i]);
    UniqueAmount(canonical, e);
  }

  /** Normalizing twice is normalizing once. */
  lemma {:induction false} ReplacedTwice<S>(line: Line<S>, canonical: Line<S>, rates: Rates<S>)
    requires Unique(canonical)
    ensures Replaced(Replaced(line, canonical, rates), canonical, rates) == Replaced(line, canonical, rates)
  {
    var stats := Stats(canonical);
    var rest, known := Without(line, stats), Known(canonical, rates);
    ReplacedShape(line, canonical, rates);
    ReplacedShape(rest + known, canonical, rates);
    WithoutAppend(rest, known, stats);
    forall e | e in rest ensures e.stat !in stats { WithoutHas(line, stats, e); }
    WithoutNothing(rest, stats);
    if Without(known, stats) != [] {
      var e := Without(known, stats)[0];
      WithoutHas(known, stats, e);
      KnownHas(canonical, rates, e);
      StatsHas(canonical, e.stat);
    }
    assert rest + [] == rest;
  }

  /** Every overlapping count agrees with its canonical amount. */
  ghost predicate Agrees<S>(line: Line<S>, canonical: Line<S>) {
    forall e | e in canonical && Has(line, e.stat) :: Close(Amount(line, e.stat), e.amount)
  }

  method FindConflict<S(==)>(line: Line<S>, canonical: Line<S>) returns (found: Option<S>)
    ensures found.None? <==> Agrees(line, canonical)
  {
    for i := 0 to |canonical|
      invariant forall j | 0 <= j < i && Has(line, canonical[j].stat) ::
        Close(Amount(line, canonical[j].stat), canonical[j].amount)
    {
      if Has(line, canonical[i].stat) && !Close(Amount(line, canonical[i].stat), canonical[i].amount) {
        assert canonical[i] in canonical;
        return Some(canonical[i].stat);
      }
    }
    found := None;
  }

  /** What supplied lines say about canonical statistics never matters: lines that agree on everything else
      normalize to the same line. */
  lemma {:induction false} OverlapsDoNotCount<S>(line: Line<S>, other: Line<S>, canonical: Line<S>, rates: Rates<S>)
    requires Unique(canonical) && Without(line, Stats(canonical)) == Without(other, Stats(canonical))
    ensures Replaced(line, canonical, rates) == Replaced(other, canonical, rates)
  {
    ReplacedShape(line, canonical, rates);
    ReplacedShape(other, canonical, rates);
  }

  /** The loop over the canonical statistics. */
  method Normalize<S(==)>(line: Line<S>, canonical: Line<S>, rates: Rates<S>) returns (normalized: Line<S>)
    ensures normalized == Replaced(line, canonical, rates)
  {
    normalized := line;
    var i := 0;
    while i < |canonical|
      invariant 0 <= i <= |canonical|
      invariant Replaced(line, canonical, rates) == Replaced(normalized, canonical[i..], rates)
    {
      assert canonical[i..][0] == canonical[i] && canonical[i..][1..] == canonical[i + 1..];
      normalized := Removed(normalized, canonical[i].stat);
      if canonical[i].stat in rates {
        normalized := normalized + [canonical[i]];
      } else {
        assert normalized + [] == normalized;
      }
      i := i + 1;
    }
  }

  lemma {:induction false} SplitPoints<S>(line: Line<S>, rates: Rates<S>, some: S -> bool, others: S -> bool,
          both: S -> bool)
    requires forall stat: S :: both(stat) == (some(stat) || others(stat)) && !(some(stat) && others(stat))
    ensures PointsOf(line, rates, both) == PointsOf(line, rates, some) + PointsOf(line, rates, others)
    decreases |line|
  {
    if line != [] { SplitPoints(line[1..], rates, some, others, both); }
  }

  lemma {:induction false} SplitTotal<S>(line: Line<S>, rates: Rates<S>, selected: S -> bool, others: S -> bool)
    requires forall stat: S :: selected(stat) != others(stat)
    ensures PointsOf(line, rates, selected) + PointsOf(line, rates, others) == Total(line, rates)
    decreases |line|
  {
    if line != [] { SplitTotal(line[1..], rates, selected, others); }
  }

  lemma {:induction false} PointsAppend<S>(a: Line<S>, b: Line<S>, rates: Rates<S>, selected: S -> bool)
    ensures PointsOf(a + b, rates, selected) == PointsOf(a, rates, selected) + PointsOf(b, rates, selected)
    decreases |a|
  {
    if a == [] {
      assert a + b == b;
    } else {
      assert a + b == [a[0]] + (a[1..] + b);
      PointsCons(a[0], a[1..] + b, rates, selected);
      PointsAppend(a[1..], b, rates, selected);
    }
  }

  lemma {:induction false} WithoutPoints<S>(line: Line<S>, stats: seq<S>, rates: Rates<S>, selected: S -> bool)
    requires Unique(line) && forall i | 0 <= i < |stats| :: !selected(stats[i])
    ensures PointsOf(Without(line, stats), rates, selected) == PointsOf(line, rates, selected)
    decreases |stats|
  {
    if stats != [] {
      RemovedPoints(line, rates, selected, stats[0]);
      RemovedKeepsUnique(line, stats[0]);
      WithoutPoints(Removed(line, stats[0]), stats[1..], rates, selected);
    }
  }

  /** Normalizing leaves the points of whatever is not canonical. */
  lemma {:induction false} OthersKeepPoints<S>(line: Line<S>, canonical: Line<S>, rates: Rates<S>, selected: S -> bool)
    requires Unique(line) && Unique(canonical) && forall e | e in canonical :: !selected(e.stat)
    ensures PointsOf(Replaced(line, canonical, rates), rates, selected) == PointsOf(line, rates, selected)
  {
    var stats, known := Stats(canonical), Known(canonical, rates);
    forall i | 0 <= i < |stats| ensures !selected(stats[i]) {
      assert stats[i] in stats;
      StatsHas(canonical, stats[i]);
    }
    forall e | e in known ensures !selected(e.stat) { KnownHas(canonical, rates, e); }
    ReplacedShape(line, canonical, rates);
    PointsAppend(Without(line, stats), known, rates, selected);
    WithoutPoints(line, stats, rates, selected);
    NothingSelected(known, rates, selected);
  }
}
