/** The rectangular Hungarian algorithm over rows 1..n and columns 1..m of a cost table, with column 0
    as the root of each search. It is proved optimal by the dual prices it maintains. */
module Hungarian {
  import opened Sums

  datatype Bound = Finite(value: real) | Infinite

  type Costs = seq<seq<real>>

  ghost predicate IsTable(c: Costs, n: nat, m: nat) {
    |c| == n && forall r | 0 <= r < n :: |c[r]| == m
  }

  /** A snapshot of the prices u and v and of the matching p. The matching's inverse col is kept only
      for the proof: col[r] is the column matched to row r. */
  datatype Matching = Matching(c: Costs, n: nat, m: nat, u: seq<real>, v: seq<real>, p: seq<nat>, col: seq<nat>)
  {
    ghost predicate Shape() {
      IsTable(c, n, m) && |u| == |col| == n + 1 && |v| == |p| == m + 1
    }

    /** Reduced cost of matching row r to column j. */
    ghost function Slack(r: nat, j: nat): real
      requires Shape() && 1 <= r <= n && 1 <= j <= m
    {
      c[r - 1][j - 1] - u[r] - v[j]
    }

    /** Column prices: never positive, and zero on every unmatched column. */
    ghost predicate Priced()
      requires Shape()
    {
      forall j | 1 <= j <= m :: v[j] <= 0.0 && (p[j] == 0 ==> v[j] == 0.0)
    }

    /** Rows 1..k and their columns are inverse to each other. Column hole is exempt. */
    ghost predicate Inverse(k: nat, hole: nat)
      requires Shape()
    {
      && k <= n
      && (forall j | 0 <= j <= m && j != hole :: p[j] <= k && (p[j] != 0 ==> col[p[j]] == j))
      && (forall r | 1 <= r <= k :: col[r] <= m && col[r] != hole && p[col[r]] == r)
    }

    ghost predicate Tight(hole: nat)
      requires Shape()
    {
      forall j | 1 <= j <= m && j != hole && 1 <= p[j] <= n :: Slack(p[j], j) == 0.0
    }

    ghost predicate Feasible(k: nat)
      requires Shape() && k <= n
    {
      forall r, j | 1 <= r <= k && 1 <= j <= m :: Slack(r, j) >= 0.0
    }

    /** What holds between two searches: rows 1..k are matched at least cost. */
    ghost predicate Solved(k: nat) {
      Shape() && Inverse(k, 0) && Priced() && Tight(0) && Feasible(k)
    }
  }

  /** A snapshot of one search: the alternating tree in way and used, the least slacks in min, and for
      the proof the order rank in which columns joined the tree. */
  datatype Search = Search(x: Matching, way: seq<nat>, min: seq<Bound>, used: seq<bool>, rank: seq<nat>)
  {
    ghost predicate Shape() {
      && x.Shape() && |way| == |min| == |used| == |rank| == x.m + 1
      && (forall j | 0 <= j <= x.m && used[j] :: 1 <= x.p[j] <= x.n)
    }

    /** A used column hangs, by a tight edge, from the row matched to an earlier used column. */
    ghost predicate Hangs(j: nat)
      requires Shape() && 1 <= j <= x.m
    {
      way[j] <= x.m && used[way[j]] && x.Slack(x.p[way[j]], j) == 0.0
    }

    ghost predicate Tree()
      requires Shape()
    {
      forall j | 1 <= j <= x.m && used[j] :: Hangs(j) && rank[way[j]] < rank[j]
    }

    /** min[j] is the least slack from a row of the tree to the unused column j, attained at way[j]. */
    ghost predicate Reached(j: nat)
      requires Shape() && 1 <= j <= x.m
    {
      && min[j].Finite? && way[j] <= x.m && used[way[j]] && min[j].value == x.Slack(x.p[way[j]], j)
      && forall y | 0 <= y <= x.m && used[y] :: min[j].value <= x.Slack(x.p[y], j)
    }

    ghost predicate Frontier()
      requires Shape()
    {
      if used[0] then forall j | 1 <= j <= x.m && !used[j] :: Reached(j)
      else forall j | 1 <= j <= x.m :: !used[j] && min[j] == Infinite
    }

    ghost predicate RootOnly()
      requires Shape()
    {
      forall j | 1 <= j <= x.m :: !used[j]
    }

    /** The invariant of the search that adds row i, parked at column 0. */
    ghost predicate Adding(i: nat) {
      && Shape() && 1 <= i <= x.n && x.Inverse(i, x.m + 1) && x.p[0] == i
      && x.Priced() && x.Tight(0) && Tree() && Frontier()
    }

    /** The search stands at the unused column j0, reached by a tight edge unless it is the root; t
        bounds the ranks given out so far. */
    ghost predicate At(i: nat, j0: nat, t: nat) {
      && Adding(i) && x.Feasible(if used[0] then i else i - 1)
      && j0 <= x.m && !used[j0] && (used[0] <==> j0 != 0) && (j0 != 0 ==> min[j0] == Finite(0.0))
      && (forall j | 0 <= j <= x.m && used[j] :: rank[j] < t)
    }

    ghost predicate InTree(r: nat)
      requires Shape() && r <= x.n
    {
      x.col[r] <= x.m && used[x.col[r]] && x.p[x.col[r]] == r
    }
  }

  predicate Less(a: Bound, b: Bound) {
    a.Finite? && (b.Infinite? || a.value < b.value)
  }

  /** One relaxation of a column from column j0: its min and way after, given those before. */
  ghost predicate Relaxed(cur: real, j0: nat, min: Bound, way: nat, min': Bound, way': nat) {
    if Less(Finite(cur), min) then min' == Finite(cur) && way' == j0 else min' == min && way' == way
  }

  /** What a scan from column j0 does to a search: it relaxes every unused column, and finds the
      least slack delta, at column j1, when there is an unused column. */
  ghost predicate Scanned(s: Search, j0: nat, s': Search, delta: Bound, j1: nat) {
    && s.Shape() && j0 <= s.x.m && s.used[j0]
    && s' == s.(way := s'.way, min := s'.min) && |s'.way| == |s'.min| == s.x.m + 1
    && (forall j | 1 <= j <= s.x.m && s.used[j] :: s'.way[j] == s.way[j])
    && (forall j | 1 <= j <= s.x.m && !s.used[j] ::
      Relaxed(s.x.Slack(s.x.p[j0], j), j0, s.min[j], s.way[j], s'.min[j], s'.way[j]))
    && (forall j | 1 <= j <= s.x.m && !s.used[j] :: !Less(s'.min[j], delta))
    && (delta.Finite? ==> 1 <= j1 <= s.x.m && !s.used[j1] && s'.min[j1] == delta)
  }

  /** A scan that has come to column j: the unused ones before it are relaxed, the rest as they were, and
      delta is the least slack so far. */
  ghost predicate ScannedTo(s: Search, j0: nat, j: nat, way: seq<nat>, min: seq<Bound>, delta: Bound, j1: nat) {
    && s.Shape() && j0 <= s.x.m && s.used[j0] && 1 <= j <= s.x.m + 1 && |way| == |min| == s.x.m + 1
    && (forall y | 0 <= y <= s.x.m && (s.used[y] || y >= j) :: way[y] == s.way[y] && min[y] == s.min[y])
    && (forall y | 1 <= y < j && !s.used[y] ::
      Relaxed(s.x.Slack(s.x.p[j0], y), j0, s.min[y], s.way[y], min[y], way[y]))
    && (forall y | 1 <= y < j && !s.used[y] :: !Less(min[y], delta))
    && (delta.Finite? ==> 1 <= j1 < j && !s.used[j1] && min[j1] == delta)
  }

  lemma {:induction false} ScanSkips(s: Search, j0: nat, j: nat, way: seq<nat>, min: seq<Bound>, delta: Bound, j1: nat)
    requires ScannedTo(s, j0, j, way, min, delta, j1) && j <= s.x.m && s.used[j]
    ensures ScannedTo(s, j0, j + 1, way, min, delta, j1)
  {
  }

  lemma {:induction false} ScanRelaxes(s: Search, j0: nat, j: nat, way: seq<nat>, min: seq<Bound>, delta: Bound,
          j1: nat, w: nat, b: Bound)
    requires ScannedTo(s, j0, j, way, min, delta, j1) && j <= s.x.m && !s.used[j]
    requires Relaxed(s.x.Slack(s.x.p[j0], j), j0, min[j], way[j], b, w)
    ensures if Less(b, delta) then ScannedTo(s, j0, j + 1, way[j := w], min[j := b], b, j)
      else ScannedTo(s, j0, j + 1, way[j := w], min[j := b], delta, j1)
  {
  }

  lemma {:induction false} ScannedToEnd(s: Search, j0: nat, way: seq<nat>, min: seq<Bound>, delta: Bound, j1: nat)
    requires ScannedTo(s, j0, s.x.m + 1, way, min, delta, j1)
    ensures Scanned(s, j0, s.(way := way, min := min), delta, j1)
  {
  }

  /** Relaxes every unused column from row p[j0], and finds the unused column of least slack. */
  method Scan(c: Costs, n: nat, m: nat, u: array<real>, v: array<real>, p: array<nat>,
              way: array<nat>, min: array<Bound>, used: array<bool>, j0: nat, ghost s: Search)
    returns (delta: Bound, j1: nat)
    requires way != p && s.Shape()
    requires s.x == Matching(c, n, m, u[..], v[..], p[..], s.x.col)
    requires s.way == way[..] && s.min == min[..] && s.used == used[..]
    requires j0 <= m && used[j0]
    modifies way, min
    ensures Scanned(s, j0, s.(way := way[..], min := min[..]), delta, j1)
  {
    var i0 := p[j0];
    delta, j1 := Infinite, 0;
    var j := 1;
    while j <= m
      invariant 1 <= j <= m + 1 && ScannedTo(s, j0, j, way[..], min[..], delta, j1)
    {
      ghost var way', min', delta', j1' := way[..], min[..], delta, j1;
      if used[j] {
        ScanSkips(s, j0, j, way', min', delta', j1');
      } else {
        var cur := c[i0 - 1][j - 1] - u[i0] - v[j];
        if Less(Finite(cur), min[j]) {
          min[j], way[j] := Finite(cur), j0;
        }
        if Less(min[j], delta) {
          delta, j1 := min[j], j;
        }
        ScanRelaxes(s, j0, j, way', min', delta', j1', way[j], min[j]);
        assert way[..] == way'[j := way[j]] && min[..] == min'[j := min[j]];
      }
      j := j + 1;
    }
    ScannedToEnd(s, j0, way[..], min[..], delta, j1);
  }

  /** After j0 joins the tree and its row is relaxed, every unused column is reached again. */
  lemma {:induction false} RelaxReaches(s: Search, j0: nat, s': Search)
    requires s.Shape() && s.Frontier() && s'.Shape() && s'.x == s.x
    requires j0 <= s.x.m && s'.used == s.used[j0 := true] && s'.used[0]
    requires forall j | 1 <= j <= s.x.m && !s'.used[j] ::
      Relaxed(s.x.Slack(s.x.p[j0], j), j0, s.min[j], s.way[j], s'.min[j], s'.way[j])
    ensures s'.Frontier()
  {
    forall j | 1 <= j <= s.x.m && !s'.used[j] ensures s'.Reached(j) {
      assert s.used[0] ==> s.Reached(j);
    }
  }

  function Minus(b: Bound, delta: real): Bound {
    if b.Finite? then Finite(b.value - delta) else b
  }

  /** Rows of the tree rise by delta and its columns fall by delta, so slacks inside the tree stay. */
  ghost predicate Shifted(s: Search, delta: real, s': Search) {
    && s.Shape()
    && s' == s.(x := s.x.(u := s'.x.u, v := s'.x.v), min := s'.min)
    && |s'.x.u| == s.x.n + 1 && |s'.x.v| == |s'.min| == s.x.m + 1
    && (forall r | 0 <= r <= s.x.n :: s'.x.u[r] == s.x.u[r] + (if s.InTree(r) then delta else 0.0))
    && (forall j | 0 <= j <= s.x.m :: s'.x.v[j] == s.x.v[j] - (if s.used[j] then delta else 0.0))
    && (forall j | 0 <= j <= s.x.m :: s'.min[j] == if s.used[j] then s.min[j] else Minus(s.min[j], delta))
  }

  /** A shift that has come to column j. */
  ghost predicate ShiftedTo(s: Search, delta: real, j: nat, u: seq<real>, v: seq<real>, min: seq<Bound>) {
    && s.Shape() && j <= s.x.m + 1 && |u| == s.x.n + 1 && |v| == |min| == s.x.m + 1
    && (forall r | 0 <= r <= s.x.n :: u[r] == s.x.u[r] + (if s.x.col[r] < j && s.InTree(r) then delta else 0.0))
    && (forall y | 0 <= y <= s.x.m :: v[y] == s.x.v[y] - (if y < j && s.used[y] then delta else 0.0))
    && (forall y | 0 <= y <= s.x.m :: min[y] == if y < j && !s.used[y] then Minus(s.min[y], delta) else s.min[y])
  }

  /** Used columns hold the rows that hold them. */
  ghost predicate OwnsRows(s: Search) {
    s.Shape() && forall j | 0 <= j <= s.x.m && s.used[j] :: s.x.col[s.x.p[j]] == j
  }

  lemma {:induction false} ShiftUsed(s: Search, delta: real, j: nat, u: seq<real>, v: seq<real>, min: seq<Bound>)
    requires ShiftedTo(s, delta, j, u, v, min) && j <= s.x.m && s.used[j] && OwnsRows(s)
    ensures var r := s.x.p[j];
      ShiftedTo(s, delta, j + 1, u[r := u[r] + delta], v[j := v[j] - delta], min)
  {
    forall r | 0 <= r <= s.x.n && s.x.col[r] == j && s.InTree(r) ensures r == s.x.p[j] {}
  }

  lemma {:induction false} ShiftUnused(s: Search, delta: real, j: nat, u: seq<real>, v: seq<real>, min: seq<Bound>)
    requires ShiftedTo(s, delta, j, u, v, min) && j <= s.x.m && !s.used[j]
    ensures ShiftedTo(s, delta, j + 1, u, v, min[j := Minus(min[j], delta)])
  {
  }

  method Shift(n: nat, m: nat, u: array<real>, v: array<real>, p: array<nat>, min: array<Bound>, used: array<bool>,
               delta: real, ghost s: Search)
    requires u != v && OwnsRows(s) && s.x.n == n && s.x.m == m
    requires s.x.u == u[..] && s.x.v == v[..] && s.x.p == p[..] && s.min == min[..] && s.used == used[..]
    modifies u, v, min
    ensures Shifted(s, delta, s.(x := s.x.(u := u[..], v := v[..]), min := min[..]))
  {
    var j := 0;
    while j <= m
      invariant 0 <= j <= m + 1 && ShiftedTo(s, delta, j, u[..], v[..], min[..])
    {
      ghost var u', v', min' := u[..], v[..], min[..];
      if used[j] {
        ShiftUsed(s, delta, j, u', v', min');
        u[p[j]] := u[p[j]] + delta;
        v[j] := v[j] - delta;
        assert u[..] == u'[p[j] := u'[p[j]] + delta] && v[..] == v'[j := v'[j] - delta];
      } else {
        ShiftUnused(s, delta, j, u', v', min');
        min[j] := Minus(min[j], delta);
        assert min[..] == min'[j := Minus(min'[j], delta)];
      }
      j := j + 1;
    }
    ShiftedToEnd(s, delta, u[..], v[..], min[..]);
  }

  lemma {:induction false} ShiftedToEnd(s: Search, delta: real, u: seq<real>, v: seq<real>, min: seq<Bound>)
    requires ShiftedTo(s, delta, s.x.m + 1, u, v, min)
    ensures Shifted(s, delta, s.(x := s.x.(u := u, v := v), min := min))
  {
  }

  lemma {:induction false} ShiftedSlack(s: Search, delta: real, s': Search, r: nat, j: nat)
    requires Shifted(s, delta, s') && 1 <= r <= s.x.n && 1 <= j <= s.x.m
    ensures s'.x.Slack(r, j) == s.x.Slack(r, j)
      - (if s.InTree(r) then delta else 0.0) + (if s.used[j] then delta else 0.0)
  {
  }

  lemma {:induction false} ShiftFeasible(s: Search, i: nat, delta: real, s': Search)
    requires Shifted(s, delta, s') && s.Adding(i) && s.used[0]
    requires s.x.Feasible(if s.RootOnly() then i - 1 else i)
    requires forall j | 1 <= j <= s.x.m && !s.used[j] :: delta <= s.min[j].value
    requires delta >= 0.0 || s.RootOnly()
    ensures s'.x.Feasible(i)
  {
    forall r, j | 1 <= r <= i && 1 <= j <= s.x.m ensures s'.x.Slack(r, j) >= 0.0 {
      ShiftedCell(s, i, delta, s', r, j);
    }
  }

  lemma {:induction false} ShiftedCell(s: Search, i: nat, delta: real, s': Search, r: nat, j: nat)
    requires Shifted(s, delta, s') && s.Adding(i) && s.used[0] && 1 <= r <= i && 1 <= j <= s.x.m
    requires s.x.Feasible(if s.RootOnly() then i - 1 else i)
    requires !s.used[j] ==> delta <= s.min[j].value
    requires delta >= 0.0 || s.RootOnly()
    ensures s'.x.Slack(r, j) >= 0.0
  {
    ShiftedSlack(s, delta, s', r, j);
    if s.InTree(r) {
      if s.used[j] {
      } else {
        assert s.Reached(j);
        assert s.min[j].value <= s.x.Slack(s.x.p[s.x.col[r]], j);
      }
    } else {
      assert s.x.col[i] == 0 && s.InTree(i);
    }
  }

  lemma {:induction false} ShiftFrontier(s: Search, i: nat, delta: real, s': Search)
    requires Shifted(s, delta, s') && s.Adding(i) && s.used[0]
    ensures s'.Frontier()
  {
    forall j | 1 <= j <= s.x.m && !s.used[j] ensures s'.Reached(j) {
      assert s.Reached(j);
      forall y | 0 <= y <= s.x.m && s.used[y]
        ensures s'.x.Slack(s.x.p[y], j) == s.x.Slack(s.x.p[y], j) - delta
      {
        assert s.InTree(s.x.p[y]);
        ShiftedSlack(s, delta, s', s.x.p[y], j);
      }
    }
  }

  lemma {:induction false} ShiftTree(s: Search, i: nat, delta: real, s': Search)
    requires Shifted(s, delta, s') && s.Adding(i) && s.used[0]
    ensures s'.Tree()
  {
    forall j | 1 <= j <= s.x.m && s.used[j] ensures s'.Hangs(j) && s.rank[s.way[j]] < s.rank[j] {
      assert s.Hangs(j);
      assert s.InTree(s.x.p[s.way[j]]);
      ShiftedSlack(s, delta, s', s.x.p[s.way[j]], j);
    }
  }

  lemma {:induction false} ShiftMatching(s: Search, i: nat, delta: real, s': Search)
    requires Shifted(s, delta, s') && s.Adding(i) && s.used[0]
    requires delta >= 0.0 || s.RootOnly()
    ensures s'.x.Tight(0) && s'.x.Priced()
  {
    forall j | 1 <= j <= s.x.m && 1 <= s.x.p[j] <= s.x.n ensures s'.x.Slack(s.x.p[j], j) == 0.0 {
      ShiftedSlack(s, delta, s', s.x.p[j], j);
      assert s.InTree(s.x.p[j]) <==> s.used[j];
    }
  }

  lemma {:induction false} ShiftAdding(s: Search, i: nat, delta: real, s': Search)
    requires Shifted(s, delta, s') && s.Adding(i) && s.used[0]
    requires delta >= 0.0 || s.RootOnly()
    ensures s'.Adding(i)
  {
    ShiftFrontier(s, i, delta, s');
    ShiftTree(s, i, delta, s');
    ShiftMatching(s, i, delta, s');
  }

  /** Fewer rows are matched than there are columns, so some column is unmatched. */
  lemma {:induction false} FreeColumn(x: Matching, i: nat)
    requires x.Shape() && x.Inverse(i, x.m + 1) && x.p[0] == i && 1 <= i <= x.n <= x.m
    ensures exists j :: 1 <= j <= x.m && x.p[j] == 0
  {
    if forall j | 1 <= j <= x.m :: x.p[j] != 0 {
      forall j: nat | 1 <= j <= x.m ensures j in x.col[1..i] {
        assert x.p[j] != i;
        assert x.col[1..i][x.p[j] - 1] == j;
      }
      Pigeonhole(x.col[1..i], x.m);
    }
  }

  /** Column j0 joins the tree with rank t. */
  lemma {:induction false} Join(s: Search, i: nat, j0: nat, t: nat, joined: Search)
    requires s.At(i, j0, t) && s.x.p[j0] != 0
    requires joined == s.(used := s.used[j0 := true], rank := s.rank[j0 := t])
    ensures joined.Shape() && joined.Tree() && joined.used[0]
    ensures forall j | 0 <= j <= s.x.m && joined.used[j] :: s.x.col[s.x.p[j]] == j
    ensures joined.RootOnly() || joined.x.Feasible(i)
    ensures forall j | 0 <= j <= s.x.m && joined.used[j] :: joined.rank[j] < t + 1
  {
    forall j | 1 <= j <= s.x.m && joined.used[j]
      ensures joined.Hangs(j) && joined.rank[joined.way[j]] < joined.rank[j]
    {
      if j == j0 {
        assert s.Reached(j);
      } else {
        assert s.Hangs(j);
      }
    }
  }

  lemma {:induction false} ScanAdding(s: Search, i: nat, j0: nat, t: nat, joined: Search, relaxed: Search, delta: Bound,
          j1: nat)
    requires s.At(i, j0, t) && s.x.p[j0] != 0 && s.x.n <= s.x.m
    requires joined == s.(used := s.used[j0 := true], rank := s.rank[j0 := t])
    requires Scanned(joined, j0, relaxed, delta, j1)
    ensures relaxed.Adding(i) && relaxed.used[0]
    ensures relaxed.RootOnly() || relaxed.x.Feasible(i)
    ensures delta.Finite? && !relaxed.used[j1] && relaxed.min[j1] == delta
    ensures forall j | 1 <= j <= s.x.m && !relaxed.used[j] :: delta.value <= relaxed.min[j].value
    ensures delta.value >= 0.0 || relaxed.RootOnly()
  {
    Join(s, i, j0, t, joined);
    RelaxReaches(s, j0, relaxed);
    RelaxKeepsTree(joined, j0, relaxed, delta, j1);
    FreeColumn(s.x, i);
    var free :| 1 <= free <= s.x.m && s.x.p[free] == 0;
    LeastIsReached(joined, j0, relaxed, delta, j1, free);
  }

  lemma {:induction false} RelaxKeepsTree(joined: Search, j0: nat, relaxed: Search, delta: Bound, j1: nat)
    requires Scanned(joined, j0, relaxed, delta, j1) && joined.Tree() && relaxed.Shape()
    ensures relaxed.Tree()
  {
    forall j | 1 <= j <= joined.x.m && relaxed.used[j]
      ensures relaxed.Hangs(j) && relaxed.rank[relaxed.way[j]] < relaxed.rank[j]
    {
      assert joined.Hangs(j);
    }
  }

  /** With an unused column left the scan finds the least slack over all of them. */
  lemma {:induction false} LeastIsReached(joined: Search, j0: nat, relaxed: Search, delta: Bound, j1: nat, free: nat)
    requires Scanned(joined, j0, relaxed, delta, j1) && relaxed.Shape() && relaxed.Frontier() && relaxed.used[0]
    requires 1 <= free <= relaxed.x.m && !relaxed.used[free]
    ensures delta.Finite? && 1 <= j1 <= relaxed.x.m && !relaxed.used[j1] && relaxed.min[j1] == delta &&
      relaxed.Reached(j1)
    ensures forall j | 1 <= j <= relaxed.x.m && !relaxed.used[j] ::
      relaxed.min[j].Finite? && delta.value <= relaxed.min[j].value
  {
    assert relaxed.Reached(free);
    forall j | 1 <= j <= relaxed.x.m && !relaxed.used[j]
      ensures relaxed.min[j].Finite? && delta.value <= relaxed.min[j].value
    {
      assert relaxed.Reached(j);
    }
  }

  lemma {:induction false} RoundAdding(s: Search, i: nat, j0: nat, t: nat, joined: Search, relaxed: Search,
          delta: Bound, j1: nat, s': Search)
    requires s.At(i, j0, t) && s.x.p[j0] != 0 && s.x.n <= s.x.m
    requires joined == s.(used := s.used[j0 := true], rank := s.rank[j0 := t])
    requires Scanned(joined, j0, relaxed, delta, j1) && delta.Finite?
    requires Shifted(relaxed, delta.value, s')
    ensures s'.Adding(i) && s'.x.Feasible(i)
  {
    ScanAdding(s, i, j0, t, joined, relaxed, delta, j1);
    ShiftAdding(relaxed, i, delta.value, s');
    ShiftFeasible(relaxed, i, delta.value, s');
  }

  lemma {:induction false} RoundAt(relaxed: Search, i: nat, t: nat, delta: real, j1: nat, s': Search)
    requires Shifted(relaxed, delta, s') && relaxed.used[0] && 1 <= j1 <= relaxed.x.m
    requires !relaxed.used[j1] && relaxed.min[j1] == Finite(delta)
    requires forall j | 0 <= j <= relaxed.x.m && relaxed.used[j] :: relaxed.rank[j] < t
    requires s'.Adding(i) && s'.x.Feasible(i)
    ensures s'.At(i, j1, t)
  {
    assert s'.min[j1] == Minus(relaxed.min[j1], delta);
  }

  /** One round of a search: j0 joins the tree, the frontier is relaxed, and the prices shift until
      some unused column j1 is reached by a tight edge. */
  method Grow(c: Costs, n: nat, m: nat, u: array<real>, v: array<real>, p: array<nat>,
              way: array<nat>, min: array<Bound>, used: array<bool>, j0: nat,
              ghost s: Search, ghost i: nat, ghost t: nat) returns (j1: nat, ghost s': Search)
    requires u != v && p != way && n <= m
    requires s.At(i, j0, t) && s.x.p[j0] != 0
    requires s.x == Matching(c, n, m, u[..], v[..], p[..], s.x.col)
    requires s.way == way[..] && s.min == min[..] && s.used == used[..]
    modifies u, v, way, min, used
    ensures s'.At(i, j1, t + 1)
    ensures s'.x == Matching(c, n, m, u[..], v[..], p[..], s.x.col)
    ensures s'.way == way[..] && s'.min == min[..] && s'.used == used[..]
    ensures used[..] == s.used[j0 := true]
  {
    used[j0] := true;
    ghost var joined := s.(used := s.used[j0 := true], rank := s.rank[j0 := t]);
    assert used[..] == joined.used;
    assert joined.Shape() by { Join(s, i, j0, t, joined); }
    var delta;
    delta, j1 := Scan(c, n, m, u, v, p, way, min, used, j0, joined);
    ghost var relaxed := joined.(way := way[..], min := min[..]);
    assert delta.Finite? && OwnsRows(relaxed) by { ScanOwns(s, i, j0, t, joined, relaxed, delta, j1); }
    Shift(n, m, u, v, p, min, used, delta.value, relaxed);
    s' := relaxed.(x := relaxed.x.(u := u[..], v := v[..]), min := min[..]);
    RoundEnds(s, i, j0, t, joined, relaxed, delta, j1, s');
  }

  lemma {:induction false} ScanOwns(s: Search, i: nat, j0: nat, t: nat, joined: Search, relaxed: Search, delta: Bound,
          j1: nat)
    requires s.At(i, j0, t) && s.x.p[j0] != 0 && s.x.n <= s.x.m
    requires joined == s.(used := s.used[j0 := true], rank := s.rank[j0 := t])
    requires Scanned(joined, j0, relaxed, delta, j1)
    ensures delta.Finite? && OwnsRows(relaxed)
  {
    ScanAdding(s, i, j0, t, joined, relaxed, delta, j1);
  }

  /** After a round the search stands at the column of least slack. */
  lemma {:induction false} RoundEnds(s: Search, i: nat, j0: nat, t: nat, joined: Search, relaxed: Search, delta: Bound,
          j1: nat, s': Search)
    requires s.At(i, j0, t) && s.x.p[j0] != 0 && s.x.n <= s.x.m
    requires joined == s.(used := s.used[j0 := true], rank := s.rank[j0 := t])
    requires Scanned(joined, j0, relaxed, delta, j1) && delta.Finite?
    requires Shifted(relaxed, delta.value, s')
    ensures s'.At(i, j1, t + 1)
  {
    assert s'.Adding(i) && s'.x.Feasible(i) by { RoundAdding(s, i, j0, t, joined, relaxed, delta, j1, s'); }
    LeastColumn(s, i, j0, t, joined, relaxed, delta, j1);
    RoundAt(relaxed, i, t + 1, delta.value, j1, s');
  }

  lemma {:induction false} LeastColumn(s: Search, i: nat, j0: nat, t: nat, joined: Search, relaxed: Search,
          delta: Bound,
          j1: nat)
    requires s.At(i, j0, t) && s.x.p[j0] != 0 && s.x.n <= s.x.m
    requires joined == s.(used := s.used[j0 := true], rank := s.rank[j0 := t])
    requires Scanned(joined, j0, relaxed, delta, j1) && delta.Finite?
    ensures relaxed.used[0] && 1 <= j1 <= relaxed.x.m && !relaxed.used[j1] && relaxed.min[j1] == delta
    ensures forall j | 0 <= j <= relaxed.x.m && relaxed.used[j] :: relaxed.rank[j] < t + 1
  {
    ScanAdding(s, i, j0, t, joined, relaxed, delta, j1);
  }

  /** While the matching is flipped along the path back to the root: column hole is waiting for the
      row of column way[hole], and tree columns of rank below bound still hold their own rows. */
  ghost predicate Flipping(s: Search, i: nat, x: Matching, hole: nat, bound: nat) {
    && s.Shape() && x == s.x.(p := x.p, col := x.col) && |x.p| == s.x.m + 1 && |x.col| == s.x.n + 1
    && i <= s.x.n && x.Inverse(i, hole) && x.Priced() && x.Tight(hole) && hole <= s.x.m
    && (hole != 0 ==> s.Hangs(hole) && s.rank[s.way[hole]] < bound)
    && (forall j | 0 <= j <= s.x.m && s.used[j] && s.rank[j] < bound :: j != hole && x.p[j] == s.x.p[j])
  }

  lemma {:induction false} FlipInverse(x: Matching, i: nat, hole: nat, prior: nat, x': Matching)
    requires x.Shape() && x.Inverse(i, hole) && hole <= x.m && prior <= x.m && prior != hole && x.p[prior] != 0
    requires x' == x.(p := x.p[hole := x.p[prior]], col := x.col[x.p[prior] := hole])
    ensures x'.Shape() && x'.Inverse(i, prior)
  {
  }

  lemma {:induction false} FlipTight(x: Matching, hole: nat, prior: nat, r: nat, x': Matching)
    requires x.Shape() && x.Tight(hole) && 1 <= hole <= x.m && prior <= x.m && 1 <= r <= x.n
    requires x.Slack(r, hole) == 0.0
    requires x' == x.(p := x.p[hole := r], col := x.col[r := hole])
    ensures x'.Tight(prior)
  {
    forall j | 1 <= j <= x.m && j != prior && 1 <= x'.p[j] <= x.n ensures x'.Slack(x'.p[j], j) == 0.0 {
      assert x'.Slack(x'.p[j], j) == x.Slack(x'.p[j], j);
    }
  }

  lemma {:induction false} Flip(s: Search, i: nat, x: Matching, hole: nat, bound: nat)
    requires s.Shape() && s.Tree() && Flipping(s, i, x, hole, bound) && hole != 0
    ensures var prior := s.way[hole];
      var r := s.x.p[prior];
      x.p[prior] == r && Flipping(s, i, x.(p := x.p[hole := r], col := x.col[r := hole]), prior, s.rank[prior])
  {
    var prior := s.way[hole];
    var r := s.x.p[prior];
    var x' := x.(p := x.p[hole := r], col := x.col[r := hole]);
    assert prior != 0 ==> s.Hangs(prior) && s.rank[s.way[prior]] < s.rank[prior];
    assert x.p[prior] == r && prior != hole;
    FlipInverse(x, i, hole, prior, x');
    assert x.Slack(r, hole) == s.x.Slack(r, hole);
    FlipTight(x, hole, prior, r, x');
    assert x'.Priced();
  }

  /** Moves every row on the path from j1 back to the root one column along, which matches row i. */
  method Augment(n: nat, m: nat, p: array<nat>, way: array<nat>, j1: nat, ghost s: Search, ghost i: nat)
    returns (ghost col: seq<nat>)
    requires p != way && s.Adding(i) && s.x.p == p[..] && s.way == way[..] && s.x.n == n && s.x.m == m
    requires 1 <= j1 <= m && !s.used[j1] && s.x.p[j1] == 0 && s.Hangs(j1)
    modifies p
    ensures var x := s.x.(p := p[..], col := col);
      |x.p| == m + 1 && |col| == n + 1 && x.Inverse(i, 0) && x.Priced() && x.Tight(0)
  {
    var j0 := j1;
    col := s.x.col;
    ghost var bound := s.rank[s.way[j1]] + 1;
    assert p[..] == s.x.p;
    while j0 != 0
      invariant Flipping(s, i, s.x.(p := p[..], col := col), j0, bound)
      decreases bound
    {
      var prior := way[j0];
      Flip(s, i, s.x.(p := p[..], col := col), j0, bound);
      p[j0] := p[prior];
      col := col[s.x.p[prior] := j0];
      bound := s.rank[prior];
      j0 := prior;
    }
  }

  /** Row i is parked at column 0 before its search starts. */
  lemma {:induction false} Park(x: Matching, i: nat, s: Search)
    requires 1 <= i <= x.n && x.Solved(i - 1)
    requires s.x == x.(p := x.p[0 := i], col := x.col[i := 0])
    requires |s.way| == |s.min| == |s.used| == |s.rank| == x.m + 1
    requires forall j | 0 <= j <= x.m :: !s.used[j] && s.min[j] == Infinite
    ensures s.At(i, 0, 0)
  {
    forall r, j | 1 <= r <= i - 1 && 1 <= j <= x.m ensures s.x.Slack(r, j) >= 0.0 {
      assert x.Slack(r, j) >= 0.0;
    }
    forall j | 1 <= j <= x.m && 1 <= x.p[j] <= x.n ensures s.x.Slack(x.p[j], j) == 0.0 {
      assert x.Slack(x.p[j], j) == 0.0;
    }
  }

  /** Grows the tree until it reaches an unmatched column. */
  method FindFree(c: Costs, n: nat, m: nat, u: array<real>, v: array<real>, p: array<nat>,
                  way: array<nat>, min: array<Bound>, used: array<bool>, ghost start: Search, ghost i: nat)
    returns (j0: nat, ghost s: Search)
    requires u != v && p != way && n <= m
    requires start.At(i, 0, 0)
    requires start.x == Matching(c, n, m, u[..], v[..], p[..], start.x.col)
    requires start.way == way[..] && start.min == min[..] && start.used == used[..]
    modifies u, v, way, min, used
    ensures s.x == Matching(c, n, m, u[..], v[..], p[..], start.x.col) && s.way == way[..]
    ensures s.Adding(i) && s.x.Feasible(i) && 1 <= j0 <= m && !s.used[j0] && s.x.p[j0] == 0 && s.Hangs(j0)
  {
    j0, s := 0, start;
    ghost var t := 0;
    while true
      invariant s.At(i, j0, t) && s.x.p[j0] != 0
      invariant s.x == Matching(c, n, m, u[..], v[..], p[..], start.x.col)
      invariant s.way == way[..] && s.min == min[..] && s.used == used[..]
      decreases Unused(s.used)
    {
      UnusedDrops(s.used, j0);
      j0, s := Grow(c, n, m, u, v, p, way, min, used, j0, s, i, t);
      t := t + 1;
      if p[j0] == 0 { break; }
    }
    assert s.Reached(j0);
  }

  lemma {:induction false} Settle(s: Search, i: nat, x: Matching)
    requires s.Adding(i) && s.x.Feasible(i) && x == s.x.(p := x.p, col := x.col)
    requires |x.p| == x.m + 1 && |x.col| == x.n + 1 && x.Inverse(i, 0) && x.Priced() && x.Tight(0)
    ensures x.Solved(i)
  {
    forall r, j | 1 <= r <= i && 1 <= j <= x.m ensures x.Slack(r, j) >= 0.0 {
      assert s.x.Slack(r, j) >= 0.0;
    }
  }

  /** Matches row i, keeping rows 1..i-1 matched at least cost. */
  method AddRow(c: Costs, n: nat, m: nat, u: array<real>, v: array<real>, p: array<nat>, way: array<nat>,
                i: nat, ghost before: Matching) returns (ghost after: Matching)
    requires u != v && p != way && way.Length == m + 1 && 1 <= i <= n <= m
    requires before == Matching(c, n, m, u[..], v[..], p[..], before.col) && before.Solved(i - 1)
    modifies u, v, p, way
    ensures after == Matching(c, n, m, u[..], v[..], p[..], after.col) && after.Solved(i)
  {
    p[0] := i;
    var min, used := new Bound[m + 1](_ => Infinite), new bool[m + 1](_ => false);
    ghost var start := Search(before.(p := before.p[0 := i], col := before.col[i := 0]), way[..], min[..], used[..],
      way[..]);
    assert p[..] == start.x.p;
    Park(before, i, start);
    var j0;
    ghost var s;
    j0, s := FindFree(c, n, m, u, v, p, way, min, used, start, i);
    ghost var col := Augment(n, m, p, way, j0, s, i);
    after := s.x.(p := p[..], col := col);
    Settle(s, i, after);
  }

  function Unused(used: seq<bool>): nat {
    if used == [] then 0 else Unused(used[..|used| - 1]) + (if used[|used| - 1] then 0 else 1)
  }

  lemma {:induction false} UnusedDrops(used: seq<bool>, j: nat)
    requires j < |used| && !used[j]
    ensures Unused(used[j := true]) == Unused(used) - 1
  {
    var last := |used| - 1;
    if j == last {
      assert used[j := true][..last] == used[..last];
    } else {
      assert used[j := true][..last] == used[..last][j := true];
      UnusedDrops(used[..last], j);
    }
  }

  /** Matches every row. */
  method Solve(c: Costs, n: nat, m: nat) returns (p: array<nat>, ghost x: Matching)
    requires IsTable(c, n, m) && n <= m
    ensures p.Length == m + 1 && x.Solved(n) && x.c == c && x.n == n && x.m == m && x.p == p[..]
  {
    var u, v := new real[n + 1](_ => 0.0), new real[m + 1](_ => 0.0);
    p := new nat[m + 1](_ => 0);
    var way := new nat[m + 1](_ => 0);
    x := Matching(c, n, m, u[..], v[..], p[..], seq(n + 1, _ => 0));
    var i := 1;
    while i <= n
      invariant 1 <= i <= n + 1
      invariant x == Matching(c, n, m, u[..], v[..], p[..], x.col) && x.Solved(i - 1)
    {
      x := AddRow(c, n, m, u, v, p, way, i, x);
      i := i + 1;
    }
  }

  /** A choice of a distinct column for every row; row r takes column choice[r - 1] + 1. */
  ghost predicate Choice(choice: seq<nat>, n: nat, m: nat) {
    |choice| == n && Distinct(choice) && forall r | 0 <= r < n :: choice[r] < m
  }

  ghost function ChoiceCosts(c: Costs, choice: seq<nat>): seq<real>
    requires |choice| == |c| && forall r | 0 <= r < |c| :: choice[r] < |c[r]|
  {
    seq(|c|, r requires 0 <= r < |c| => c[r][choice[r]])
  }

  /** The columns the matching gives to rows 1..n. */
  ghost function MatchedChoice(x: Matching): (choice: seq<nat>)
    requires x.Solved(x.n)
  {
    seq(x.n, r requires 0 <= r < x.n => (x.col[r + 1] - 1) as nat)
  }

  lemma {:induction false} MatchedChoiceIsChoice(x: Matching)
    requires x.Solved(x.n)
    ensures Choice(MatchedChoice(x), x.n, x.m)
  {
    forall a, b | 0 <= a < b < x.n ensures MatchedChoice(x)[a] != MatchedChoice(x)[b] {
      assert x.p[x.col[a + 1]] == a + 1 && x.p[x.col[b + 1]] == b + 1;
    }
  }

  lemma {:induction false} ChoiceAbovePrices(x: Matching, choice: seq<nat>)
    requires x.Solved(x.n) && Choice(choice, x.n, x.m)
    ensures Sum(ChoiceCosts(x.c, choice)) >= Sum(x.u[1..]) + Sum(x.v[1..])
  {
    var rows, cols := x.u[1..], x.v[1..];
    PickedSum(cols, choice);
    var least := seq(x.n, r requires 0 <= r < x.n => rows[r] + Picked(cols, choice)[r]);
    SumAdd(rows, Picked(cols, choice), least);
    forall r | 0 <= r < x.n ensures least[r] <= ChoiceCosts(x.c, choice)[r] {
      assert x.Slack(r + 1, choice[r] + 1) >= 0.0;
    }
    SumMonotone(least, ChoiceCosts(x.c, choice));
  }

  lemma {:induction false} UnmatchedColumnsAreFree(x: Matching)
    requires x.Solved(x.n)
    ensures forall j | 0 <= j < x.m :: j !in MatchedChoice(x) ==> x.v[1..][j] == 0.0
  {
    forall j | 0 <= j < x.m && x.p[j + 1] != 0 ensures j in MatchedChoice(x) {
      assert MatchedChoice(x)[x.p[j + 1] - 1] == j;
    }
  }

  /** A matched cell costs what its row and its column are priced at. */
  lemma {:induction false} MatchedCell(x: Matching, r: nat)
    requires x.Solved(x.n) && r < x.n
    ensures 1 <= x.col[r + 1] <= x.m && |x.c| == x.n && |x.c[r]| == x.m
    ensures MatchedChoice(x)[r] == x.col[r + 1] - 1 && x.c[r][MatchedChoice(x)[r]] == x.u[r + 1] + x.v[x.col[r + 1]]
  {
    assert x.Slack(x.p[x.col[r + 1]], x.col[r + 1]) == 0.0;
  }

  lemma {:induction false} MatchedCells(x: Matching, best: seq<nat>, rows: seq<real>, cols: seq<real>)
    requires x.Solved(x.n) && best == MatchedChoice(x) && Choice(best, x.n, x.m)
    requires rows == x.u[1..] && cols == x.v[1..]
    ensures |ChoiceCosts(x.c, best)| == |rows| == x.n == |Picked(cols, best)|
    ensures forall r | 0 <= r < x.n :: ChoiceCosts(x.c, best)[r] == rows[r] + Picked(cols, best)[r]
  {
    forall r | 0 <= r < x.n ensures ChoiceCosts(x.c, best)[r] == rows[r] + Picked(cols, best)[r] {
      MatchedCell(x, r);
    }
  }

  lemma {:induction false} MatchedMeetsPrices(x: Matching)
    requires x.Solved(x.n)
    ensures Choice(MatchedChoice(x), x.n, x.m)
    ensures Sum(ChoiceCosts(x.c, MatchedChoice(x))) == Sum(x.u[1..]) + Sum(x.v[1..])
  {
    var best := MatchedChoice(x);
    MatchedChoiceIsChoice(x);
    var rows, cols := x.u[1..], x.v[1..];
    assert Sum(Picked(cols, best)) == Sum(cols) by {
      UnmatchedColumnsAreFree(x);
      PickedSum(cols, best);
    }
    MatchedCells(x, best, rows, cols);
    SumAdd(rows, Picked(cols, best), ChoiceCosts(x.c, best));
  }

  /** Weak duality: no choice costs less than the matching. */
  lemma {:induction false} MatchedIsCheapest(x: Matching, choice: seq<nat>)
    requires x.Solved(x.n) && Choice(choice, x.n, x.m)
    ensures Choice(MatchedChoice(x), x.n, x.m)
    ensures Sum(ChoiceCosts(x.c, MatchedChoice(x))) <= Sum(ChoiceCosts(x.c, choice))
  {
    ChoiceAbovePrices(x, choice);
    MatchedMeetsPrices(x);
  }
}
