/** Finite sums over sequences, and sums along an injective choice of indices. */
module Sums {
  import opened Basics

  function Sum(s: seq<real>): real {
    if s == [] then 0.0 else Sum(s[..|s| - 1]) + s[|s| - 1]
  }

  lemma {:induction false} SumUpdate(s: seq<real>, k: nat, x: real)
    requires k < |s|
    ensures Sum(s[k := x]) == Sum(s) - s[k] + x
  {
    var last := |s| - 1;
    if k == last {
      assert s[k := x][..last] == s[..last];
    } else {
      assert s[k := x][..last] == s[..last][k := x];
      SumUpdate(s[..last], k, x);
    }
  }

  lemma {:induction false} SumMonotone(s: seq<real>, t: seq<real>)
    requires |s| == |t|
    requires forall k | 0 <= k < |s| :: s[k] <= t[k]
    ensures Sum(s) <= Sum(t)
  {
    if s != [] {
      SumMonotone(s[..|s| - 1], t[..|t| - 1]);
    }
  }

  lemma {:induction false} SumAdd(s: seq<real>, t: seq<real>, r: seq<real>)
    requires |s| == |t| == |r|
    requires forall k | 0 <= k < |s| :: r[k] == s[k] + t[k]
    ensures Sum(r) == Sum(s) + Sum(t)
  {
    if s != [] {
      SumAdd(s[..|s| - 1], t[..|t| - 1], r[..|r| - 1]);
    }
  }

  function SumOver<X>(xs: seq<X>, g: X -> real): real
    decreases |xs|
  {
    if xs == [] then 0.0 else g(xs[0]) + SumOver(xs[1..], g)
  }

  lemma {:induction false} SumOverEqual<X>(xs: seq<X>, g: X -> real, h: X -> real)
    requires forall x | x in xs :: g(x) == h(x)
    ensures SumOver(xs, g) == SumOver(xs, h)
    decreases |xs|
  {
    if xs != [] {
      assert xs[0] in xs && forall x | x in xs[1..] :: x in xs;
      SumOverEqual(xs[1..], g, h);
    }
  }

  /** k times x, written as repeated addition so that proofs stay linear. */
  function Times(k: nat, x: real): real {
    if k == 0 then 0.0 else Times(k - 1, x) + x
  }

  lemma {:induction false} TimesIsProduct(k: nat, x: real)
    ensures Times(k, x) == k as real * x
  {
    if k != 0 {
      TimesIsProduct(k - 1, x);
    }
  }

  lemma {:induction false} TimesGrows(f: nat, g: nat, x: real)
    requires f < g && x >= 0.0
    ensures Times(g, x) >= Times(f, x) + x
  {
    if f < g - 1 {
      TimesGrows(f, g - 1, x);
    }
  }

  lemma {:induction false} TimesBound(k: nat, x: real)
    requires x >= 0.0
    ensures Times(k, x) >= 0.0
  {
    if k != 0 {
      TimesBound(k - 1, x);
    }
  }

  lemma {:induction false} SumConstant(s: seq<real>, x: real)
    requires forall k | 0 <= k < |s| :: s[k] == x
    ensures Sum(s) == Times(|s|, x)
  {
    if s != [] {
      SumConstant(s[..|s| - 1], x);
    }
  }

  lemma {:induction false} SumZero(s: seq<real>)
    requires forall k | 0 <= k < |s| :: s[k] == 0.0
    ensures Sum(s) == 0.0
  {
    if s != [] {
      SumZero(s[..|s| - 1]);
    }
  }

  ghost predicate Distinct(choice: seq<nat>) {
    forall a, b | 0 <= a < b < |choice| :: choice[a] != choice[b]
  }

  ghost function Picked(v: seq<real>, choice: seq<nat>): seq<real>
    requires forall k | 0 <= k < |choice| :: choice[k] < |v|
  {
    seq(|choice|, k requires 0 <= k < |choice| => v[choice[k]])
  }

  lemma {:induction false} SumNonpositive(v: seq<real>)
    requires forall j | 0 <= j < |v| :: v[j] <= 0.0
    ensures Sum(v) <= 0.0
    decreases |v|
  {
    if v != [] {
      SumNonpositive(v[..|v| - 1]);
    }
  }

  /** Every entry left out by the choice is zero. */
  ghost predicate RestZero(v: seq<real>, choice: seq<nat>) {
    forall j: nat | j < |v| && j !in choice :: v[j] == 0.0
  }

  lemma {:induction false} RestZeroDrop(v: seq<real>, choice: seq<nat>)
    requires choice != [] && choice[|choice| - 1] < |v| && RestZero(v, choice)
    ensures RestZero(v[choice[|choice| - 1] := 0.0], choice[..|choice| - 1])
  {
    var last := |choice| - 1;
    forall j: nat | j < |v| && j !in choice[..last] && j != choice[last] ensures j !in choice {
      assert choice == choice[..last] + [choice[last]];
    }
  }

  /** Picking distinct entries of a nonpositive vector cannot go below the total; it meets the total
      when every entry left out is zero. */
  lemma {:induction false} PickedSum(v: seq<real>, choice: seq<nat>)
    requires forall k | 0 <= k < |choice| :: choice[k] < |v|
    requires Distinct(choice)
    requires forall j | 0 <= j < |v| :: v[j] <= 0.0
    ensures Sum(Picked(v, choice)) >= Sum(v)
    ensures RestZero(v, choice) ==> Sum(Picked(v, choice)) == Sum(v)
    decreases |choice|
  {
    if choice == [] {
      SumNonpositive(v);
      if RestZero(v, choice) {
        SumZero(v);
      }
    } else {
      var last := |choice| - 1;
      var w := v[choice[last] := 0.0];
      SumUpdate(v, choice[last], 0.0);
      PickedSum(w, choice[..last]);
      assert Picked(v, choice)[..last] == Picked(w, choice[..last]);
      if RestZero(v, choice) {
        RestZeroDrop(v, choice);
      }
    }
  }

  function Interval(n: nat): (r: set<nat>)
    ensures forall k: nat :: k in r <==> 1 <= k <= n
    ensures |r| == n
  {
    if n == 0 then {} else Interval(n - 1) + {n}
  }

  function Elements<T(==,!new)>(s: seq<T>): (r: set<T>)
    ensures forall x :: x in r <==> x in s
    ensures |r| <= |s|
  {
    if s == [] then {} else Elements(s[..|s| - 1]) + {s[|s| - 1]}
  }

  lemma {:induction false} Pigeonhole(s: seq<nat>, n: nat)
    requires forall k: nat | 1 <= k <= n :: k in s
    ensures n <= |s|
  {
    SubsetSize(Interval(n), Elements(s));
  }
}
