/** Arithmetic and set facts used throughout. */
module Basics {
  function Max(a: int, b: int): int {
    if a >= b then a else b
  }

  function Min(a: int, b: int): int {
    if a <= b then a else b
  }

  /** Rounding to the nearest whole number, halves upwards. */
  function Round(x: real): int {
    (x + 0.5).Floor
  }

  lemma {:induction false} RoundIsNearest(x: real)
    ensures -0.5 <= x - Round(x) as real < 0.5
  {
  }

  lemma {:induction false} RoundIsMonotone(x: real, y: real)
    requires x <= y
    ensures Round(x) <= Round(y)
  {
  }

  lemma {:induction false} RoundFixesWhole(n: int)
    ensures Round(n as real) == n
  {
  }

  lemma {:induction false} SubsetSize<T>(a: set<T>, b: set<T>)
    requires a <= b
    ensures |a| <= |b|
  {
    assert a + (b - a) == b;
  }

  // ----- filtering -----

  function Keep<T>(s: seq<T>, p: T -> bool): seq<T>
    decreases |s|
  {
    if s == [] then [] else (if p(s[0]) then [s[0]] else []) + Keep(s[1..], p)
  }

  lemma {:induction false} KeepHas<T>(s: seq<T>, p: T -> bool, x: T)
    ensures x in Keep(s, p) <==> x in s && p(x)
    decreases |s|
  {
    if s != [] {
      KeepHas(s[1..], p, x);
      assert s == [s[0]] + s[1..];
    }
  }

  lemma {:induction false} KeepIsShorter<T>(s: seq<T>, p: T -> bool)
    ensures |Keep(s, p)| <= |s|
    decreases |s|
  {
    if s != [] {
      KeepIsShorter(s[1..], p);
    }
  }

  lemma {:induction false} KeepCons<T>(x: T, s: seq<T>, p: T -> bool)
    ensures Keep([x] + s, p) == if p(x) then [x] + Keep(s, p) else Keep(s, p)
  {
    assert ([x] + s)[1..] == s;
  }

  lemma {:induction false} KeepFirst<T>(s: seq<T>, p: T -> bool)
    requires s != []
    ensures Keep(s, p) == if p(s[0]) then [s[0]] + Keep(s[1..], p) else Keep(s[1..], p)
  {
  }

  lemma {:induction false} KeepTwice<T>(s: seq<T>, p: T -> bool, r: T -> bool)
    ensures Keep(Keep(s, p), r) == Keep(Keep(s, r), p)
    decreases |s|
  {
    if s != [] {
      KeepTwice(s[1..], p, r);
      KeepFirst(s, p);
      KeepFirst(s, r);
      KeepCons(s[0], Keep(s[1..], p), r);
      KeepCons(s[0], Keep(s[1..], r), p);
    }
  }

  lemma {:induction false} KeepBoth<T(!new)>(s: seq<T>, p: T -> bool, r: T -> bool, both: T -> bool)
    requires forall x: T :: both(x) == (p(x) && r(x))
    ensures Keep(Keep(s, p), r) == Keep(s, both)
    decreases |s|
  {
    if s != [] {
      KeepBoth(s[1..], p, r, both);
      KeepFirst(s, p);
      KeepCons(s[0], Keep(s[1..], p), r);
    }
  }

  lemma {:induction false} KeepAll<T(!new)>(s: seq<T>, p: T -> bool)
    requires forall x: T :: p(x)
    ensures Keep(s, p) == s
    decreases |s|
  {
    if s != [] { KeepAll(s[1..], p); }
  }
}
