/** Fixed-window request counters shared by every limiter of a process. The windows are a map in the
    order of insertion; time does not go back. */
module RateLimit {
  import opened Basics
  import opened LeagueRules

  type Key = string

  const MAX_TRACKED_KEYS: nat := 20_000
  const SWEEP_MS := 60_000

  datatype Window = Window(key: Key, start: int, count: nat)
  datatype Table = Table(windows: seq<Window>, sweptAt: int)

  /** One budget a request is charged to. */
  datatype Scope = Scope(key: Key, max: nat)
  datatype Request = Request(scopes: seq<Scope>, windowMs: int, now: int)

  function Lookup(ws: seq<Window>, key: Key): (r: Option<Window>)
    ensures r.Some? ==> r.value in ws && r.value.key == key
    ensures r.None? ==> forall w | w in ws :: w.key != key
    decreases |ws|
  {
    if ws == [] then None else if ws[0].key == key then Some(ws[0]) else Lookup(ws[1..], key)
  }

  function Removed(ws: seq<Window>, key: Key): seq<Window>
    decreases |ws|
  {
    if ws == [] then [] else (if ws[0].key == key then [] else [ws[0]]) + Removed(ws[1..], key)
  }

  /** Setting a key that is present keeps its place. */
  function Put(ws: seq<Window>, w: Window): seq<Window>
    decreases |ws|
  {
    if ws == [] then [w] else if ws[0].key == w.key then [w] + ws[1..] else [ws[0]] + Put(ws[1..], w)
  }

  function Fresh(ws: seq<Window>, now: int, age: int): seq<Window>
    decreases |ws|
  {
    if ws == [] then [] else (if now - ws[0].start >= age then [] else [ws[0]]) + Fresh(ws[1..], now, age)
  }

  /** The oldest go first when there are too many. */
  function Capped(ws: seq<Window>): seq<Window> {
    if |ws| >= MAX_TRACKED_KEYS then ws[|ws| - MAX_TRACKED_KEYS + 1..] else ws
  }

  predicate SweepDue(t: Table, now: int) {
    now - t.sweptAt >= SWEEP_MS || |t.windows| >= MAX_TRACKED_KEYS
  }

  function Swept(t: Table, now: int, windowMs: int): Table {
    if !SweepDue(t, now) then t else Table(Capped(Fresh(t.windows, now, Max(windowMs, SWEEP_MS))), now)
  }

  predicate Renews(ws: seq<Window>, key: Key, windowMs: int, now: int) {
    var found := Lookup(ws, key);
    found.None? || now - found.value.start >= windowMs
  }

  /** The window a charge counts in, with the charge counted. */
  function Current(ws: seq<Window>, key: Key, windowMs: int, now: int): Window {
    if Renews(ws, key, windowMs, now) then Window(key, now, 1)
    else Lookup(ws, key).value.(count := Lookup(ws, key).value.count + 1)
  }

  function Charged(ws: seq<Window>, key: Key, windowMs: int, now: int): seq<Window> {
    var w := Current(ws, key, windowMs, now);
    if Renews(ws, key, windowMs, now) then Removed(ws, key) + [w] else Put(ws, w)
  }

  function ChargedAll(ws: seq<Window>, scopes: seq<Scope>, windowMs: int, now: int): seq<Window>
    decreases |scopes|
  {
    if scopes == [] then ws else ChargedAll(Charged(ws, scopes[0].key, windowMs, now), scopes[1..], windowMs, now)
  }

  /** Every scope is charged, and the request is admitted when none is exhausted. */
  predicate AllWithin(ws: seq<Window>, scopes: seq<Scope>, windowMs: int, now: int)
    decreases |scopes|
  {
    scopes == [] ||
    (Current(ws, scopes[0].key, windowMs, now).count <= scopes[0].max &&
     AllWithin(Charged(ws, scopes[0].key, windowMs, now), scopes[1..], windowMs, now))
  }

  function Next(t: Table, r: Request): Table {
    var swept := Swept(t, r.now, r.windowMs);
    swept.(windows := ChargedAll(swept.windows, r.scopes, r.windowMs, r.now))
  }

  predicate Admitted(t: Table, r: Request) {
    AllWithin(Swept(t, r.now, r.windowMs).windows, r.scopes, r.windowMs, r.now)
  }

  // ----- the limiter itself -----

  lemma {:induction false} FreshFrom(kept: seq<Window>, ws: seq<Window>, i: nat, now: int, age: int)
    requires i < |ws|
    ensures kept + Fresh(ws[i..], now, age) ==
      (if now - ws[i].start < age then kept + [ws[i]] else kept) + Fresh(ws[i + 1..], now, age)
  {
    assert ws[i..][1..] == ws[i + 1..];
    assert Fresh(ws[i..], now, age) == (if now - ws[i].start >= age then [] else [ws[i]]) +
      Fresh(ws[i + 1..], now, age);
  }

  method DropStale(ws: seq<Window>, now: int, age: int) returns (kept: seq<Window>)
    ensures kept == Fresh(ws, now, age)
  {
    kept := [];
    var i := 0;
    while i < |ws|
      invariant 0 <= i <= |ws|
      invariant Fresh(ws, now, age) == kept + Fresh(ws[i..], now, age)
    {
      FreshFrom(kept, ws, i, now, age);
      if now - ws[i].start < age {
        kept := kept + [ws[i]];
      }
      i := i + 1;
    }
  }

  class Limiter {
    var windows: seq<Window>
    var sweptAt: int

    function View(): Table
      reads this
    {
      Table(windows, sweptAt)
    }

    constructor ()
      ensures View() == Table([], 0)
    {
      windows, sweptAt := [], 0;
    }

    method Sweep(now: int, windowMs: int)
      modifies this
      ensures View() == Swept(old(View()), now, windowMs)
    {
      if now - sweptAt < SWEEP_MS && |windows| < MAX_TRACKED_KEYS {
        return;
      }
      sweptAt := now;
      var live := DropStale(windows, now, Max(windowMs, SWEEP_MS));
      windows := if |live| >= MAX_TRACKED_KEYS then live[|live| - MAX_TRACKED_KEYS + 1..] else live;
    }

    method Charge(now: int, key: Key, max: nat, windowMs: int) returns (exceeded: bool)
      modifies this`windows
      ensures windows == Charged(old(windows), key, windowMs, now)
      ensures exceeded <==> Current(old(windows), key, windowMs, now).count > max
    {
      var found := Lookup(windows, key);
      var value: Window;
      if found.None? || now - found.value.start >= windowMs {
        value := Window(key, now, 1);
        windows := Removed(windows, key) + [value];
      } else {
        value := found.value.(count := found.value.count + 1);
        windows := Put(windows, value);
      }
      exceeded := value.count > max;
    }

    method Handle(r: Request) returns (admitted: bool)
      modifies this
      ensures View() == Next(old(View()), r)
      ensures admitted <==> Admitted(old(View()), r)
    {
      Sweep(r.now, r.windowMs);
      ghost var swept := windows;
      admitted := true;
      var i := 0;
      while i < |r.scopes|
        invariant 0 <= i <= |r.scopes| && sweptAt == Swept(old(View()), r.now, r.windowMs).sweptAt
        invariant ChargedAll(swept, r.scopes, r.windowMs, r.now) ==
          ChargedAll(windows, r.scopes[i..], r.windowMs, r.now)
        invariant AllWithin(swept, r.scopes, r.windowMs, r.now) <==>
          admitted && AllWithin(windows, r.scopes[i..], r.windowMs, r.now)
      {
        var exceeded := Charge(r.now, r.scopes[i].key, r.scopes[i].max, r.windowMs);
        if exceeded {
          admitted := false;
        }
        i := i + 1;
      }
    }
  }

  // ----- what every request keeps -----

  /** Keys are unique, and the order of insertion is the order in which windows started. */
  ghost predicate Ordered(ws: seq<Window>, now: int) {
    && (forall i, j | 0 <= i < j < |ws| :: ws[i].key != ws[j].key && ws[i].start <= ws[j].start)
    && (forall i | 0 <= i < |ws| :: ws[i].start <= now)
  }

  lemma {:induction false} FreshMembers(ws: seq<Window>, now: int, age: int, w: Window)
    ensures w in Fresh(ws, now, age) <==> w in ws && now - w.start < age
    decreases |ws|
  {
    if ws != [] {
      FreshMembers(ws[1..], now, age, w);
      assert ws == [ws[0]] + ws[1..];
    }
  }

  lemma {:induction false} RemovedMembers(ws: seq<Window>, key: Key, w: Window)
    ensures w in Removed(ws, key) <==> w in ws && w.key != key
    decreases |ws|
  {
    if ws != [] {
      RemovedMembers(ws[1..], key, w);
      assert ws == [ws[0]] + ws[1..];
    }
  }

  ghost predicate Follows(first: Window, ws: seq<Window>) {
    forall w | w in ws :: w.key != first.key && first.start <= w.start
  }

  lemma {:induction false} OrderedTail(first: Window, ws: seq<Window>, now: int)
    requires Ordered([first] + ws, now)
    ensures first.start <= now && Follows(first, ws) && Ordered(ws, now)
  {
    var all := [first] + ws;
    assert all[0] == first;
    forall w | w in ws ensures w.key != first.key && first.start <= w.start {
      var i :| 0 <= i < |ws| && ws[i] == w;
      assert all[0].key != all[i + 1].key && all[0].start <= all[i + 1].start;
    }
    forall i, j | 0 <= i < j < |ws| ensures ws[i].key != ws[j].key && ws[i].start <= ws[j].start {
      assert all[i + 1].key != all[j + 1].key && all[i + 1].start <= all[j + 1].start;
    }
    forall i | 0 <= i < |ws| ensures ws[i].start <= now { assert all[i + 1].start <= now; }
  }

  lemma {:induction false} OrderedCons(first: Window, ws: seq<Window>, now: int)
    ensures Ordered([first] + ws, now) <==> first.start <= now && Follows(first, ws) && Ordered(ws, now)
  {
    if Ordered([first] + ws, now) { OrderedTail(first, ws, now); }
  }

  lemma {:induction false} FreshKeepsOrdered(ws: seq<Window>, now: int, age: int)
    requires Ordered(ws, now)
    ensures Ordered(Fresh(ws, now, age), now)
    decreases |ws|
  {
    if ws != [] {
      assert ws == [ws[0]] + ws[1..];
      OrderedCons(ws[0], ws[1..], now);
      FreshKeepsOrdered(ws[1..], now, age);
      forall w | w in Fresh(ws[1..], now, age) ensures w in ws[1..] { FreshMembers(ws[1..], now, age, w); }
      OrderedCons(ws[0], Fresh(ws[1..], now, age), now);
    }
  }

  lemma {:induction false} RemovedKeepsOrdered(ws: seq<Window>, key: Key, now: int)
    requires Ordered(ws, now)
    ensures Ordered(Removed(ws, key), now)
    decreases |ws|
  {
    if ws != [] {
      assert ws == [ws[0]] + ws[1..];
      OrderedCons(ws[0], ws[1..], now);
      RemovedKeepsOrdered(ws[1..], key, now);
      forall w | w in Removed(ws[1..], key) ensures w in ws[1..] { RemovedMembers(ws[1..], key, w); }
      OrderedCons(ws[0], Removed(ws[1..], key), now);
    }
  }

  lemma {:induction false} PutKeepsOrdered(ws: seq<Window>, w: Window, now: int)
    requires Ordered(ws, now) && Lookup(ws, w.key).Some? && w.start == Lookup(ws, w.key).value.start
    ensures Ordered(Put(ws, w), now) && |Put(ws, w)| == |ws|
    ensures forall x | x in Put(ws, w) :: x == w || (x in ws && x.key != w.key)
    decreases |ws|
  {
    assert ws == [ws[0]] + ws[1..];
    OrderedCons(ws[0], ws[1..], now);
    if ws[0].key == w.key {
      OrderedCons(w, ws[1..], now);
    } else {
      PutKeepsOrdered(ws[1..], w, now);
      OrderedCons(ws[0], Put(ws[1..], w), now);
    }
  }

  lemma {:induction false} ChargedKeepsOrdered(ws: seq<Window>, key: Key, windowMs: int, now: int)
    requires Ordered(ws, now)
    ensures Ordered(Charged(ws, key, windowMs, now), now)
  {
    if Renews(ws, key, windowMs, now) {
      RemovedKeepsOrdered(ws, key, now);
      var rest := Removed(ws, key);
      forall i | 0 <= i < |rest| ensures rest[i].key != key { RemovedMembers(ws, key, rest[i]); }
    } else {
      PutKeepsOrdered(ws, Current(ws, key, windowMs, now), now);
    }
  }

  lemma {:induction false} ChargedAllKeepsOrdered(ws: seq<Window>, scopes: seq<Scope>, windowMs: int, now: int)
    requires Ordered(ws, now)
    ensures Ordered(ChargedAll(ws, scopes, windowMs, now), now)
    decreases |scopes|
  {
    if scopes != [] {
      ChargedKeepsOrdered(ws, scopes[0].key, windowMs, now);
      ChargedAllKeepsOrdered(Charged(ws, scopes[0].key, windowMs, now), scopes[1..], windowMs, now);
    }
  }

  lemma {:induction false} SweptKeepsOrdered(t: Table, now: int, windowMs: int)
    requires Ordered(t.windows, now)
    ensures Ordered(Swept(t, now, windowMs).windows, now)
  {
    FreshKeepsOrdered(t.windows, now, Max(windowMs, SWEEP_MS));
  }

  /** Times do not go back. */
  predicate Timely(from: int, rs: seq<Request>)
    decreases |rs|
  {
    rs == [] || (from <= rs[0].now && Timely(rs[0].now, rs[1..]))
  }

  function NextAll(t: Table, rs: seq<Request>): Table
    decreases |rs|
  {
    if rs == [] then t else NextAll(Next(t, rs[0]), rs[1..])
  }

  /** Whatever requests come, with whatever windows, sweeps and caps, the table's order stays the order in
      which its windows started: that is what makes dropping from the front drop the oldest. */
  lemma {:induction false} OrderIsByStart(t: Table, from: int, rs: seq<Request>)
    requires Ordered(t.windows, from) && Timely(from, rs)
    ensures Ordered(NextAll(t, rs).windows, if rs == [] then from else rs[|rs| - 1].now)
    decreases |rs|
  {
    if rs != [] {
      NextKeepsOrdered(t, from, rs[0]);
      OrderIsByStart(Next(t, rs[0]), rs[0].now, rs[1..]);
    }
  }

  lemma {:induction false} CappedDropsOldest(ws: seq<Window>, now: int, kept: Window, dropped: Window)
    requires Ordered(ws, now) && kept in Capped(ws) && dropped in ws && dropped !in Capped(ws)
    ensures dropped.start <= kept.start
  {
    var cut := |ws| - |Capped(ws)|;
    assert ws[cut..] == Capped(ws);
    var j :| 0 <= j < |Capped(ws)| && Capped(ws)[j] == kept;
    var i :| 0 <= i < |ws| && ws[i] == dropped;
    forall n | cut <= n < |ws| ensures ws[n] in Capped(ws) { assert ws[cut..][n - cut] == ws[n]; }
    assert ws[cut + j] == kept;
  }

  lemma {:induction false} FreshIsShorter(ws: seq<Window>, now: int, age: int)
    ensures |Fresh(ws, now, age)| <= |ws|
    decreases |ws|
  {
    if ws != [] { FreshIsShorter(ws[1..], now, age); }
  }

  lemma {:induction false} ChargedGrowsByOne(ws: seq<Window>, key: Key, windowMs: int, now: int)
    ensures |Charged(ws, key, windowMs, now)| <= |ws| + 1
  {
    RemovedIsShorter(ws, key);
    PutGrowsByOne(ws, Current(ws, key, windowMs, now));
  }

  lemma {:induction false} RemovedIsShorter(ws: seq<Window>, key: Key)
    ensures |Removed(ws, key)| <= |ws|
    decreases |ws|
  {
    if ws != [] { RemovedIsShorter(ws[1..], key); }
  }

  lemma {:induction false} PutGrowsByOne(ws: seq<Window>, w: Window)
    ensures |Put(ws, w)| <= |ws| + 1
    decreases |ws|
  {
    if ws != [] { PutGrowsByOne(ws[1..], w); }
  }

  lemma {:induction false} ChargedAllGrows(ws: seq<Window>, scopes: seq<Scope>, windowMs: int, now: int)
    ensures |ChargedAll(ws, scopes, windowMs, now)| <= |ws| + |scopes|
    decreases |scopes|
  {
    if scopes != [] {
      ChargedGrowsByOne(ws, scopes[0].key, windowMs, now);
      ChargedAllGrows(Charged(ws, scopes[0].key, windowMs, now), scopes[1..], windowMs, now);
    }
  }

  /** No caller can grow the table: after any request it is below the cap but for that request's own keys. */
  lemma {:induction false} TableStaysSmall(t: Table, r: Request)
    ensures |Next(t, r).windows| < MAX_TRACKED_KEYS + |r.scopes|
  {
    FreshIsShorter(t.windows, r.now, Max(r.windowMs, SWEEP_MS));
    ChargedAllGrows(Swept(t, r.now, r.windowMs).windows, r.scopes, r.windowMs, r.now);
  }

  // ----- how many requests a budget admits -----

  /** An admitted request: when its window started, and when it came. */
  datatype Admission = Admission(start: int, time: int)

  function AdmittedNow(t: Table, r: Request, key: Key): seq<Admission> {
    var after := Lookup(Next(t, r).windows, key);
    if ChargesFrom(r, 0, key) && Admitted(t, r) && after.Some? then [Admission(after.value.start, r.now)] else []
  }

  /** The admitted requests of a run that were charged to one key. */
  function Admissions(t: Table, rs: seq<Request>, key: Key): seq<Admission>
    decreases |rs|
  {
    if rs == [] then [] else AdmittedNow(t, rs[0], key) + Admissions(Next(t, rs[0]), rs[1..], key)
  }

  /** The key always has the same budget and window, and no request is charged twice to one key. */
  ghost predicate Budgeted(r: Request, key: Key, max: nat, windowMs: int) {
    && (forall i, j | 0 <= i < j < |r.scopes| :: r.scopes[i].key != r.scopes[j].key)
    && (forall i | 0 <= i < |r.scopes| && r.scopes[i].key == key :: r.scopes[i].max == max && r.windowMs == windowMs)
  }

  /** The request's sweep does not remove the key's window while it is still counting. */
  predicate Spares(t: Table, r: Request, key: Key, windowMs: int) {
    var found := Lookup(t.windows, key);
    found.Some? && r.now - found.value.start < windowMs ==> Lookup(Swept(t, r.now, r.windowMs).windows, key) == found
  }

  ghost predicate Undisturbed(t: Table, rs: seq<Request>, key: Key, windowMs: int)
    decreases |rs|
  {
    rs == [] || (Spares(t, rs[0], key, windowMs) && Undisturbed(Next(t, rs[0]), rs[1..], key, windowMs))
  }

  function CountStart(h: seq<Admission>, start: int): nat
    decreases |h|
  {
    if h == [] then 0 else (if h[0].start == start then 1 else 0) + CountStart(h[1..], start)
  }

  /** How many came in the half-open interval of a length. */
  function CountIn(h: seq<Admission>, from: int, length: int): nat
    decreases |h|
  {
    if h == [] then 0 else (if from <= h[0].time < from + length then 1 else 0) + CountIn(h[1..], from, length)
  }

  /** A history of admissions falls into windows that do not overlap, none over the budget. */
  ghost predicate InWindows(h: seq<Admission>, max: nat, windowMs: int) {
    && (forall i | 0 <= i < |h| :: h[i].start <= h[i].time < h[i].start + windowMs)
    && (forall i, j | 0 <= i < j < |h| :: h[i].start == h[j].start || h[i].start + windowMs <= h[j].start)
    && (forall s :: CountStart(h, s) <= max)
  }

  /** The table agrees with the history: uncounted is how much the window has counted beyond it. */
  ghost predicate Agrees(found: Option<Window>, h: seq<Admission>, now: int, windowMs: int, uncounted: nat) {
    match found
    case None => forall i | 0 <= i < |h| :: h[i].start + windowMs <= now
    case Some(w) =>
      && w.start <= now && CountStart(h, w.start) + uncounted <= w.count
      && forall i | 0 <= i < |h| :: h[i].start == w.start || h[i].start + windowMs <= w.start
  }

  lemma {:induction false} CountStartAppend(h: seq<Admission>, a: Admission, start: int)
    ensures CountStart(h + [a], start) == CountStart(h, start) + if a.start == start then 1 else 0
    decreases |h|
  {
    if h == [] {
      assert h + [a] == [a];
    } else {
      assert (h + [a])[1..] == h[1..] + [a];
      CountStartAppend(h[1..], a, start);
    }
  }

  lemma {:induction false} CountStartNone(h: seq<Admission>, start: int)
    requires forall i | 0 <= i < |h| :: h[i].start != start
    ensures CountStart(h, start) == 0
    decreases |h|
  {
    if h != [] { CountStartNone(h[1..], start); }
  }

  lemma {:induction false} RemovedLookup(ws: seq<Window>, w: Window, key: Key)
    ensures Lookup(Removed(ws, w.key) + [w], key) == if key == w.key then Some(w) else Lookup(ws, key)
    decreases |ws|
  {
    if ws == [] {
      assert Removed(ws, w.key) + [w] == [w];
    } else {
      RemovedLookup(ws[1..], w, key);
      if ws[0].key != w.key {
        assert (Removed(ws, w.key) + [w])[1..] == Removed(ws[1..], w.key) + [w];
        assert (Removed(ws, w.key) + [w])[0] == ws[0];
      } else {
        assert Removed(ws, w.key) == Removed(ws[1..], w.key);
      }
    }
  }

  lemma {:induction false} PutLookup(ws: seq<Window>, w: Window, key: Key)
    ensures Lookup(Put(ws, w), key) == if key == w.key then Some(w) else Lookup(ws, key)
    decreases |ws|
  {
    if ws != [] {
      PutLookup(ws[1..], w, key);
      assert ws[0].key != w.key ==> Put(ws, w)[1..] == Put(ws[1..], w);
      assert ws[0].key == w.key ==> Put(ws, w)[1..] == ws[1..];
    }
  }

  lemma {:induction false} ChargedLookup(ws: seq<Window>, charged: Key, windowMs: int, now: int, key: Key)
    ensures Lookup(Charged(ws, charged, windowMs, now), key) ==
      if key == charged then Some(Current(ws, key, windowMs, now)) else Lookup(ws, key)
  {
    RemovedLookup(ws, Current(ws, charged, windowMs, now), key);
    PutLookup(ws, Current(ws, charged, windowMs, now), key);
  }

  predicate ChargesFrom(r: Request, n: nat, key: Key) {
    exists i | n <= i < |r.scopes| :: r.scopes[i].key == key
  }

  lemma {:induction false} ChargesFromNext(r: Request, n: nat, key: Key)
    requires n < |r.scopes|
    ensures ChargesFrom(r, n, key) <==> r.scopes[n].key == key || ChargesFrom(r, n + 1, key)
  {
  }

  lemma {:induction false} ChargedOnce(r: Request, n: nat, key: Key, max: nat, windowMs: int)
    requires Budgeted(r, key, max, windowMs) && n < |r.scopes| && r.scopes[n].key == key
    ensures !ChargesFrom(r, n + 1, key)
  {
  }

  lemma {:induction false} ChargedAllFrom(ws: seq<Window>, r: Request, n: nat)
    requires n < |r.scopes|
    ensures ChargedAll(ws, r.scopes[n..], r.windowMs, r.now) ==
      ChargedAll(Charged(ws, r.scopes[n].key, r.windowMs, r.now), r.scopes[n + 1..], r.windowMs, r.now)
  {
    assert r.scopes[n..][1..] == r.scopes[n + 1..];
  }

  lemma {:induction false} SameWindow(ws: seq<Window>, ws': seq<Window>, key: Key, windowMs: int, now: int)
    requires Lookup(ws', key) == Lookup(ws, key)
    ensures Current(ws', key, windowMs, now) == Current(ws, key, windowMs, now)
  {
  }

  /** Of all the charges of a request only the one to this key matters to it. */
  lemma {:induction false} ChargedAllLookup(ws: seq<Window>, r: Request, n: nat, key: Key, max: nat, windowMs: int)
    requires Budgeted(r, key, max, windowMs) && n <= |r.scopes|
    ensures Lookup(ChargedAll(ws, r.scopes[n..], r.windowMs, r.now), key) ==
      if ChargesFrom(r, n, key) then Some(Current(ws, key, windowMs, r.now)) else Lookup(ws, key)
    decreases |r.scopes| - n
  {
    if n < |r.scopes| {
      var charged := r.scopes[n].key;
      var ws' := Charged(ws, charged, r.windowMs, r.now);
      ChargedAllFrom(ws, r, n);
      ChargedLookup(ws, charged, r.windowMs, r.now, key);
      ChargesFromNext(r, n, key);
      ChargedAllLookup(ws', r, n + 1, key, max, windowMs);
      if charged == key {
        ChargedOnce(r, n, key, max, windowMs);
      } else {
        SameWindow(ws, ws', key, windowMs, r.now);
      }
    }
  }

  lemma {:induction false} AdmittedWithin(ws: seq<Window>, r: Request, n: nat, key: Key, max: nat, windowMs: int)
    requires Budgeted(r, key, max, windowMs) && n <= |r.scopes|
    requires ChargesFrom(r, n, key) && AllWithin(ws, r.scopes[n..], r.windowMs, r.now)
    ensures Current(ws, key, windowMs, r.now).count <= max
    decreases |r.scopes| - n
  {
    var scope := r.scopes[n];
    assert r.scopes[n..][1..] == r.scopes[n + 1..];
    ChargedLookup(ws, scope.key, r.windowMs, r.now, key);
    ChargesFromNext(r, n, key);
    if scope.key != key {
      AdmittedWithin(Charged(ws, scope.key, r.windowMs, r.now), r, n + 1, key, max, windowMs);
    }
  }

  function IfFresh(found: Option<Window>, now: int, age: int): Option<Window> {
    if found.Some? && now - found.value.start < age then found else None
  }

  lemma {:induction false} FreshLookup(ws: seq<Window>, now: int, age: int, key: Key)
    requires Ordered(ws, now)
    ensures Lookup(Fresh(ws, now, age), key) == IfFresh(Lookup(ws, key), now, age)
    decreases |ws|
  {
    if ws != [] {
      var rest := Fresh(ws[1..], now, age);
      assert ws == [ws[0]] + ws[1..];
      OrderedTail(ws[0], ws[1..], now);
      LookupCons(ws[0], rest, key);
      if ws[0].key == key {
        forall w | w in rest ensures w.key != key { FreshMembers(ws[1..], now, age, w); }
        NoLookup(rest, key);
      } else {
        FreshLookup(ws[1..], now, age, key);
      }
      assert Fresh(ws, now, age) == if now - ws[0].start < age then [ws[0]] + rest else rest;
    }
  }

  lemma {:induction false} LookupCons(first: Window, ws: seq<Window>, key: Key)
    ensures Lookup([first] + ws, key) == if first.key == key then Some(first) else Lookup(ws, key)
  {
    assert ([first] + ws)[1..] == ws;
  }

  lemma {:induction false} NoLookup(ws: seq<Window>, key: Key)
    requires forall w | w in ws :: w.key != key
    ensures Lookup(ws, key).None?
  {
  }

  lemma {:induction false} UniqueLookup(ws: seq<Window>, now: int, w: Window)
    requires Ordered(ws, now) && w in ws
    ensures Lookup(ws, w.key) == Some(w)
  {
    var i :| 0 <= i < |ws| && ws[i] == w;
    var found := Lookup(ws, w.key).value;
    var j :| 0 <= j < |ws| && ws[j] == found;
  }

  /** Sweeping only ever removes windows. */
  lemma {:induction false} SweptLookup(t: Table, now: int, windowMs: int, key: Key)
    requires Ordered(t.windows, now)
    ensures var left := Lookup(Swept(t, now, windowMs).windows, key); left.Some? ==> left == Lookup(t.windows, key)
  {
    var left := Lookup(Swept(t, now, windowMs).windows, key);
    if left.Some? && SweepDue(t, now) {
      FreshMembers(t.windows, now, Max(windowMs, SWEEP_MS), left.value);
      UniqueLookup(t.windows, now, left.value);
    }
  }

  lemma {:induction false} SweepAgrees(t: Table, h: seq<Admission>, before: int, r: Request, key: Key, windowMs: int)
    requires Ordered(t.windows, before) && Agrees(Lookup(t.windows, key), h, before, windowMs, 0) && before <= r.now
    requires Spares(t, r, key, windowMs) && 0 < windowMs
    ensures Agrees(Lookup(Swept(t, r.now, r.windowMs).windows, key), h, r.now, windowMs, 0)
  {
    SweptLookup(t, r.now, r.windowMs, key);
  }

  lemma {:induction false} ChargeAgrees(ws: seq<Window>, h: seq<Admission>, now: int, key: Key, windowMs: int)
    requires Agrees(Lookup(ws, key), h, now, windowMs, 0) && 0 < windowMs
    ensures var w := Current(ws, key, windowMs, now);
      Agrees(Some(w), h, now, windowMs, 1) && w.start <= now < w.start + windowMs
  {
    if Renews(ws, key, windowMs, now) { CountStartNone(h, now); }
  }

  lemma {:induction false} AdmissionAgrees(h: seq<Admission>, w: Window, now: int, max: nat, windowMs: int)
    requires InWindows(h, max, windowMs) && Agrees(Some(w), h, now, windowMs, 1)
    requires w.start <= now < w.start + windowMs && w.count <= max
    ensures var h' := h + [Admission(w.start, now)];
      InWindows(h', max, windowMs) && Agrees(Some(w), h', now, windowMs, 0)
  {
    forall s ensures CountStart(h + [Admission(w.start, now)], s) == CountStart(h, s) + if w.start == s then 1 else 0 {
      CountStartAppend(h, Admission(w.start, now), s);
    }
  }

  ghost predicate AllBudgeted(rs: seq<Request>, key: Key, max: nat, windowMs: int) {
    forall i | 0 <= i < |rs| :: Budgeted(rs[i], key, max, windowMs)
  }

  lemma {:induction false} NextKeepsOrdered(t: Table, from: int, r: Request)
    requires Ordered(t.windows, from) && from <= r.now
    ensures Ordered(Next(t, r).windows, r.now)
  {
    assert Ordered(t.windows, r.now);
    SweptKeepsOrdered(t, r.now, r.windowMs);
    ChargedAllKeepsOrdered(Swept(t, r.now, r.windowMs).windows, r.scopes, r.windowMs, r.now);
  }

  lemma {:induction false} RequestKeepsWindows(t: Table, from: int, h: seq<Admission>, r: Request, key: Key, max: nat,
          windowMs: int)
    requires 0 < windowMs && from <= r.now && Budgeted(r, key, max, windowMs) && Spares(t, r, key, windowMs)
    requires Ordered(t.windows, from) && InWindows(h, max, windowMs) &&
      Agrees(Lookup(t.windows, key), h, from, windowMs, 0)
    ensures var h' := h + AdmittedNow(t, r, key);
      InWindows(h', max, windowMs) && Agrees(Lookup(Next(t, r).windows, key), h', r.now, windowMs, 0)
  {
    var ws := Swept(t, r.now, r.windowMs).windows;
    assert Ordered(t.windows, r.now);
    SweepAgrees(t, h, from, r, key, windowMs);
    assert r.scopes[0..] == r.scopes;
    ChargedAllLookup(ws, r, 0, key, max, windowMs);
    if ChargesFrom(r, 0, key) {
      ChargeAgrees(ws, h, r.now, key, windowMs);
      if Admitted(t, r) {
        AdmittedWithin(ws, r, 0, key, max, windowMs);
        AdmissionAgrees(h, Current(ws, key, windowMs, r.now), r.now, max, windowMs);
      }
    }
    if AdmittedNow(t, r, key) == [] {
      assert h + AdmittedNow(t, r, key) == h;
    }
  }

  /** All that is asked of a run, request by request. */
  ghost predicate Fair(t: Table, rs: seq<Request>, from: int, key: Key, max: nat, windowMs: int)
    decreases |rs|
  {
    rs == [] ||
    (from <= rs[0].now && Budgeted(rs[0], key, max, windowMs) && Spares(t, rs[0], key, windowMs) &&
     Fair(Next(t, rs[0]), rs[1..], rs[0].now, key, max, windowMs))
  }

  lemma {:induction false} IsFair(t: Table, rs: seq<Request>, from: int, key: Key, max: nat, windowMs: int)
    requires Timely(from, rs) && AllBudgeted(rs, key, max, windowMs) && Undisturbed(t, rs, key, windowMs)
    ensures Fair(t, rs, from, key, max, windowMs)
    decreases |rs|
  {
    if rs != [] { IsFair(Next(t, rs[0]), rs[1..], rs[0].now, key, max, windowMs); }
  }

  /** Along every such run the admitted requests of a key fall into separate windows, none holding more
      than the budget. */
  lemma {:induction false} AdmissionsInWindows(t: Table, rs: seq<Request>, from: int, h: seq<Admission>, key: Key,
          max: nat, windowMs: int)
    requires 0 < windowMs && Fair(t, rs, from, key, max, windowMs)
    requires Ordered(t.windows, from) && InWindows(h, max, windowMs) &&
      Agrees(Lookup(t.windows, key), h, from, windowMs, 0)
    ensures InWindows(h + Admissions(t, rs, key), max, windowMs)
    decreases |rs|
  {
    if rs == [] {
      assert h + Admissions(t, rs, key) == h;
    } else {
      var h', t' := h + AdmittedNow(t, rs[0], key), Next(t, rs[0]);
      NextKeepsOrdered(t, from, rs[0]);
      RequestKeepsWindows(t, from, h, rs[0], key, max, windowMs);
      AdmissionsInWindows(t', rs[1..], rs[0].now, h', key, max, windowMs);
      Regroup(h, AdmittedNow(t, rs[0], key), Admissions(t', rs[1..], key));
    }
  }

  lemma Regroup(a: seq<Admission>, b: seq<Admission>, c: seq<Admission>)
    ensures a + (b + c) == (a + b) + c
  {
  }

  /** Requests in an interval no longer than a window come from two windows at most. */
  lemma {:induction false} TwoWindows(h: seq<Admission>, from: int, length: int, a: int, b: int)
    requires forall i | 0 <= i < |h| && from <= h[i].time < from + length :: h[i].start == a || h[i].start == b
    ensures CountIn(h, from, length) <= CountStart(h, a) + CountStart(h, b)
    decreases |h|
  {
    if h != [] { TwoWindows(h[1..], from, length, a, b); }
  }

  lemma {:induction false} OnlyTwoWindows(h: seq<Admission>, max: nat, windowMs: int, from: int, i: nat, j: nat, k: nat)
    requires InWindows(h, max, windowMs) && i < |h| && j < |h| && k < |h|
    requires from <= h[i].time < from + windowMs && from <= h[j].time < from + windowMs &&
      from <= h[k].time < from + windowMs
    ensures h[k].start == h[i].start || h[k].start == h[j].start || h[i].start == h[j].start
  {
  }

  lemma {:induction false} AtMostTwice(h: seq<Admission>, max: nat, windowMs: int, from: int)
    requires InWindows(h, max, windowMs)
    ensures CountIn(h, from, windowMs) <= 2 * max
  {
    if i: nat :| i < |h| && from <= h[i].time < from + windowMs {
      var a, b := h[i].start, h[i].start;
      if j: nat :| j < |h| && from <= h[j].time < from + windowMs && h[j].start != a {
        b := h[j].start;
        forall k: nat | k < |h| && from <= h[k].time < from + windowMs ensures h[k].start == a || h[k].start == b {
          OnlyTwoWindows(h, max, windowMs, from, i, j, k);
        }
      }
      TwoWindows(h, from, windowMs, a, b);
    } else {
      NoneIn(h, from, windowMs);
    }
  }

  lemma {:induction false} NoneIn(h: seq<Admission>, from: int, length: int)
    requires forall i | 0 <= i < |h| :: !(from <= h[i].time < from + length)
    ensures CountIn(h, from, length) == 0
    decreases |h|
  {
    if h != [] { NoneIn(h[1..], from, length); }
  }

  /** Over every run, from an empty table, that never sweeps the key's live window: any interval as long as
      the window admits at most twice the budget. */
  lemma {:induction false} AtMostTwiceTheBudget(rs: seq<Request>, from: int, key: Key, max: nat, windowMs: int,
          since: int)
    requires 0 < windowMs && Timely(from, rs) && AllBudgeted(rs, key, max, windowMs)
    requires Undisturbed(Table([], 0), rs, key, windowMs)
    ensures CountIn(Admissions(Table([], 0), rs, key), since, windowMs) <= 2 * max
  {
    var h := Admissions(Table([], 0), rs, key);
    IsFair(Table([], 0), rs, from, key, max, windowMs);
    AdmissionsInWindows(Table([], 0), rs, from, [], key, max, windowMs);
    assert [] + h == h;
    AtMostTwice(h, max, windowMs, since);
  }

  /** What keeps a live window from being swept: fewer keys than the cap, and no window longer than both a
      minute and the window of a limiter that sweeps. */
  ghost predicate Roomy(t: Table, rs: seq<Request>, windowMs: int)
    decreases |rs|
  {
    rs == [] ||
    (&& |Fresh(t.windows, rs[0].now, Max(rs[0].windowMs, SWEEP_MS))| < MAX_TRACKED_KEYS
     && windowMs <= Max(rs[0].windowMs, SWEEP_MS)
     && Roomy(Next(t, rs[0]), rs[1..], windowMs))
  }

  lemma {:induction false} RoomyIsUndisturbed(t: Table, rs: seq<Request>, from: int, key: Key, windowMs: int)
    requires Ordered(t.windows, from) && Timely(from, rs) && Roomy(t, rs, windowMs)
    ensures Undisturbed(t, rs, key, windowMs)
    decreases |rs|
  {
    if rs != [] {
      var r := rs[0];
      assert Ordered(t.windows, r.now);
      FreshLookup(t.windows, r.now, Max(r.windowMs, SWEEP_MS), key);
      NextKeepsOrdered(t, from, r);
      RoomyIsUndisturbed(Next(t, r), rs[1..], r.now, key, windowMs);
    }
  }

  // ----- when a request is refused -----

  function CountKey(scopes: seq<Scope>, key: Key): nat
    decreases |scopes|
  {
    if scopes == [] then 0
    else CountKey(scopes[..|scopes| - 1], key) + (if scopes[|scopes| - 1].key == key then 1 else 0)
  }

  /** How often a run charged a key from a time on, refused requests included. */
  function Charges(rs: seq<Request>, key: Key, since: int): nat
    decreases |rs|
  {
    if rs == [] then 0
    else
      var last := rs[|rs| - 1];
      Charges(rs[..|rs| - 1], key, since) + (if since <= last.now then CountKey(last.scopes, key) else 0)
  }

  lemma {:induction false} ChargesSinceEarlier(rs: seq<Request>, key: Key, since: int, earlier: int)
    requires earlier <= since
    ensures Charges(rs, key, since) <= Charges(rs, key, earlier)
    decreases |rs|
  {
    if rs != [] {
      ChargesSinceEarlier(rs[..|rs| - 1], key, since, earlier);
    }
  }

  lemma {:induction false} ChargesMore(rs: seq<Request>, r: Request, key: Key, since: int)
    requires since <= r.now
    ensures Charges(rs + [r], key, since) == Charges(rs, key, since) + CountKey(r.scopes, key)
  {
    assert (rs + [r])[..|rs|] == rs;
  }

  lemma {:induction false} CountKeyMore(scopes: seq<Scope>, s: Scope, key: Key)
    ensures CountKey(scopes + [s], key) == CountKey(scopes, key) + (if s.key == key then 1 else 0)
  {
    assert (scopes + [s])[..|scopes|] == scopes;
  }

  /** No window has counted more than the charges there were since it started. */
  ghost predicate Covered(ws: seq<Window>, rs: seq<Request>, scopes: seq<Scope>) {
    forall w | w in ws :: w.count <= Charges(rs, w.key, w.start) + CountKey(scopes, w.key)
  }

  lemma {:induction false} SweptMembers(t: Table, now: int, windowMs: int, w: Window)
    ensures w in Swept(t, now, windowMs).windows ==> w in t.windows
  {
    FreshMembers(t.windows, now, Max(windowMs, SWEEP_MS), w);
  }

  lemma {:induction false} ChargedMembers(ws: seq<Window>, key: Key, windowMs: int, now: int, w: Window)
    requires Ordered(ws, now) && w in Charged(ws, key, windowMs, now)
    ensures w == Current(ws, key, windowMs, now) || (w in ws && w.key != key)
  {
    if Renews(ws, key, windowMs, now) {
      RemovedMembers(ws, key, w);
    } else {
      PutKeepsOrdered(ws, Current(ws, key, windowMs, now), now);
    }
  }

  lemma {:induction false} ChargingCovers(ws: seq<Window>, rs: seq<Request>, scopes: seq<Scope>, s: Scope,
          windowMs: int, now: int)
    requires Ordered(ws, now) && Covered(ws, rs, scopes)
    ensures Covered(Charged(ws, s.key, windowMs, now), rs, scopes + [s])
    ensures var w := Current(ws, s.key, windowMs, now);
      w.count <= Charges(rs, s.key, w.start) + CountKey(scopes + [s], s.key)
  {
    forall w | w in Charged(ws, s.key, windowMs, now) || w == Current(ws, s.key, windowMs, now)
      ensures w.count <= Charges(rs, w.key, w.start) + CountKey(scopes + [s], w.key)
    {
      CountKeyMore(scopes, s, w.key);
      if w != Current(ws, s.key, windowMs, now) {
        ChargedMembers(ws, s.key, windowMs, now, w);
      }
    }
  }

  lemma {:induction false} CountKeyPrefix(scopes: seq<Scope>, n: nat, key: Key)
    requires n <= |scopes|
    ensures CountKey(scopes[..n], key) <= CountKey(scopes, key)
    decreases |scopes|
  {
    if n == |scopes| {
      assert scopes[..n] == scopes;
    } else {
      var front := scopes[..|scopes| - 1];
      CountKeyPrefix(front, n, key);
      assert front[..n] == scopes[..n];
    }
  }

  /** The key of the i-th scope was charged more often than the scope's budget. */
  ghost predicate Overcharged(rs: seq<Request>, scopes: seq<Scope>, i: nat, since: int)
    requires i < |scopes|
  {
    scopes[i].max < Charges(rs, scopes[i].key, since) + CountKey(scopes, scopes[i].key)
  }

  ghost predicate SomeOvercharged(rs: seq<Request>, scopes: seq<Scope>, since: int) {
    exists i: nat :: i < |scopes| && Overcharged(rs, scopes, i, since)
  }

  /** A scope over its budget was charged that often since its window started, which is within the window. */
  lemma {:induction false} OverBudget(ws: seq<Window>, rs: seq<Request>, scopes: seq<Scope>, i: nat, windowMs: int,
          now: int)
    requires i < |scopes| && 0 < windowMs && Ordered(ws, now) && Covered(ws, rs, scopes[..i])
    requires Current(ws, scopes[i].key, windowMs, now).count > scopes[i].max
    ensures Overcharged(rs, scopes, i, now - windowMs + 1)
  {
    var s := scopes[i];
    var w := Current(ws, s.key, windowMs, now);
    ChargingCovers(ws, rs, scopes[..i], s, windowMs, now);
    assert scopes[..i] + [s] == scopes[..i + 1];
    assert w.start > now - windowMs;
    ChargesSinceEarlier(rs, s.key, w.start, now - windowMs + 1);
    CountKeyPrefix(scopes, i + 1, s.key);
  }

  lemma {:induction false} NextCovers(ws: seq<Window>, rs: seq<Request>, scopes: seq<Scope>, i: nat, windowMs: int,
          now: int)
    requires i < |scopes| && Ordered(ws, now) && Covered(ws, rs, scopes[..i])
    ensures Covered(Charged(ws, scopes[i].key, windowMs, now), rs, scopes[..i + 1])
    ensures Ordered(Charged(ws, scopes[i].key, windowMs, now), now)
    ensures scopes[i..][0] == scopes[i] && scopes[i..][1..] == scopes[i + 1..]
  {
    ChargingCovers(ws, rs, scopes[..i], scopes[i], windowMs, now);
    ChargedKeepsOrdered(ws, scopes[i].key, windowMs, now);
    assert scopes[..i] + [scopes[i]] == scopes[..i + 1];
  }

  lemma {:induction false} AllCovered(ws: seq<Window>, rs: seq<Request>, scopes: seq<Scope>, i: nat, windowMs: int,
          now: int)
    requires i <= |scopes| && Ordered(ws, now) && Covered(ws, rs, scopes[..i])
    ensures Covered(ChargedAll(ws, scopes[i..], windowMs, now), rs, scopes)
    decreases |scopes| - i
  {
    if i == |scopes| {
      assert scopes[..i] == scopes;
    } else {
      NextCovers(ws, rs, scopes, i, windowMs, now);
      AllCovered(Charged(ws, scopes[i].key, windowMs, now), rs, scopes, i + 1, windowMs, now);
    }
  }

  lemma {:induction false} RefusalOvercharges(ws: seq<Window>, rs: seq<Request>, scopes: seq<Scope>, i: nat,
          windowMs: int, now: int)
    requires i <= |scopes| && 0 < windowMs && Ordered(ws, now) && Covered(ws, rs, scopes[..i])
    requires !AllWithin(ws, scopes[i..], windowMs, now)
    ensures SomeOvercharged(rs, scopes, now - windowMs + 1)
    decreases |scopes| - i
  {
    NextCovers(ws, rs, scopes, i, windowMs, now);
    if Current(ws, scopes[i].key, windowMs, now).count > scopes[i].max {
      OverBudget(ws, rs, scopes, i, windowMs, now);
    } else {
      RefusalOvercharges(Charged(ws, scopes[i].key, windowMs, now), rs, scopes, i + 1, windowMs, now);
    }
  }

  lemma {:induction false} SweptCovers(t: Table, rs: seq<Request>, now: int, windowMs: int)
    requires Covered(t.windows, rs, [])
    ensures Covered(Swept(t, now, windowMs).windows, rs, [])
  {
    forall w | w in Swept(t, now, windowMs).windows ensures w in t.windows { SweptMembers(t, now, windowMs, w); }
  }

  lemma {:induction false} RecordedCovers(ws: seq<Window>, rs: seq<Request>, r: Request)
    requires Ordered(ws, r.now) && Covered(ws, rs, r.scopes)
    ensures Covered(ws, rs + [r], [])
  {
    forall w | w in ws ensures w.count <= Charges(rs + [r], w.key, w.start) + CountKey([], w.key) {
      ChargesMore(rs, r, w.key, w.start);
    }
  }

  lemma {:induction false} SweptStands(t: Table, rs: seq<Request>, r: Request, from: int)
    requires Ordered(t.windows, from) && from <= r.now && Covered(t.windows, rs, [])
    ensures var ws := Swept(t, r.now, r.windowMs).windows;
      Ordered(ws, r.now) && Covered(ws, rs, r.scopes[..0]) && r.scopes[0..] == r.scopes
  {
    assert Ordered(t.windows, r.now);
    SweptKeepsOrdered(t, r.now, r.windowMs);
    SweptCovers(t, rs, r.now, r.windowMs);
    assert r.scopes[..0] == [];
  }

  lemma {:induction false} RequestCovers(t: Table, rs: seq<Request>, r: Request, from: int)
    requires Ordered(t.windows, from) && from <= r.now && Covered(t.windows, rs, [])
    ensures Covered(Next(t, r).windows, rs + [r], [])
  {
    SweptStands(t, rs, r, from);
    AllCovered(Swept(t, r.now, r.windowMs).windows, rs, r.scopes, 0, r.windowMs, r.now);
    NextKeepsOrdered(t, from, r);
    RecordedCovers(Next(t, r).windows, rs, r);
  }

  lemma {:induction false} RefusedIsOvercharged(t: Table, rs: seq<Request>, r: Request, from: int)
    requires 0 < r.windowMs && Ordered(t.windows, from) && from <= r.now && Covered(t.windows, rs, [])
    requires !Admitted(t, r)
    ensures SomeOvercharged(rs, r.scopes, r.now - r.windowMs + 1)
  {
    SweptStands(t, rs, r, from);
    RefusalOvercharges(Swept(t, r.now, r.windowMs).windows, rs, r.scopes, 0, r.windowMs, r.now);
  }

  lemma {:induction false} RunCovers(t: Table, done: seq<Request>, rs: seq<Request>, from: int)
    requires Ordered(t.windows, from) && Timely(from, rs) && Covered(t.windows, done, [])
    requires forall i | 0 <= i < |rs| :: 0 < rs[i].windowMs
    ensures Covered(NextAll(t, rs).windows, done + rs, [])
    decreases |rs|
  {
    if rs == [] {
      assert done + rs == done;
    } else {
      RequestCovers(t, done, rs[0], from);
      NextKeepsOrdered(t, from, rs[0]);
      RunCovers(Next(t, rs[0]), done + [rs[0]], rs[1..], rs[0].now);
      assert done + [rs[0]] + rs[1..] == done + rs;
    }
  }

  /** Over every run, whatever sweeps and other limiters do: a request is refused only if the key of one of its
      scopes was charged more often than that scope's budget within the last window, the request's own charges
      included. */
  lemma {:induction false} RefusedOnlyWhenExhausted(rs: seq<Request>, from: int, r: Request)
    requires Timely(from, rs) && (forall i | 0 <= i < |rs| :: 0 < rs[i].windowMs) && 0 < r.windowMs
    requires (if rs == [] then from else rs[|rs| - 1].now) <= r.now
    requires !Admitted(NextAll(Table([], 0), rs), r)
    ensures SomeOvercharged(rs, r.scopes, r.now - r.windowMs + 1)
  {
    var t := NextAll(Table([], 0), rs);
    RunCovers(Table([], 0), [], rs, from);
    assert [] + rs == rs;
    OrderIsByStart(Table([], 0), from, rs);
    RefusedIsOvercharged(t, rs, r, if rs == [] then from else rs[|rs| - 1].now);
  }

  // ----- when a sweep ends a live window -----

  /** How many windows there are from a key's own to the newest. */
  function FromKey(ws: seq<Window>, key: Key): nat
    decreases |ws|
  {
    if ws == [] then 0 else if ws[0].key == key then |ws| else FromKey(ws[1..], key)
  }

  lemma {:induction false} FromKeyBound(ws: seq<Window>, key: Key)
    ensures FromKey(ws, key) <= |ws|
    ensures FromKey(ws, key) > 0 <==> Lookup(ws, key).Some?
    decreases |ws|
  {
    if ws != [] { FromKeyBound(ws[1..], key); }
  }

  lemma {:induction false} SuffixLookup(ws: seq<Window>, n: nat, key: Key, now: int)
    requires n <= |ws| && Ordered(ws, now)
    ensures Lookup(ws[n..], key) == if FromKey(ws, key) <= |ws| - n then Lookup(ws, key) else None
    decreases |ws|
  {
    FromKeyBound(ws, key);
    if n == 0 {
      assert ws[0..] == ws;
    } else {
      assert ws == [ws[0]] + ws[1..];
      assert ws[n..] == ws[1..][n - 1..];
      OrderedTail(ws[0], ws[1..], now);
      SuffixLookup(ws[1..], n - 1, key, now);
      FromKeyBound(ws[1..], key);
      if ws[0].key == key {
        NoLookup(ws[1..], key);
      }
    }
  }

  lemma {:induction false} CappedLookup(ws: seq<Window>, key: Key, now: int)
    requires Ordered(ws, now)
    ensures Lookup(Capped(ws), key) == if FromKey(ws, key) < MAX_TRACKED_KEYS then Lookup(ws, key) else None
  {
    FromKeyBound(ws, key);
    if |ws| >= MAX_TRACKED_KEYS {
      SuffixLookup(ws, |ws| - MAX_TRACKED_KEYS + 1, key, now);
    }
  }

  /** A request leaves a key's live window alone exactly when no sweep is due, or the window is younger than
      both a minute and the sweeping limiter's own window allow and near enough to the newest. */
  lemma {:induction false} SparesExactly(t: Table, r: Request, key: Key, windowMs: int)
    requires Ordered(t.windows, r.now) && Lookup(t.windows, key).Some?
    requires r.now - Lookup(t.windows, key).value.start < windowMs
    ensures Spares(t, r, key, windowMs) <==>
      !SweepDue(t, r.now) ||
      (&& r.now - Lookup(t.windows, key).value.start < Max(r.windowMs, SWEEP_MS)
       && FromKey(Fresh(t.windows, r.now, Max(r.windowMs, SWEEP_MS)), key) < MAX_TRACKED_KEYS)
  {
    var age := Max(r.windowMs, SWEEP_MS);
    FreshKeepsOrdered(t.windows, r.now, age);
    FreshLookup(t.windows, r.now, age, key);
    CappedLookup(Fresh(t.windows, r.now, age), key, r.now);
  }

  // ----- mixed windows -----

  const QUARTER_HOUR := 15 * 60_000

  /** A request charged once to key, whose window is a quarter of an hour and whose budget is 1; and, a
      minute later, one charged elsewhere by a limiter whose window is a minute. */
  function SlowRequest(key: Key, at: int): Request {
    Request([Scope(key, 1)], QUARTER_HOUR, at)
  }

  function QuickRequest(other: Key, at: int): Request {
    Request([Scope(other, 1)], SWEEP_MS, at)
  }

  /** n rounds of both, one just over a minute after the other. */
  function Rounds(key: Key, other: Key, n: nat, at: int): seq<Request> {
    if n == 0 then []
    else
      [SlowRequest(key, at), QuickRequest(other, at + SWEEP_MS)] + Rounds(key, other, n - 1, at + SWEEP_MS + 1)
  }

  lemma {:induction false} ChargeOne(ws: seq<Window>, key: Key, max: nat, windowMs: int, now: int)
    ensures ChargedAll(ws, [Scope(key, max)], windowMs, now) == Charged(ws, key, windowMs, now)
    ensures AllWithin(ws, [Scope(key, max)], windowMs, now) <==> Current(ws, key, windowMs, now).count <= max
  {
    assert [Scope(key, max)][1..] == [];
  }

  lemma {:induction false} SlowAdmits(t: Table, key: Key, at: int)
    requires Ordered(t.windows, at) && Lookup(t.windows, key).None? && t.sweptAt <= at
    ensures AdmittedNow(t, SlowRequest(key, at), key) == [Admission(at, at)]
    ensures Lookup(Next(t, SlowRequest(key, at)).windows, key) == Some(Window(key, at, 1))
    ensures Ordered(Next(t, SlowRequest(key, at)).windows, at) && Next(t, SlowRequest(key, at)).sweptAt <= at
  {
    var r := SlowRequest(key, at);
    var ws := Swept(t, at, QUARTER_HOUR).windows;
    SweptLookup(t, at, QUARTER_HOUR, key);
    ChargeOne(ws, key, 1, QUARTER_HOUR, at);
    ChargedLookup(ws, key, QUARTER_HOUR, at, key);
    NextKeepsOrdered(t, at, r);
    assert r.scopes[0].key == key;
  }

  lemma {:induction false} QuickSweeps(t: Table, key: Key, other: Key, at: int)
    requires Ordered(t.windows, at) && Lookup(t.windows, key) == Some(Window(key, at, 1)) && t.sweptAt <= at &&
      key != other
    ensures var r := QuickRequest(other, at + SWEEP_MS);
      AdmittedNow(t, r, key) == [] && Lookup(Next(t, r).windows, key).None? && Next(t, r).sweptAt == at + SWEEP_MS
      && Ordered(Next(t, r).windows, at + SWEEP_MS)
  {
    var now := at + SWEEP_MS;
    var left := Fresh(t.windows, now, SWEEP_MS);
    FreshKeepsOrdered(t.windows, now, SWEEP_MS);
    FreshLookup(t.windows, now, SWEEP_MS, key);
    CappedLookup(left, key, now);
    var ws := Swept(t, now, SWEEP_MS).windows;
    ChargeOne(ws, other, 1, SWEEP_MS, now);
    ChargedLookup(ws, other, SWEEP_MS, now, key);
    NextKeepsOrdered(t, now, QuickRequest(other, now));
  }

  lemma {:induction false} AdmissionsCons(t: Table, r: Request, rest: seq<Request>, key: Key)
    ensures Admissions(t, [r] + rest, key) == AdmittedNow(t, r, key) + Admissions(Next(t, r), rest, key)
  {
    assert ([r] + rest)[1..] == rest;
  }

  /** A table that has no window for the key, nor a sweep in its future. */
  ghost predicate Clear(t: Table, key: Key, at: int) {
    Ordered(t.windows, at) && Lookup(t.windows, key).None? && t.sweptAt <= at
  }

  lemma {:induction false} RoundClears(t: Table, key: Key, other: Key, at: int)
    requires Clear(t, key, at) && key != other
    ensures Clear(Next(Next(t, SlowRequest(key, at)), QuickRequest(other, at + SWEEP_MS)), key, at + SWEEP_MS + 1)
  {
    SlowAdmits(t, key, at);
    QuickSweeps(Next(t, SlowRequest(key, at)), key, other, at);
  }

  lemma {:induction false} OneRound(t: Table, key: Key, other: Key, at: int, rest: seq<Request>) returns (t': Table)
    requires Clear(t, key, at) && key != other
    ensures Admissions(t, [SlowRequest(key, at), QuickRequest(other, at + SWEEP_MS)] + rest, key) ==
      [Admission(at, at)] + Admissions(t', rest, key)
    ensures Clear(t', key, at + SWEEP_MS + 1)
  {
    var slow, quick := SlowRequest(key, at), QuickRequest(other, at + SWEEP_MS);
    t' := Next(Next(t, slow), quick);
    RoundClears(t, key, other, at);
    assert AdmittedNow(t, slow, key) == [Admission(at, at)] && AdmittedNow(Next(t, slow), quick, key) == [] by {
      SlowAdmits(t, key, at);
      QuickSweeps(Next(t, slow), key, other, at);
    }
    TwoAdmissions(t, slow, quick, rest, key);
  }

  lemma {:induction false} TwoAdmissions(t: Table, r: Request, r': Request, rest: seq<Request>, key: Key)
    ensures Admissions(t, [r, r'] + rest, key) ==
      AdmittedNow(t, r, key) + (AdmittedNow(Next(t, r), r', key) + Admissions(Next(Next(t, r), r'), rest, key))
  {
    assert [r, r'] + rest == [r] + ([r'] + rest);
    AdmissionsCons(t, r, [r'] + rest, key);
    AdmissionsCons(Next(t, r), r', rest, key);
  }

  /** h are n admissions, one just over a minute after the other. */
  ghost predicate EveryMinute(h: seq<Admission>, n: nat, at: int) {
    |h| == n && forall i | 0 <= i < n :: h[i].time == at + i * (SWEEP_MS + 1)
  }

  lemma {:induction false} EveryMinuteCons(h: seq<Admission>, n: nat, at: int)
    requires EveryMinute(h, n, at + SWEEP_MS + 1)
    ensures EveryMinute([Admission(at, at)] + h, n + 1, at)
  {
  }

  /** Windows of different lengths do not mix: each round's quick request sweeps away the slow one's window,
      so n rounds admit n requests under a budget of one. */
  lemma {:induction false} MixedWindowsExceed(t: Table, key: Key, other: Key, n: nat, at: int)
    requires Clear(t, key, at) && key != other
    ensures EveryMinute(Admissions(t, Rounds(key, other, n, at), key), n, at)
    decreases n
  {
    if n != 0 {
      var next := at + SWEEP_MS + 1;
      var rest := Rounds(key, other, n - 1, next);
      var t' := OneRound(t, key, other, at, rest);
      MixedWindowsExceed(t', key, other, n - 1, next);
      EveryMinuteCons(Admissions(t', rest, key), n - 1, at);
    }
  }

  lemma {:induction false} AllIn(h: seq<Admission>, from: int, length: int)
    requires forall i | 0 <= i < |h| :: from <= h[i].time < from + length
    ensures CountIn(h, from, length) == |h|
    decreases |h|
  {
    if h != [] { AllIn(h[1..], from, length); }
  }

  /** So a limiter meant to admit one request in a quarter of an hour admits fourteen. */
  lemma {:induction false} FourteenInsteadOfOne(key: Key, other: Key)
    requires key != other
    ensures CountIn(Admissions(Table([], 0), Rounds(key, other, 14, SWEEP_MS), key), SWEEP_MS, QUARTER_HOUR) == 14
  {
    MixedWindowsExceed(Table([], 0), key, other, 14, SWEEP_MS);
    AllIn(Admissions(Table([], 0), Rounds(key, other, 14, SWEEP_MS), key), SWEEP_MS, QUARTER_HOUR);
  }
}
