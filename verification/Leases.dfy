/** Expiring leases, as the store's serialized writes change them. Times are milliseconds. */
module Leases {
  import opened LeagueRules

  /** What a lease is on. Each kind's keys begin with text of their own, so keys of different kinds differ. */
  datatype Key = Publish(league: string) | LeagueJob(leagueId: string) | Sweep | PlayerList
  type Owner = string

  datatype Lease = Lease(owner: Owner, acquiredAt: int, expiresAt: int)

  type LeaseTable = map<Key, Lease>

  predicate LiveAt(leases: LeaseTable, key: Key, now: int) {
    key in leases && leases[key].expiresAt > now
  }

  predicate Blocked(leases: LeaseTable, key: Key, owner: Owner, now: int) {
    LiveAt(leases, key, now) && leases[key].owner != owner
  }

  /** The lease an owner gets: a renewal of a live lease keeps the time it was first acquired. */
  function Granted(leases: LeaseTable, key: Key, owner: Owner, ttl: int, now: int): Lease {
    var since := if LiveAt(leases, key, now) && leases[key].owner == owner then leases[key].acquiredAt else now;
    Lease(owner, since, now + ttl)
  }

  function Acquired(leases: LeaseTable, key: Key, owner: Owner, ttl: int, now: int): LeaseTable {
    if Blocked(leases, key, owner, now) then leases else leases[key := Granted(leases, key, owner, ttl, now)]
  }

  function Released(leases: LeaseTable, key: Key, owner: Owner): LeaseTable {
    if key in leases && leases[key].owner == owner then leases - {key} else leases
  }

  /** The condition a guarded publication checks. */
  predicate GuardHolds(leases: LeaseTable, key: Key, owner: Owner, now: int) {
    key in leases && leases[key].owner == owner && leases[key].expiresAt > now
  }

  /** Once its owner gives a lease back, anybody is granted it at once; given back by anyone else it stays. */
  lemma {:induction false} ReleaseFrees(leases: LeaseTable, key: Key, owner: Owner, other: Owner, ttl: int, now: int)
    requires key in leases && leases[key].owner == owner
    ensures var after := Acquired(Released(leases, key, owner), key, other, ttl, now);
      key in after && after[key] == Lease(other, now, now + ttl)
    ensures other != owner ==> Released(leases, key, other) == leases
    ensures forall k | k in leases && k != key ::
      k in Released(leases, key, owner) && Released(leases, key, owner)[k] == leases[k]
  {
  }

  /** Acquiring grants the lease for its time from now exactly unless another owner's is live; a live lease of
      one's own keeps the time it was first acquired. */
  lemma {:induction false} AcquiringGrants(leases: LeaseTable, key: Key, owner: Owner, ttl: int, now: int)
    ensures var after := Acquired(leases, key, owner, ttl, now);
      if key in leases && leases[key].owner != owner && now < leases[key].expiresAt then after == leases
      else
        && key in after && after.Keys == leases.Keys + {key} &&
          (forall k | k in leases && k != key :: after[k] == leases[k])
        && after[key].owner == owner && after[key].expiresAt == now + ttl
        && after[key].acquiredAt == (
          if key in leases && now < leases[key].expiresAt then leases[key].acquiredAt else now)
  {
  }

  // ----- operations on leases by any owner, in any order -----

  datatype LeaseOp =
    | Acquire(key: Key, owner: Owner, ttl: int, now: int)
    | Release(key: Key, owner: Owner)

  function Apply(leases: LeaseTable, op: LeaseOp): LeaseTable {
    match op
    case Acquire(key, owner, ttl, now) => Acquired(leases, key, owner, ttl, now)
    case Release(key, owner) => Released(leases, key, owner)
  }

  function ApplyAll(leases: LeaseTable, ops: seq<LeaseOp>): LeaseTable
    decreases |ops|
  {
    if ops == [] then leases else ApplyAll(Apply(leases, ops[0]), ops[1..])
  }

  /** Operations that leave a holder's lease alone: other owners' operations whose clock has not reached
      its expiry. */
  ghost predicate Respects(ops: seq<LeaseOp>, owner: Owner, expiresAt: int) {
    forall i | 0 <= i < |ops| :: ops[i].owner != owner && (ops[i].Acquire? ==> ops[i].now < expiresAt)
  }

  /** Until it expires, a lease is exclusive: nothing other owners do can take it or end it. */
  lemma {:induction false} HeldUntilExpiry(leases: LeaseTable, key: Key, ops: seq<LeaseOp>)
    requires key in leases && Respects(ops, leases[key].owner, leases[key].expiresAt)
    ensures key in ApplyAll(leases, ops) && ApplyAll(leases, ops)[key] == leases[key]
    decreases |ops|
  {
    if ops != [] {
      var next := Apply(leases, ops[0]);
      assert key in next && next[key] == leases[key];
      HeldUntilExpiry(next, key, ops[1..]);
    }
  }
}
