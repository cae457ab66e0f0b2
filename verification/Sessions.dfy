/** Login sessions: rotation inside a family, sliding idle expiry under one absolute deadline, revocation
    and pruning. Ids and families are fresh values; times and policies are milliseconds. */
module Sessions {
  import opened Basics
  import opened LeagueRules

  type SessionId = string
  type FamilyId = string
  type UserId = string

  datatype Policy = Policy(absoluteMs: int, idleMs: int, rotateMs: int, graceMs: int, touchMs: int)

  /** What every configuration the server accepts satisfies. */
  predicate WellFormed(p: Policy) {
    0 <= p.touchMs <= p.idleMs <= p.absoluteMs && 0 < p.idleMs && 0 < p.rotateMs && 0 < p.graceMs
  }

  /** The limits a configuration yields. The throttle is a tenth of the idle window, rounded up to whole
      milliseconds, and at most a minute. */
  function SessionPolicy(absoluteMs: int, idleMs: int, rotateMs: int, graceMs: int): (p: Policy)
    requires 0 < absoluteMs && 0 < idleMs && 0 < rotateMs && 0 < graceMs
    ensures WellFormed(p)
    ensures p.absoluteMs == absoluteMs && p.graceMs == graceMs
    ensures p.idleMs <= idleMs && p.idleMs <= absoluteMs && p.idleMs in {idleMs, absoluteMs}
    ensures p.rotateMs <= rotateMs && p.rotateMs <= absoluteMs && p.rotateMs in {rotateMs, absoluteMs}
    ensures p.touchMs <= 60_000 && 10 * (p.touchMs - 1) < p.idleMs
    ensures p.touchMs == 60_000 || p.idleMs <= 10 * p.touchMs
  {
    var idle := Min(idleMs, absoluteMs);
    Policy(absoluteMs, idle, Min(rotateMs, absoluteMs), graceMs, Min(60_000, (idle + 9) / 10))
  }

  datatype Session = Session(user: UserId, family: FamilyId, expiresAt: int, absoluteAt: int, lastRotatedAt: int,
                             lastSeenAt: int, supersededAt: Option<int>, revokedAt: Option<int>)

  type SessionTable = map<SessionId, Session>

  // ----- what the store does -----

  function Revoked(s: Session, at: int): Session {
    if s.revokedAt.Some? then s else s.(revokedAt := Some(at))
  }

  function RevokeOne(t: SessionTable, id: SessionId, at: int): SessionTable {
    if id in t then t[id := Revoked(t[id], at)] else t
  }

  function RevokeFamily(t: SessionTable, family: FamilyId, at: int): SessionTable {
    map k | k in t :: if t[k].family == family then Revoked(t[k], at) else t[k]
  }

  function RevokeUser(t: SessionTable, user: UserId, at: int): SessionTable {
    map k | k in t :: if t[k].user == user then Revoked(t[k], at) else t[k]
  }

  /** One write: the predecessor is superseded and its successor stored. */
  function Replace(t: SessionTable, previous: SessionId, id: SessionId, next: Session, at: int): SessionTable {
    var superseded := if previous in t then t[previous := t[previous].(supersededAt := Some(at))] else t;
    superseded[id := next]
  }

  function Touch(t: SessionTable, id: SessionId, expiresAt: int, seenAt: int): SessionTable {
    if id !in t || t[id].revokedAt.Some? then t
    else t[id := t[id].(expiresAt := expiresAt, lastSeenAt := seenAt)]
  }

  /** The last moment anything about a session could matter. */
  function DeadSince(s: Session): int {
    Max(Max(s.absoluteAt, s.expiresAt), if s.revokedAt.Some? then s.revokedAt.value else 0)
  }

  function Pruned(t: SessionTable, now: int, retentionMs: int): SessionTable {
    map k | k in t && now - DeadSince(t[k]) <= retentionMs :: t[k]
  }

  // ----- what a request does -----

  datatype Reason = UnknownSession | RevokedReplayed | Expired | ReuseDetected | UserRemoved
  datatype Verdict = Accepted(id: SessionId, session: Session) | Rejected(reason: Reason)
  datatype Reply = Reply(sessions: SessionTable, verdict: Verdict)

  function Issued(p: Policy, user: UserId, family: FamilyId, now: int): Session {
    Session(user, family, now + Min(p.idleMs, p.absoluteMs), now + p.absoluteMs, now, now, None, None)
  }

  function Successor(p: Policy, s: Session, now: int): Session {
    s.(lastRotatedAt := now, lastSeenAt := now, expiresAt := Min(now + p.idleMs, s.absoluteAt), supersededAt := None)
  }

  function Rotate(t: SessionTable, p: Policy, id: SessionId, s: Session, newId: SessionId, now: int): Reply {
    var next := Successor(p, s, now);
    Reply(Replace(t, id, newId, next, now), Accepted(newId, next))
  }

  /** A session that may authenticate: rotated when due, its idle window renewed otherwise. */
  function Refresh(t: SessionTable, p: Policy, id: SessionId, newId: SessionId, now: int): Reply
    requires id in t
  {
    var s := t[id];
    if s.supersededAt.None? && now - s.lastRotatedAt >= p.rotateMs then Rotate(t, p, id, s, newId, now)
    else if s.supersededAt.None? && now - s.lastSeenAt >= p.touchMs then
      var expiresAt := Min(now + p.idleMs, s.absoluteAt);
      Reply(Touch(t, id, expiresAt, now), Accepted(id, s.(expiresAt := expiresAt, lastSeenAt := now)))
    else Reply(t, Accepted(id, s))
  }

  function Authenticate(t: SessionTable, accounts: set<UserId>, p: Policy, id: SessionId, newId: SessionId,
          now: int): Reply
  {
    if id !in t then Reply(t, Rejected(UnknownSession))
    else
      var s := t[id];
      if s.revokedAt.Some? then Reply(RevokeFamily(t, s.family, now), Rejected(RevokedReplayed))
      else if s.expiresAt <= now || s.absoluteAt <= now then Reply(RevokeOne(t, id, now), Rejected(Expired))
      else if s.supersededAt.Some? && now - s.supersededAt.value > p.graceMs then
        Reply(RevokeFamily(t, s.family, now), Rejected(ReuseDetected))
      else if s.user !in accounts then Reply(RevokeFamily(t, s.family, now), Rejected(UserRemoved))
      else Refresh(t, p, id, newId, now)
  }

  /** What an authenticated route goes on to do; Browse is every route that leaves sessions alone. */
  datatype Action = Browse | RotateNow(newerId: SessionId) | Logout | LogoutAll

  function Perform(t: SessionTable, p: Policy, id: SessionId, s: Session, action: Action, now: int): SessionTable {
    match action
    case Browse => t
    case RotateNow(newerId) => Rotate(t, p, id, s, newerId, now).sessions
    case Logout => RevokeFamily(t, s.family, now)
    case LogoutAll => RevokeUser(t, s.user, now)
  }

  // ----- whole runs -----

  datatype Origin = Origin(user: UserId, deadline: int)
  datatype Issue = Issue(family: FamilyId, at: int)

  /** sessions and accounts are stored; the rest records history: where each family came from, each id
      ever issued with its family and time, when a client last went from an id to a successor, the families
      revoked as a whole, the time of the last accepted request that ended with each id before it had a
      successor, and the clock. */
  datatype World = World(sessions: SessionTable, accounts: set<UserId>, origins: map<FamilyId, Origin>,
                         issued: map<SessionId, Issue>, replacedAt: map<SessionId, int>, ended: set<FamilyId>,
                         acceptedAt: map<SessionId, int>, clock: int)

  datatype Event =
    | Login(user: UserId, id: SessionId, family: FamilyId, now: int)
    | Request(id: SessionId, newId: SessionId, action: Action, now: int)
    | Prune(retentionMs: nat, now: int)
    | AccountsChange(accounts: set<UserId>, now: int)

  predicate Enabled(w: World, e: Event) {
    && w.clock <= e.now
    && match e
       case Login(_, id, family, _) => id !in w.issued && family !in w.origins
       case Request(_, newId, action, _) =>
         newId !in w.issued && (action.RotateNow? ==> action.newerId !in w.issued && action.newerId != newId)
       case _ => true
  }

  function AfterLogin(w: World, p: Policy, user: UserId, id: SessionId, family: FamilyId, now: int): World {
    w.(sessions := w.sessions[id := Issued(p, user, family, now)],
      origins := w.origins[family := Origin(user, now + p.absoluteMs)],
       issued := w.issued[id := Issue(family, now)], acceptedAt := w.acceptedAt[id := now], clock := now)
  }

  function Verified(w: World, p: Policy, id: SessionId, newId: SessionId, now: int): Reply {
    Authenticate(w.sessions, w.accounts, p, id, newId, now)
  }

  function Heard(w: World, id: SessionId, now: int): map<SessionId, int> {
    if id in w.replacedAt then w.acceptedAt else w.acceptedAt[id := now]
  }

  /** A client goes from one session to a successor. */
  function Succeeded(w: World, sessions: SessionTable, id: SessionId, newId: SessionId, family: FamilyId,
          now: int): World
  {
    w.(sessions := sessions, issued := w.issued[newId := Issue(family, now)], replacedAt := w.replacedAt[id := now],
      acceptedAt := w.acceptedAt[newId := now], clock := now)
  }

  function AfterReply(w: World, id: SessionId, r: Reply, now: int): World {
    match r.verdict
    case Accepted(current, s) =>
      if current == id then w.(sessions := r.sessions, acceptedAt := Heard(w, id, now), clock := now)
      else Succeeded(w, r.sessions, id, current, s.family, now)
    case Rejected(reason) =>
      var whole := reason.RevokedReplayed? || reason.ReuseDetected? || reason.UserRemoved?;
      w.(sessions := r.sessions, ended := if whole && id in w.sessions then w.ended + {w.sessions[id].family}
        else w.ended,
         clock := now)
  }

  function AfterAuth(w: World, p: Policy, id: SessionId, newId: SessionId, now: int): World {
    AfterReply(w, id, Verified(w, p, id, newId, now), now)
  }

  function FamiliesOf(t: SessionTable, user: UserId): set<FamilyId> {
    set k | k in t && t[k].user == user :: t[k].family
  }

  function AfterAction(w: World, p: Policy, id: SessionId, s: Session, action: Action, now: int): World {
    var acted := w.(sessions := Perform(w.sessions, p, id, s, action, now));
    match action
    case Browse => w
    case RotateNow(newerId) => Succeeded(w, acted.sessions, id, newerId, s.family, now)
    case Logout => acted.(ended := w.ended + {s.family})
    case LogoutAll => acted.(ended := w.ended + FamiliesOf(w.sessions, s.user))
  }

  function AfterRequest(w: World, p: Policy, id: SessionId, newId: SessionId, action: Action, now: int): World {
    var v := Verified(w, p, id, newId, now).verdict;
    var authenticated := AfterAuth(w, p, id, newId, now);
    if v.Accepted? then AfterAction(authenticated, p, v.id, v.session, action, now) else authenticated
  }

  function Next(w: World, p: Policy, e: Event): World {
    match e
    case Login(user, id, family, now) => AfterLogin(w, p, user, id, family, now)
    case Request(id, newId, action, now) => AfterRequest(w, p, id, newId, action, now)
    case Prune(retentionMs, now) => w.(sessions := Pruned(w.sessions, now, retentionMs), clock := now)
    case AccountsChange(accounts, now) => w.(accounts := accounts, clock := now)
  }

  ghost predicate Leads(w: World, p: Policy, events: seq<Event>, w': World)
    decreases |events|
  {
    if events == [] then w' == w else Enabled(w, events[0]) && Leads(Next(w, p, events[0]), p, events[1..], w')
  }

  const EMPTY := World(map[], {}, map[], map[], map[], {}, map[], 0)

  // ----- what every step keeps -----

  function ReplacedAt(w: World, id: SessionId): Option<int> {
    if id in w.replacedAt then Some(w.replacedAt[id]) else None
  }

  /** One stored session agrees with the history of its family and with the policy. */
  ghost predicate Kept(w: World, p: Policy, id: SessionId, s: Session) {
    && id in w.issued && w.issued[id] == Issue(s.family, s.lastRotatedAt)
    && s.supersededAt == ReplacedAt(w, id)
    && s.family in w.origins && w.origins[s.family] == Origin(s.user, s.absoluteAt)
    && s.expiresAt == Min(s.lastSeenAt + p.idleMs, s.absoluteAt)
    && (s.family in w.ended ==> s.revokedAt.Some?)
    && (s.revokedAt.Some? ==> s.family in w.ended || s.expiresAt <= w.clock)
    && id in w.acceptedAt && s.lastSeenAt + p.touchMs >= w.acceptedAt[id]
  }

  ghost predicate AllKept(w: World, p: Policy) {
    forall id | id in w.sessions :: Kept(w, p, id, w.sessions[id])
  }

  /** Nothing that could still authenticate is ever lost. */
  ghost predicate NothingLost(w: World) {
    && (forall id | id in w.issued :: w.issued[id].family in w.origins)
    && (forall id | id in w.issued :: id in w.sessions || w.origins[w.issued[id].family].deadline <= w.clock)
  }

  ghost predicate Sound(w: World, p: Policy) {
    AllKept(w, p) && NothingLost(w) && w.ended <= w.origins.Keys && w.replacedAt.Keys <= w.issued.Keys
  }

  /** The state in which an authenticated route runs. */
  ghost predicate SignedIn(w: World, id: SessionId, s: Session) {
    && id in w.sessions && w.sessions[id] == s
    && s.revokedAt.None? && w.clock < s.expiresAt && w.clock < s.absoluteAt && s.family !in w.ended
  }

  lemma {:induction false} FreshIsNotStored(w: World, p: Policy, newId: SessionId)
    requires Sound(w, p) && newId !in w.issued
    ensures newId !in w.sessions
  {
    forall k | k in w.sessions ensures k != newId { assert Kept(w, p, k, w.sessions[k]); }
  }

  lemma {:induction false} LoginKeepsSound(w: World, p: Policy, user: UserId, id: SessionId, family: FamilyId, now: int)
    requires WellFormed(p) && Sound(w, p) && Enabled(w, Login(user, id, family, now))
    ensures Sound(AfterLogin(w, p, user, id, family, now), p)
  {
  }

  lemma {:induction false} PruneKeepsSound(w: World, p: Policy, retentionMs: nat, now: int)
    requires Sound(w, p) && w.clock <= now
    ensures Sound(w.(sessions := Pruned(w.sessions, now, retentionMs), clock := now), p)
  {
  }

  /** Revoking a whole family, or all families of a user, and recording it. */
  lemma {:induction false} EndingKeepsSound(w: World, p: Policy, ended: set<FamilyId>, t: SessionTable)
    requires Sound(w, p) && ended <= w.origins.Keys && t.Keys == w.sessions.Keys
    requires forall k | k in t :: if w.sessions[k].family in ended then
      t[k].revokedAt.Some? && t[k] == Revoked(w.sessions[k], t[k].revokedAt.value) else t[k] == w.sessions[k]
    ensures Sound(w.(sessions := t, ended := w.ended + ended), p)
  {
  }

  lemma {:induction false} RotationKeepsSound(w: World, p: Policy, id: SessionId, s: Session, newId: SessionId,
          now: int)
    requires WellFormed(p) && Sound(w, p) && w.clock <= now && newId !in w.issued
    requires id in w.sessions && w.sessions[id] == s && s.revokedAt.None? && s.family !in w.ended && now < s.absoluteAt
    ensures var r := Rotate(w.sessions, p, id, s, newId, now);
      var w' := Succeeded(w, r.sessions, id, newId, s.family, now);
      Sound(w', p) && SignedIn(w', newId, r.verdict.session)
  {
    var w' := Succeeded(w, Rotate(w.sessions, p, id, s, newId, now).sessions, id, newId, s.family, now);
    forall k | k in w'.sessions ensures Kept(w', p, k, w'.sessions[k]) {
      assert k != newId ==> Kept(w, p, k, w.sessions[k]);
    }
  }

  lemma {:induction false} TouchKeepsSound(w: World, p: Policy, id: SessionId, now: int)
    requires WellFormed(p) && Sound(w, p) && w.clock <= now
    requires id in w.sessions && w.sessions[id].revokedAt.None? && w.sessions[id].supersededAt.None?
    requires now < w.sessions[id].absoluteAt && w.sessions[id].family !in w.ended
    ensures var s := w.sessions[id];
      var s' := s.(expiresAt := Min(now + p.idleMs, s.absoluteAt), lastSeenAt := now);
      var w' := w.(sessions := Touch(w.sessions, id, Min(now + p.idleMs, s.absoluteAt), now),
        acceptedAt := w.acceptedAt[id := now], clock := now);
      Sound(w', p) && SignedIn(w', id, s')
  {
  }

  lemma {:induction false} HearingKeepsSound(w: World, p: Policy, id: SessionId, now: int)
    requires WellFormed(p) && Sound(w, p) && w.clock <= now && id in w.sessions
    requires w.sessions[id].supersededAt.None? ==> now < w.sessions[id].lastSeenAt + p.touchMs
    ensures Sound(w.(sessions := w.sessions, acceptedAt := Heard(w, id, now), clock := now), p)
  {
    var w' := w.(acceptedAt := Heard(w, id, now), clock := now);
    forall k | k in w'.sessions ensures Kept(w', p, k, w'.sessions[k]) {
      assert Kept(w, p, k, w.sessions[k]);
    }
  }

  /** The request may act, and goes on as r says. */
  ghost predicate GoesOn(w: World, p: Policy, id: SessionId, r: Reply, now: int) {
    && r.verdict.Accepted?
    && var w' := AfterReply(w, id, r, now);
      Sound(w', p) && w'.clock == now && SignedIn(w', r.verdict.id, r.verdict.session)
  }

  ghost predicate MayAct(w: World, p: Policy, id: SessionId, newId: SessionId, now: int) {
    && WellFormed(p) && Sound(w, p) && w.clock <= now && newId !in w.issued && newId !in w.sessions
    && id in w.sessions && w.sessions[id].revokedAt.None? && w.sessions[id].family !in w.ended
    && now < w.sessions[id].expiresAt && now < w.sessions[id].absoluteAt
  }

  lemma {:induction false} RotatingGoesOn(w: World, p: Policy, id: SessionId, newId: SessionId, now: int, r: Reply)
    requires MayAct(w, p, id, newId, now) && r == Rotate(w.sessions, p, id, w.sessions[id], newId, now)
    ensures GoesOn(w, p, id, r, now)
  {
    RotationKeepsSound(w, p, id, w.sessions[id], newId, now);
  }

  lemma {:induction false} TouchingGoesOn(w: World, p: Policy, id: SessionId, newId: SessionId, now: int, r: Reply)
    requires MayAct(w, p, id, newId, now) && w.sessions[id].supersededAt.None?
    requires var expiresAt := Min(now + p.idleMs, w.sessions[id].absoluteAt);
      r == Reply(Touch(w.sessions, id, expiresAt, now),
        Accepted(id, w.sessions[id].(expiresAt := expiresAt, lastSeenAt := now)))
    ensures GoesOn(w, p, id, r, now)
  {
    SupersededIsRecorded(w, p, id);
    TouchKeepsSound(w, p, id, now);
  }

  lemma {:induction false} HearingGoesOn(w: World, p: Policy, id: SessionId, newId: SessionId, now: int, r: Reply)
    requires MayAct(w, p, id, newId, now) && r == Reply(w.sessions, Accepted(id, w.sessions[id]))
    requires w.sessions[id].supersededAt.None? ==> now < w.sessions[id].lastSeenAt + p.touchMs
    ensures GoesOn(w, p, id, r, now)
  {
    HearingKeepsSound(w, p, id, now);
  }

  lemma {:induction false} RefreshKeepsSound(w: World, p: Policy, id: SessionId, newId: SessionId, now: int, r: Reply)
    requires MayAct(w, p, id, newId, now) && r == Refresh(w.sessions, p, id, newId, now)
    ensures GoesOn(w, p, id, r, now)
  {
    var s := w.sessions[id];
    if s.supersededAt.None? && now - s.lastRotatedAt >= p.rotateMs {
      RotatingGoesOn(w, p, id, newId, now, r);
    } else if s.supersededAt.None? && now - s.lastSeenAt >= p.touchMs {
      TouchingGoesOn(w, p, id, newId, now, r);
    } else {
      HearingGoesOn(w, p, id, newId, now, r);
    }
  }

  lemma {:induction false} SupersededIsRecorded(w: World, p: Policy, id: SessionId)
    requires AllKept(w, p) && id in w.sessions
    ensures w.sessions[id].supersededAt.None? <==> id !in w.replacedAt
  {
    assert Kept(w, p, id, w.sessions[id]);
  }

  lemma {:induction false} AcceptedIsRefreshed(t: SessionTable, accounts: set<UserId>, p: Policy, id: SessionId,
          newId: SessionId, now: int)
    requires Authenticate(t, accounts, p, id, newId, now).verdict.Accepted?
    ensures id in t && t[id].revokedAt.None? && now < t[id].expiresAt && now < t[id].absoluteAt
    ensures Authenticate(t, accounts, p, id, newId, now) == Refresh(t, p, id, newId, now)
  {
  }

  lemma {:induction false} AcceptingKeepsSound(w: World, p: Policy, id: SessionId, newId: SessionId, now: int)
    requires WellFormed(p) && Sound(w, p) && w.clock <= now && newId !in w.issued
    requires Verified(w, p, id, newId, now).verdict.Accepted?
    ensures var v := Verified(w, p, id, newId, now).verdict;
      var w' := AfterAuth(w, p, id, newId, now);
      Sound(w', p) && w'.clock == now && SignedIn(w', v.id, v.session)
  {
    AcceptedIsRefreshed(w.sessions, w.accounts, p, id, newId, now);
    FreshIsNotStored(w, p, newId);
    assert Kept(w, p, id, w.sessions[id]);
    RefreshKeepsSound(w, p, id, newId, now, Verified(w, p, id, newId, now));
  }

  lemma {:induction false} FamilyEndKeepsSound(w: World, p: Policy, family: FamilyId, now: int)
    requires Sound(w, p) && w.clock <= now && family in w.origins
    ensures Sound(w.(sessions := RevokeFamily(w.sessions, family, now), ended := w.ended + {family}, clock := now), p)
  {
    EndingKeepsSound(w.(clock := now), p, {family}, RevokeFamily(w.sessions, family, now));
  }

  lemma {:induction false} ExpiringKeepsSound(w: World, p: Policy, id: SessionId, now: int)
    requires Sound(w, p) && w.clock <= now && id in w.sessions
    requires w.sessions[id].revokedAt.None? && (w.sessions[id].expiresAt <= now || w.sessions[id].absoluteAt <= now)
    ensures Sound(w.(sessions := RevokeOne(w.sessions, id, now), clock := now), p)
  {
    assert Kept(w, p, id, w.sessions[id]);
  }

  lemma {:induction false} RejectingKeepsSound(w: World, p: Policy, id: SessionId, newId: SessionId, now: int)
    requires WellFormed(p) && Sound(w, p) && w.clock <= now && newId !in w.issued
    requires Verified(w, p, id, newId, now).verdict.Rejected?
    ensures Sound(AfterAuth(w, p, id, newId, now), p) && AfterAuth(w, p, id, newId, now).clock == now
  {
    if id in w.sessions {
      if Verified(w, p, id, newId, now).verdict.reason.Expired? {
        ExpiringKeepsSound(w, p, id, now);
      } else {
        EndingOneKeepsSound(w, p, id, newId, now);
      }
    }
  }

  lemma {:induction false} EndingOneKeepsSound(w: World, p: Policy, id: SessionId, newId: SessionId, now: int)
    requires Sound(w, p) && w.clock <= now && id in w.sessions
    requires Verified(w, p, id, newId, now).verdict.Rejected? && !Verified(w, p, id, newId, now).verdict.reason.Expired?
    ensures Sound(AfterAuth(w, p, id, newId, now), p)
  {
    assert Kept(w, p, id, w.sessions[id]);
    FamilyEndKeepsSound(w, p, w.sessions[id].family, now);
  }

  /** Authenticating keeps the invariant, and accepts only a session that may still act. */
  lemma {:induction false} AuthKeepsSound(w: World, p: Policy, id: SessionId, newId: SessionId, now: int)
    requires WellFormed(p) && Sound(w, p) && w.clock <= now && newId !in w.issued
    ensures var v := Verified(w, p, id, newId, now).verdict;
      var w' := AfterAuth(w, p, id, newId, now);
      Sound(w', p) && w'.clock == now && (v.Accepted? ==> SignedIn(w', v.id, v.session))
  {
    if Verified(w, p, id, newId, now).verdict.Accepted? {
      AcceptingKeepsSound(w, p, id, newId, now);
    } else {
      RejectingKeepsSound(w, p, id, newId, now);
    }
  }

  lemma {:induction false} ActionKeepsSound(w: World, p: Policy, id: SessionId, s: Session, action: Action)
    requires WellFormed(p) && Sound(w, p) && SignedIn(w, id, s)
    requires action.RotateNow? ==> action.newerId !in w.issued
    ensures Sound(AfterAction(w, p, id, s, action, w.clock), p)
  {
    var t := Perform(w.sessions, p, id, s, action, w.clock);
    assert Kept(w, p, id, s);
    match action
    case Browse =>
    case RotateNow(newerId) => RotationKeepsSound(w, p, id, s, newerId, w.clock);
    case Logout => EndingKeepsSound(w, p, {s.family}, t);
    case LogoutAll =>
      forall k | k in w.sessions
        ensures w.sessions[k].family in FamiliesOf(w.sessions, s.user) <==> w.sessions[k].user == s.user
      {
        assert Kept(w, p, k, w.sessions[k]);
        if w.sessions[k].family in FamiliesOf(w.sessions, s.user) {
          var j :| j in w.sessions && w.sessions[j].user == s.user && w.sessions[j].family == w.sessions[k].family;
          assert Kept(w, p, j, w.sessions[j]);
        }
      }
      EndingKeepsSound(w, p, FamiliesOf(w.sessions, s.user), t);
  }

  lemma {:induction false} StepKeepsSound(w: World, p: Policy, e: Event)
    requires WellFormed(p) && Sound(w, p) && Enabled(w, e)
    ensures Sound(Next(w, p, e), p)
  {
    match e
    case Login(user, id, family, now) => LoginKeepsSound(w, p, user, id, family, now);
    case Request(id, newId, action, now) =>
      AuthKeepsSound(w, p, id, newId, now);
      var v := Verified(w, p, id, newId, now).verdict;
      if v.Accepted? {
        ActionKeepsSound(AfterAuth(w, p, id, newId, now), p, v.id, v.session, action);
      }
    case Prune(retentionMs, now) => PruneKeepsSound(w, p, retentionMs, now);
    case AccountsChange(accounts, now) =>
  }

  lemma {:induction false} LeadsKeepsSound(w: World, p: Policy, events: seq<Event>, w': World)
    requires WellFormed(p) && Sound(w, p) && Leads(w, p, events, w')
    ensures Sound(w', p)
    decreases |events|
  {
    if events != [] {
      StepKeepsSound(w, p, events[0]);
      LeadsKeepsSound(Next(w, p, events[0]), p, events[1..], w');
    }
  }

  /** Over every run: whatever session a request presents, it is accepted only before the deadline its
      family got at login and only if its family was never revoked; and it keeps acting for the user who
      logged in. */
  lemma {:induction false} NeverOutlivesItsFamily(p: Policy, events: seq<Event>, w: World, id: SessionId,
          newId: SessionId, now: int)
    requires WellFormed(p) && Leads(EMPTY, p, events, w) && w.clock <= now && newId !in w.issued
    requires Verified(w, p, id, newId, now).verdict.Accepted?
    ensures var s := Verified(w, p, id, newId, now).verdict.session;
      && id in w.issued && w.issued[id].family == s.family
      && s.family in w.origins && now < w.origins[s.family].deadline && s.user == w.origins[s.family].user
      && s.family !in w.ended
  {
    LeadsKeepsSound(EMPTY, p, events, w);
    AcceptedIsSame(w.sessions, w.accounts, p, id, newId, now);
    assert Kept(w, p, id, w.sessions[id]);
  }

  /** An accepted request goes on in the family, for the user and under the deadline it presented. */
  lemma {:induction false} AcceptedIsSame(t: SessionTable, accounts: set<UserId>, p: Policy, id: SessionId,
          newId: SessionId, now: int)
    requires Authenticate(t, accounts, p, id, newId, now).verdict.Accepted?
    ensures var r := Authenticate(t, accounts, p, id, newId, now);
      var s := r.verdict.session;
      && id in t && t[id].revokedAt.None? && now < t[id].absoluteAt
      && s.family == t[id].family && s.user == t[id].user && s.absoluteAt == t[id].absoluteAt
      && r.verdict.id in r.sessions && r.sessions[r.verdict.id].absoluteAt == s.absoluteAt
  {
  }

  /** A session's idle deadline is never earlier than one idle window, less the renewal throttle, after the
      last request it served while it was current. */
  lemma {:induction false} IdleWindowSlides(p: Policy, events: seq<Event>, w: World, id: SessionId)
    requires WellFormed(p) && Leads(EMPTY, p, events, w)
    requires id in w.sessions
    ensures id in w.acceptedAt
    ensures w.sessions[id].expiresAt >= Min(w.acceptedAt[id] + p.idleMs - p.touchMs, w.sessions[id].absoluteAt)
  {
    LeadsKeepsSound(EMPTY, p, events, w);
    assert Kept(w, p, id, w.sessions[id]);
  }

  /** Over every run, a client that comes back within that time and before the family's deadline, with a
      session of a family that was not revoked, is let in: neither expiry, rotation nor pruning ever turns it
      away, and a successor does so only after the grace period. */
  lemma {:induction false} ActiveClientIsLetIn(p: Policy, events: seq<Event>, w: World, id: SessionId, newId: SessionId,
          now: int)
    requires WellFormed(p) && Leads(EMPTY, p, events, w) && w.clock <= now
    requires id in w.issued && w.issued[id].family !in w.ended
    requires w.issued[id].family in w.origins ==>
      now < w.origins[w.issued[id].family].deadline && w.origins[w.issued[id].family].user in w.accounts
    requires id in w.replacedAt ==> now <= w.replacedAt[id] + p.graceMs
    requires id in w.acceptedAt ==> now < w.acceptedAt[id] + p.idleMs - p.touchMs
    ensures Verified(w, p, id, newId, now).verdict.Accepted?
  {
    LeadsKeepsSound(EMPTY, p, events, w);
    assert id in w.sessions;
    assert Kept(w, p, id, w.sessions[id]);
    IdleWindowSlides(p, events, w, id);
  }

  /** Over every run: an accepted request goes on with its own session if that has a successor or was issued
      less than the rotation time ago, and with a successor issued now otherwise. */
  lemma {:induction false} RotatesWhenDue(p: Policy, events: seq<Event>, w: World, id: SessionId, newId: SessionId,
          now: int)
    requires WellFormed(p) && Leads(EMPTY, p, events, w) && w.clock <= now && newId !in w.issued
    requires Verified(w, p, id, newId, now).verdict.Accepted?
    ensures var v, w' := Verified(w, p, id, newId, now).verdict, AfterAuth(w, p, id, newId, now);
      && id in w.issued
      && v.id == (if id in w.replacedAt || now < w.issued[id].at + p.rotateMs then id else newId)
      && v.session.lastRotatedAt == (if v.id == id then w.issued[id].at else now)
      && (v.id == newId ==> w'.sessions[id].supersededAt == Some(now))
  {
    LeadsKeepsSound(EMPTY, p, events, w);
    AcceptedIsSame(w.sessions, w.accounts, p, id, newId, now);
    FreshIsNotStored(w, p, newId);
    RefreshRotates(w.sessions, p, id, newId, now);
    assert Kept(w, p, id, w.sessions[id]);
  }

  lemma {:induction false} RefreshRotates(t: SessionTable, p: Policy, id: SessionId, newId: SessionId, now: int)
    requires id in t && newId !in t
    ensures var r := Refresh(t, p, id, newId, now);
      && r.verdict.id == (if t[id].supersededAt.Some? || now < t[id].lastRotatedAt + p.rotateMs then id else newId)
      && r.verdict.session.lastRotatedAt == (if r.verdict.id == id then t[id].lastRotatedAt else now)
      && (r.verdict.id == newId ==> r.sessions[id].supersededAt == Some(now))
  {
  }

  // ----- theft -----

  /** Over every run: once a client went from a session to a successor, no request with the old session is
      accepted later than the grace period after. */
  lemma {:induction false} SupersededIsRefused(p: Policy, events: seq<Event>, w: World, id: SessionId,
          newId: SessionId, now: int)
    requires WellFormed(p) && Leads(EMPTY, p, events, w)
    requires id in w.replacedAt && now > w.replacedAt[id] + p.graceMs
    ensures Verified(w, p, id, newId, now).verdict.Rejected?
  {
    LeadsKeepsSound(EMPTY, p, events, w);
    if id in w.sessions {
      assert Kept(w, p, id, w.sessions[id]);
    }
  }

  /** A presented session that shows its family may be compromised, or its user gone. */
  ghost predicate Alarms(w: World, p: Policy, id: SessionId, now: int) {
    && id in w.sessions
    && (w.sessions[id].revokedAt.Some? || (now < w.sessions[id].expiresAt
      && (w.sessions[id].user !in w.accounts || (id in w.replacedAt && now > w.replacedAt[id] + p.graceMs))))
  }

  /** Over every run: a request revokes the family of its session exactly then, and never another. */
  lemma {:induction false} FamilyEndsExactly(p: Policy, events: seq<Event>, w: World, id: SessionId, newId: SessionId,
          now: int)
    requires WellFormed(p) && Leads(EMPTY, p, events, w) && w.clock <= now && newId !in w.issued
    ensures AfterAuth(w, p, id, newId, now).ended ==
      if Alarms(w, p, id, now) then w.ended + {w.sessions[id].family} else w.ended
  {
    LeadsKeepsSound(EMPTY, p, events, w);
    if id in w.sessions {
      assert Kept(w, p, id, w.sessions[id]);
      AlarmedReply(w.sessions, w.accounts, p, id, newId, now);
    }
  }

  lemma {:induction false} AlarmedReply(t: SessionTable, accounts: set<UserId>, p: Policy, id: SessionId,
          newId: SessionId, now: int)
    requires id in t
    ensures var v := Authenticate(t, accounts, p, id, newId, now).verdict;
      (v.Rejected? && (v.reason.RevokedReplayed? || v.reason.ReuseDetected? || v.reason.UserRemoved?)) <==>
      (t[id].revokedAt.Some? || (now < t[id].expiresAt && now < t[id].absoluteAt
        && (t[id].user !in accounts || (t[id].supersededAt.Some? && now > t[id].supersededAt.value + p.graceMs))))
  {
  }

  lemma {:induction false} EndedForGood(w: World, p: Policy, events: seq<Event>, w': World)
    requires Leads(w, p, events, w')
    ensures w.ended <= w'.ended
    decreases |events|
  {
    if events != [] {
      EndedForGood(Next(w, p, events[0]), p, events[1..], w');
    }
  }

  /** Over every run: after such a request, whatever happens next, no session of the family is ever accepted
      again. */
  lemma {:induction false} TheftLocksOut(p: Policy, events: seq<Event>, w: World, e: Event, more: seq<Event>,
          later: World, other: SessionId, newId: SessionId, now: int)
    requires WellFormed(p) && Leads(EMPTY, p, events, w) && Enabled(w, e)
    requires e.Request? && Alarms(w, p, e.id, e.now)
    requires Leads(Next(w, p, e), p, more, later) && later.clock <= now && newId !in later.issued
    requires other in later.issued && later.issued[other].family == w.sessions[e.id].family
    ensures Verified(later, p, other, newId, now).verdict.Rejected?
  {
    LeadsKeepsSound(EMPTY, p, events, w);
    FamilyEndsExactly(p, events, w, e.id, e.newId, e.now);
    StepKeepsSound(w, p, e);
    LeadsKeepsSound(Next(w, p, e), p, more, later);
    EndedForGood(Next(w, p, e), p, more, later);
    if other in later.sessions {
      assert Kept(later, p, other, later.sessions[other]);
    }
  }

  /** A prune drops exactly the sessions that ended, by whatever came last of deadline, idle expiry and
      revocation, longer ago than the retention time. */
  lemma {:induction false} PruneDropsLongDead(t: SessionTable, now: int, retentionMs: nat, id: SessionId)
    requires id in t
    ensures id !in Pruned(t, now, retentionMs) <==>
      && t[id].absoluteAt + retentionMs < now && t[id].expiresAt + retentionMs < now
      && (if t[id].revokedAt.Some? then t[id].revokedAt.value else 0) + retentionMs < now
    ensures id in Pruned(t, now, retentionMs) ==> Pruned(t, now, retentionMs)[id] == t[id]
  {
  }

  // ----- one current session -----

  predicate Current(t: SessionTable, id: SessionId) {
    id in t && t[id].supersededAt.None?
  }

  ghost predicate OneCurrent(t: SessionTable) {
    forall a, b | Current(t, a) && Current(t, b) && t[a].family == t[b].family :: a == b
  }

  /** The request rotates on demand although its own session is already superseded, while its family has
      a current session. */
  ghost predicate Forks(w: World, p: Policy, id: SessionId, newId: SessionId, action: Action, now: int) {
    && action.RotateNow? && Verified(w, p, id, newId, now).verdict.Accepted? && w.sessions[id].supersededAt.Some?
    && exists other :: Current(w.sessions, other) && w.sessions[other].family == w.sessions[id].family
  }

  lemma {:induction false} RotateKeepsOneCurrent(t: SessionTable, p: Policy, id: SessionId, newId: SessionId, now: int)
    requires OneCurrent(t) && Current(t, id) && newId !in t
    ensures var r := Rotate(t, p, id, t[id], newId, now);
      OneCurrent(r.sessions) && Current(r.sessions, newId) && r.sessions[newId] == r.verdict.session
  {
  }

  lemma {:induction false} TouchKeepsOneCurrent(t: SessionTable, id: SessionId, expiresAt: int, now: int)
    requires OneCurrent(t)
    ensures OneCurrent(Touch(t, id, expiresAt, now))
  {
    var t' := Touch(t, id, expiresAt, now);
    forall k | Current(t', k) ensures Current(t, k) && t'[k].family == t[k].family {}
  }

  lemma {:induction false} RevokingKeepsOneCurrent(t: SessionTable, t': SessionTable)
    requires OneCurrent(t) && t'.Keys == t.Keys
    requires forall k | k in t :: t'[k].family == t[k].family && t'[k].supersededAt == t[k].supersededAt
    ensures OneCurrent(t')
  {
    forall k | Current(t', k) ensures Current(t, k) && t'[k].family == t[k].family {}
  }

  lemma {:induction false} RefreshKeepsOneCurrent(t: SessionTable, p: Policy, id: SessionId, newId: SessionId, now: int)
    requires OneCurrent(t) && id in t && newId !in t
    requires t[id].revokedAt.None?
    ensures var r := Refresh(t, p, id, newId, now);
      && OneCurrent(r.sessions) && r.verdict.id in r.sessions && r.sessions[r.verdict.id] == r.verdict.session
      && if t[id].supersededAt.Some? then r.sessions == t && r.verdict.id == id
        else r.verdict.session.supersededAt.None?
  {
    if Current(t, id) {
      RotateKeepsOneCurrent(t, p, id, newId, now);
      TouchKeepsOneCurrent(t, id, Min(now + p.idleMs, t[id].absoluteAt), now);
    }
  }

  /** Authenticating never gives a family a second current session, and continues with a stored one. */
  lemma {:induction false} AuthKeepsOneCurrent(t: SessionTable, accounts: set<UserId>, p: Policy, id: SessionId,
          newId: SessionId, now: int)
    requires OneCurrent(t) && newId !in t
    ensures var r := Authenticate(t, accounts, p, id, newId, now);
      && OneCurrent(r.sessions)
      && (r.verdict.Accepted? ==> r.verdict.id in r.sessions && r.sessions[r.verdict.id] == r.verdict.session)
      && (r.verdict.Accepted? ==>
        if t[id].supersededAt.Some? then r.sessions == t && r.verdict.id == id
        else r.verdict.session.supersededAt.None?)
  {
    var r := Authenticate(t, accounts, p, id, newId, now);
    if r.verdict.Rejected? {
      RevokingKeepsOneCurrent(t, r.sessions);
    } else {
      RefreshKeepsOneCurrent(t, p, id, newId, now);
    }
  }

  /** A family keeps at most one current session through every step except one kind of request, and that
      kind always breaks it. */
  lemma {:induction false} OneCurrentUnlessForked(w: World, p: Policy, e: Event)
    requires WellFormed(p) && Sound(w, p) && Enabled(w, e) && OneCurrent(w.sessions)
    ensures OneCurrent(Next(w, p, e).sessions) <==> !(e.Request? && Forks(w, p, e.id, e.newId, e.action, e.now))
  {
    match e
    case Login(user, id, family, now) =>
      forall k | k in w.sessions ensures w.sessions[k].family != family { assert Kept(w, p, k, w.sessions[k]); }
    case Request(id, newId, action, now) => RequestKeepsOneCurrent(w, p, id, newId, action, now);
    case Prune(retentionMs, now) =>
    case AccountsChange(accounts, now) =>
  }

  /** Such a step is within reach under every policy: a client that rotates on demand right after logging in
      holds a successor, and may within grace rotate its first session on demand again. */
  lemma {:induction false} ForkIsReached(p: Policy, user: UserId, family: FamilyId, ids: seq<SessionId>, later: int)
    returns (events: seq<Event>, w: World)
    requires WellFormed(p) && 0 <= later <= p.graceMs && later < p.idleMs
    requires |ids| == 5 && forall i, j | 0 <= i < j < 5 :: ids[i] != ids[j]
    ensures Leads(EMPTY, p, events, w) && OneCurrent(w.sessions)
    ensures var again := Request(ids[0], ids[3], RotateNow(ids[4]), later);
      && Enabled(w, again) && Forks(w, p, ids[0], ids[3], RotateNow(ids[4]), later)
      && !OneCurrent(Next(w, p, again).sessions)
  {
    events, w := RotatedRun(p, user, family, ids);
    OneSuccessor(p, user, family, ids, w.sessions);
    LeadsKeepsSound(EMPTY, p, events, w);
    SecondRotation(p, user, family, ids, w, later);
    OneCurrentUnlessForked(w, p, Request(ids[0], ids[3], RotateNow(ids[4]), later));
  }

  /** Such a step also restarts the grace period: however soon a session is replaced, rotating it on demand
      again within grace lets it in later than grace after its first successor was issued. */
  lemma {:induction false} GraceRestarts(p: Policy, user: UserId, family: FamilyId, ids: seq<SessionId>, later: int,
          latest: int, newId: SessionId)
    returns (events: seq<Event>, w: World, again: Event)
    requires WellFormed(p) && 0 <= later <= p.graceMs < latest <= later + p.graceMs && latest < p.idleMs
    requires |ids| == 5 && forall i, j | 0 <= i < j < 5 :: ids[i] != ids[j]
    ensures Leads(EMPTY, p, events, w) && Enabled(w, again)
    ensures ids[0] in w.replacedAt && w.replacedAt[ids[0]] + p.graceMs < latest
    ensures Verified(Next(w, p, again), p, ids[0], newId, latest).verdict.Accepted?
  {
    again := Request(ids[0], ids[3], RotateNow(ids[4]), later);
    events, w := RotatedRun(p, user, family, ids);
    OneSuccessor(p, user, family, ids, w.sessions);
    SecondRotation(p, user, family, ids, w, later);
    SessionsAfter(w, p, ids[0], ids[3], RotateNow(ids[4]), later);
    assert Verified(w, p, ids[0], ids[3], later) == Reply(w.sessions, Accepted(ids[0], w.sessions[ids[0]]));
    var first := Issued(p, user, family, 0);
    assert Next(w, p, again).sessions[ids[0]] == first.(supersededAt := Some(later));
    assert Next(w, p, again).accounts == {user};
  }

  lemma {:induction false} RotatedRun(p: Policy, user: UserId, family: FamilyId, ids: seq<SessionId>)
    returns (events: seq<Event>, w: World)
    requires WellFormed(p) && |ids| == 5 && forall i, j | 0 <= i < j < 5 :: ids[i] != ids[j]
    ensures Leads(EMPTY, p, events, w)
    ensures w.sessions == Rotated(p, user, family, ids) && w.accounts == {user} && w.clock == 0
    ensures w.issued.Keys == {ids[0], ids[2]} && w.replacedAt == map[ids[0] := 0]
  {
    var joins, login := AccountsChange({user}, 0), Login(user, ids[0], family, 0);
    var rotates := Request(ids[0], ids[1], RotateNow(ids[2]), 0);
    var w2 := Next(Next(EMPTY, p, joins), p, login);
    events, w := [joins, login, rotates], Next(w2, p, rotates);
    assert w2 == SignedUp(p, user, family, ids[0]);
    ThreeSteps(EMPTY, p, joins, login, rotates);
    RotatedAtOnce(p, user, family, ids);
  }

  lemma {:induction false} ThreeSteps(w: World, p: Policy, a: Event, b: Event, c: Event)
    requires Enabled(w, a) && Enabled(Next(w, p, a), b) && Enabled(Next(Next(w, p, a), p, b), c)
    ensures Leads(w, p, [a, b, c], Next(Next(Next(w, p, a), p, b), p, c))
  {
    var w1 := Next(w, p, a);
    var w2 := Next(w1, p, b);
    var w3 := Next(w2, p, c);
    assert [a, b, c][1..] == [b, c] && [b, c][1..] == [c] && [c][1..] == [];
    assert Leads(w3, p, [], w3) && Leads(w2, p, [c], w3) && Leads(w1, p, [b, c], w3);
  }

  /** One account, which has just logged in. */
  function SignedUp(p: Policy, user: UserId, family: FamilyId, id: SessionId): World {
    World(map[id := Issued(p, user, family, 0)], {user}, map[family := Origin(user, p.absoluteMs)],
          map[id := Issue(family, 0)], map[], {}, map[id := 0], 0)
  }

  /** What rotating on demand at once leaves. */
  function Rotated(p: Policy, user: UserId, family: FamilyId, ids: seq<SessionId>): SessionTable
    requires |ids| == 5
  {
    var first := Issued(p, user, family, 0);
    map[ids[0] := first.(supersededAt := Some(0)), ids[2] := Successor(p, first, 0)]
  }

  lemma {:induction false} RotatedAtOnce(p: Policy, user: UserId, family: FamilyId, ids: seq<SessionId>)
    requires WellFormed(p) && |ids| == 5 && forall i, j | 0 <= i < j < 5 :: ids[i] != ids[j]
    ensures var w := SignedUp(p, user, family, ids[0]);
      var w' := Next(w, p, Request(ids[0], ids[1], RotateNow(ids[2]), 0));
      && w'.sessions == Rotated(p, user, family, ids) && w'.accounts == {user}
      && w'.issued.Keys == {ids[0], ids[2]} && w'.clock == 0 && w'.replacedAt == map[ids[0] := 0]
  {
    var w := SignedUp(p, user, family, ids[0]);
    assert Verified(w, p, ids[0], ids[1], 0) == Reply(w.sessions, Accepted(ids[0], Issued(p, user, family, 0))) by {
      assert p.touchMs > 0 || Touch(w.sessions, ids[0], Min(p.idleMs, p.absoluteMs), 0) == w.sessions;
    }
  }

  lemma {:induction false} OneSuccessor(p: Policy, user: UserId, family: FamilyId, ids: seq<SessionId>, t: SessionTable)
    requires |ids| == 5 && ids[0] != ids[2] && t == Rotated(p, user, family, ids)
    ensures OneCurrent(t) && Current(t, ids[2])
  {
    forall a | Current(t, a) ensures a == ids[2] {}
  }

  lemma {:induction false} SecondRotation(p: Policy, user: UserId, family: FamilyId, ids: seq<SessionId>, w: World,
          later: int)
    requires WellFormed(p) && 0 <= later <= p.graceMs && later < p.idleMs
    requires |ids| == 5 && forall i, j | 0 <= i < j < 5 :: ids[i] != ids[j]
    requires w.sessions == Rotated(p, user, family, ids) && w.accounts == {user} && w.clock == 0
    requires w.issued.Keys == {ids[0], ids[2]} && Current(w.sessions, ids[2])
    ensures Enabled(w, Request(ids[0], ids[3], RotateNow(ids[4]), later))
    ensures Forks(w, p, ids[0], ids[3], RotateNow(ids[4]), later)
  {
    assert w.sessions[ids[2]].family == w.sessions[ids[0]].family;
  }

  lemma {:induction false} RequestKeepsOneCurrent(w: World, p: Policy, id: SessionId, newId: SessionId, action: Action,
          now: int)
    requires WellFormed(p) && Sound(w, p) && Enabled(w, Request(id, newId, action, now)) && OneCurrent(w.sessions)
    ensures OneCurrent(Next(w, p, Request(id, newId, action, now)).sessions) <==> !Forks(w, p, id, newId, action, now)
  {
    FreshIsNotStored(w, p, newId);
    AuthKeepsOneCurrent(w.sessions, w.accounts, p, id, newId, now);
    SessionsAfter(w, p, id, newId, action, now);
    var r := Verified(w, p, id, newId, now);
    if r.verdict.Accepted? {
      if action.RotateNow? {
        FreshIsNotStored(w, p, action.newerId);
        DemandedRotation(r.sessions, p, r.verdict.id, action.newerId, now);
      } else {
        ActionKeepsOneCurrent(r.sessions, p, r.verdict.id, r.verdict.session, action, now);
      }
    }
  }

  /** What a request leaves stored; an accepted one stores nothing under ids other than its own new one. */
  lemma {:induction false} SessionsAfter(w: World, p: Policy, id: SessionId, newId: SessionId, action: Action, now: int)
    ensures var r := Verified(w, p, id, newId, now);
      && Next(w, p, Request(id, newId, action, now)).sessions ==
        (if r.verdict.Rejected? then r.sessions
         else Perform(r.sessions, p, r.verdict.id, r.verdict.session, action, now))
      && (r.verdict.Accepted? ==> r.sessions.Keys <= w.sessions.Keys + {newId})
  {
  }

  lemma {:induction false} ActionKeepsOneCurrent(t: SessionTable, p: Policy, id: SessionId, s: Session, action: Action,
          now: int)
    requires OneCurrent(t) && !action.RotateNow?
    ensures OneCurrent(Perform(t, p, id, s, action, now))
  {
    var t' := Perform(t, p, id, s, action, now);
    forall k | Current(t', k) ensures Current(t, k) && t'[k].family == t[k].family {}
  }

  lemma {:induction false} DemandedRotation(t: SessionTable, p: Policy, id: SessionId, newerId: SessionId, now: int)
    requires OneCurrent(t) && id in t && newerId !in t
    ensures var t' := Rotate(t, p, id, t[id], newerId, now).sessions;
      OneCurrent(t') <==> (Current(t, id) || forall k | Current(t, k) :: t[k].family != t[id].family)
  {
    var t' := Rotate(t, p, id, t[id], newerId, now).sessions;
    assert Current(t', newerId) && t'[newerId].family == t[id].family;
    forall k | Current(t', k) && k != newerId ensures Current(t, k) && k != id && t'[k] == t[k] {}
    forall k | Current(t, k) && k != id ensures Current(t', k) && t'[k] == t[k] {}
  }

  // ----- pruning is unobservable -----

  predicate Live(t: SessionTable, id: SessionId, now: int) {
    id in t && t[id].absoluteAt > now
  }

  /** Two stores with the same sessions, apart from ones past their absolute deadline. */
  ghost predicate Alike(a: SessionTable, b: SessionTable, now: int) {
    forall id | Live(a, id, now) || Live(b, id, now) :: id in a && id in b && a[id] == b[id]
  }

  /** The sessions of a family share one absolute deadline. */
  ghost predicate SharedDeadlines(t: SessionTable) {
    forall a, b | a in t && b in t && t[a].family == t[b].family :: t[a].absoluteAt == t[b].absoluteAt
  }

  ghost predicate SameVerdict(a: Verdict, b: Verdict) {
    if a.Accepted? || b.Accepted? then a == b else true
  }

  lemma {:induction false} PruningKeepsAlike(t: SessionTable, now: int, retentionMs: nat)
    ensures Alike(t, Pruned(t, now, retentionMs), now)
  {
  }

  /** A request with a dead session is rejected and touches dead sessions only. */
  lemma {:induction false} DeadRequest(t: SessionTable, accounts: set<UserId>, p: Policy, id: SessionId,
          newId: SessionId, now: int)
    requires SharedDeadlines(t) && !Live(t, id, now)
    ensures var r := Authenticate(t, accounts, p, id, newId, now);
      r.verdict.Rejected? && Alike(t, r.sessions, now)
  {
  }

  lemma {:induction false} LiveRefresh(a: SessionTable, b: SessionTable, p: Policy, id: SessionId, newId: SessionId,
          now: int)
    requires Alike(a, b, now) && Live(a, id, now)
    ensures var ra, rb := Refresh(a, p, id, newId, now), Refresh(b, p, id, newId, now);
      ra.verdict == rb.verdict && Alike(ra.sessions, rb.sessions, now)
  {
  }

  lemma {:induction false} LiveRequest(a: SessionTable, b: SessionTable, accounts: set<UserId>, p: Policy,
          id: SessionId, newId: SessionId, now: int)
    requires Alike(a, b, now) && Live(a, id, now)
    ensures var ra, rb := Authenticate(a, accounts, p, id, newId, now), Authenticate(b, accounts, p, id, newId, now);
      ra.verdict == rb.verdict && Alike(ra.sessions, rb.sessions, now)
  {
    if Authenticate(a, accounts, p, id, newId, now).verdict.Accepted? {
      LiveRefresh(a, b, p, id, newId, now);
    } else {
      var family := a[id].family;
      assert Alike(RevokeFamily(a, family, now), RevokeFamily(b, family, now), now);
    }
  }

  lemma {:induction false} AlikeAuthenticate(a: SessionTable, b: SessionTable, accounts: set<UserId>, p: Policy,
          id: SessionId, newId: SessionId, now: int)
    requires Alike(a, b, now) && SharedDeadlines(a) && SharedDeadlines(b)
    ensures var ra, rb := Authenticate(a, accounts, p, id, newId, now), Authenticate(b, accounts, p, id, newId, now);
      SameVerdict(ra.verdict, rb.verdict) && Alike(ra.sessions, rb.sessions, now)
  {
    if Live(a, id, now) {
      LiveRequest(a, b, accounts, p, id, newId, now);
    } else {
      DeadRequest(a, accounts, p, id, newId, now);
      DeadRequest(b, accounts, p, id, newId, now);
    }
  }

  lemma {:induction false} AlikePerform(a: SessionTable, b: SessionTable, p: Policy, id: SessionId, s: Session,
          action: Action, now: int)
    requires Alike(a, b, now) && Live(a, id, now)
    ensures Alike(Perform(a, p, id, s, action, now), Perform(b, p, id, s, action, now), now)
  {
  }

  /** Two worlds that no request can tell apart: the histories agree, apart from the families that a
      replay of a forgotten session would have revoked again. */
  ghost predicate Alikes(a: World, b: World) {
    Alike(a.sessions, b.sessions, a.clock) && SameHistory(a, b)
  }

  ghost predicate SameHistory(a: World, b: World) {
    && a.accounts == b.accounts && a.clock == b.clock && a.issued == b.issued && a.origins == b.origins
    && a.acceptedAt == b.acceptedAt && a.replacedAt == b.replacedAt
  }

  lemma {:induction false} SoundSharesDeadlines(w: World, p: Policy)
    requires Sound(w, p)
    ensures SharedDeadlines(w.sessions)
  {
    forall a, b | a in w.sessions && b in w.sessions && w.sessions[a].family == w.sessions[b].family
      ensures w.sessions[a].absoluteAt == w.sessions[b].absoluteAt
    {
      assert Kept(w, p, a, w.sessions[a]) && Kept(w, p, b, w.sessions[b]);
    }
  }

  /** What a client sees of an event: the outcome of its request. */
  function Seen(w: World, p: Policy, e: Event): seq<Verdict> {
    if e.Request? then [Verified(w, p, e.id, e.newId, e.now).verdict] else []
  }

  lemma {:induction false} AlikeLater(a: SessionTable, b: SessionTable, now: int, later: int)
    requires Alike(a, b, now) && now <= later
    ensures Alike(a, b, later)
  {
  }

  ghost predicate SameOutcomes(a: seq<Verdict>, b: seq<Verdict>) {
    |a| == |b| && forall i | 0 <= i < |a| :: SameVerdict(a[i], b[i])
  }

  lemma {:induction false} AlikesReply(a: World, b: World, id: SessionId, ra: Reply, rb: Reply, now: int)
    requires SameHistory(a, b)
    requires SameVerdict(ra.verdict, rb.verdict) && Alike(ra.sessions, rb.sessions, now)
    ensures Alikes(AfterReply(a, id, ra, now), AfterReply(b, id, rb, now))
  {
    if ra.verdict.Accepted? {
      AlikesAccepted(a, b, id, ra, rb, now);
    } else {
      assert rb.verdict.Rejected?;
    }
  }

  lemma {:induction false} AlikesAccepted(a: World, b: World, id: SessionId, ra: Reply, rb: Reply, now: int)
    requires SameHistory(a, b)
    requires ra.verdict.Accepted? && ra.verdict == rb.verdict && Alike(ra.sessions, rb.sessions, now)
    ensures Alikes(AfterReply(a, id, ra, now), AfterReply(b, id, rb, now))
  {
    if ra.verdict.id == id {
      assert Heard(a, id, now) == Heard(b, id, now);
    }
  }

  lemma {:induction false} AlikesAuth(a: World, b: World, p: Policy, id: SessionId, newId: SessionId, now: int)
    requires SharedDeadlines(a.sessions) && SharedDeadlines(b.sessions) && Alikes(a, b) && a.clock <= now
    ensures SameVerdict(Verified(a, p, id, newId, now).verdict, Verified(b, p, id, newId, now).verdict)
    ensures Alikes(AfterAuth(a, p, id, newId, now), AfterAuth(b, p, id, newId, now))
  {
    AlikeLater(a.sessions, b.sessions, a.clock, now);
    AlikeAuthenticate(a.sessions, b.sessions, a.accounts, p, id, newId, now);
    AlikesReply(a, b, id, Verified(a, p, id, newId, now), Verified(b, p, id, newId, now), now);
  }

  lemma {:induction false} AlikesAction(a: World, b: World, p: Policy, id: SessionId, s: Session, action: Action)
    requires Alikes(a, b) && Live(a.sessions, id, a.clock)
    ensures Alikes(AfterAction(a, p, id, s, action, a.clock), AfterAction(b, p, id, s, action, a.clock))
  {
    AlikePerform(a.sessions, b.sessions, p, id, s, action, a.clock);
  }

  lemma {:induction false} AlikesRequest(a: World, b: World, p: Policy, id: SessionId, newId: SessionId, action: Action,
          now: int)
    requires SharedDeadlines(a.sessions) && SharedDeadlines(b.sessions) && Alikes(a, b) && a.clock <= now
    ensures Alikes(AfterRequest(a, p, id, newId, action, now), AfterRequest(b, p, id, newId, action, now))
    ensures SameVerdict(Verified(a, p, id, newId, now).verdict, Verified(b, p, id, newId, now).verdict)
  {
    AlikesAuth(a, b, p, id, newId, now);
    var v := Verified(a, p, id, newId, now).verdict;
    if v.Accepted? {
      AcceptedIsSame(a.sessions, a.accounts, p, id, newId, now);
      AlikesAction(AfterAuth(a, p, id, newId, now), AfterAuth(b, p, id, newId, now), p, v.id, v.session, action);
    }
  }

  lemma {:induction false} AlikesSeen(a: World, b: World, p: Policy, e: Event)
    requires SharedDeadlines(a.sessions) && SharedDeadlines(b.sessions) && Alikes(a, b) && Enabled(a, e) && e.Request?
    ensures Enabled(b, e) && Alikes(Next(a, p, e), Next(b, p, e)) && SameOutcomes(Seen(a, p, e), Seen(b, p, e))
  {
    AlikesRequest(a, b, p, e.id, e.newId, e.action, e.now);
  }

  lemma {:induction false} AlikesAfterPrune(a: World, b: World, p: Policy, retentionMs: nat, now: int)
    requires Alikes(a, b) && a.clock <= now
    ensures Alikes(Next(a, p, Prune(retentionMs, now)), b.(clock := now))
  {
    AlikeLater(a.sessions, b.sessions, a.clock, now);
    PruningKeepsAlike(a.sessions, now, retentionMs);
  }

  lemma {:induction false} AlikesLogin(a: World, b: World, p: Policy, user: UserId, id: SessionId, family: FamilyId,
          now: int)
    requires Alikes(a, b) && a.clock <= now
    ensures Alikes(AfterLogin(a, p, user, id, family, now), AfterLogin(b, p, user, id, family, now))
  {
    AlikeLater(a.sessions, b.sessions, a.clock, now);
  }

  lemma {:induction false} AlikesStep(a: World, b: World, p: Policy, e: Event)
    requires WellFormed(p) && Sound(a, p) && Sound(b, p) && Alikes(a, b) && Enabled(a, e)
    ensures Enabled(b, e) && Alikes(Next(a, p, e), Next(b, p, e))
    ensures SameOutcomes(Seen(a, p, e), Seen(b, p, e))
  {
    match e
    case Login(user, id, family, now) => AlikesLogin(a, b, p, user, id, family, now);
    case Request(id, newId, action, now) =>
      SoundSharesDeadlines(a, p);
      SoundSharesDeadlines(b, p);
      AlikesSeen(a, b, p, e);
    case Prune(retentionMs, now) =>
      AlikesAfterPrune(a, b, p, retentionMs, now);
      PruningKeepsAlike(b.sessions, now, retentionMs);
    case AccountsChange(accounts, now) => AlikeLater(a.sessions, b.sessions, a.clock, now);
  }

  /** An event, or the mere passing of time in place of a prune. */
  function Unpruned(w: World, e: Event): Event {
    if e.Prune? then AccountsChange(w.accounts, e.now) else e
  }

  /** The same events with every prune left out. */
  function WithoutPruning(w: World, p: Policy, events: seq<Event>): seq<Event>
    decreases |events|
  {
    if events == [] then []
    else [Unpruned(w, events[0])] + WithoutPruning(Next(w, p, Unpruned(w, events[0])), p, events[1..])
  }

  lemma {:induction false} AlikesUnpruned(a: World, b: World, p: Policy, e: Event)
    requires WellFormed(p) && Sound(a, p) && Sound(b, p) && Alikes(a, b) && Enabled(a, e)
    ensures Enabled(b, Unpruned(b, e)) && Alikes(Next(a, p, e), Next(b, p, Unpruned(b, e)))
    ensures SameOutcomes(Seen(a, p, e), Seen(b, p, Unpruned(b, e)))
  {
    if e.Prune? {
      AlikesAfterPrune(a, b, p, e.retentionMs, e.now);
      assert Next(b, p, Unpruned(b, e)) == b.(clock := e.now);
    } else {
      AlikesStep(a, b, p, e);
    }
  }

  /** The outcomes of all requests of a run, in order. */
  function AllSeen(w: World, p: Policy, events: seq<Event>): seq<Verdict>
    decreases |events|
  {
    if events == [] then [] else Seen(w, p, events[0]) + AllSeen(Next(w, p, events[0]), p, events[1..])
  }

  lemma {:induction false} SameOutcomesAppend(a: seq<Verdict>, b: seq<Verdict>, a': seq<Verdict>, b': seq<Verdict>)
    requires SameOutcomes(a, b) && SameOutcomes(a', b')
    ensures SameOutcomes(a + a', b + b')
  {
  }

  lemma {:induction false} AlikesRun(a: World, b: World, p: Policy, events: seq<Event>, a': World)
    requires WellFormed(p) && Sound(a, p) && Sound(b, p) && Alikes(a, b) && Leads(a, p, events, a')
    ensures SameOutcomes(AllSeen(a, p, events), AllSeen(b, p, WithoutPruning(b, p, events)))
    decreases |events|
  {
    if events != [] {
      var e, f := events[0], Unpruned(b, events[0]);
      AlikesUnpruned(a, b, p, e);
      StepKeepsSound(a, p, e);
      StepKeepsSound(b, p, f);
      AlikesRun(Next(a, p, e), Next(b, p, f), p, events[1..], a');
      var rest := WithoutPruning(Next(b, p, f), p, events[1..]);
      assert WithoutPruning(b, p, events) == [f] + rest && ([f] + rest)[1..] == rest;
      SameOutcomesAppend(Seen(a, p, e), Seen(b, p, f), AllSeen(Next(a, p, e), p, events[1..]),
        AllSeen(Next(b, p, f), p, rest));
    }
  }

  /** Pruning is unobservable: over every run, with prunes anywhere and any retention, each request is
      accepted or rejected exactly as if nothing had ever been pruned, and an accepted one continues with
      the same session. */
  lemma {:induction false} PruningIsUnobservable(p: Policy, events: seq<Event>, w: World)
    requires WellFormed(p) && Leads(EMPTY, p, events, w)
    ensures SameOutcomes(AllSeen(EMPTY, p, events), AllSeen(EMPTY, p, WithoutPruning(EMPTY, p, events)))
  {
    AlikesRun(EMPTY, EMPTY, p, events, w);
  }
}
