/** The request pipeline in front of every signed-in route, step by step against the store. */
module Authentication {
  import opened LeagueRules
  import opened Sessions
  import opened Store

  /** Logging in: a new family, and the housekeeping that goes with it. */
  method IssueSession(store: JsonStore, p: Policy, user: UserId, id: SessionId, family: FamilyId, now: int,
          retentionMs: int)
    modifies store`sessions
    ensures store.sessions == Pruned(old(store.sessions)[id := Issued(p, user, family, now)], now, retentionMs)
  {
    var idleFor := if p.idleMs <= p.absoluteMs then p.idleMs else p.absoluteMs;
    store.SaveSession(id, Session(user, family, now + idleFor, now + p.absoluteMs, now, now, None, None));
    var _ := store.PruneSessions(now, retentionMs);
  }

  method RotateSession(store: JsonStore, p: Policy, id: SessionId, current: Session, newId: SessionId, now: int)
    returns (next: Session)
    modifies store`sessions
    ensures Reply(store.sessions, Accepted(newId, next)) == Rotate(old(store.sessions), p, id, current, newId, now)
  {
    var absolute := current.absoluteAt;
    var expiresAt := if now + p.idleMs <= absolute then now + p.idleMs else absolute;
    next := current.(lastRotatedAt := now, lastSeenAt := now, expiresAt := expiresAt, supersededAt := None);
    store.RotateSession(id, newId, next, now);
  }

  /** The middleware. newId is the fresh id a due rotation issues. */
  method Authenticated(store: JsonStore, p: Policy, id: SessionId, newId: SessionId, now: int)
    returns (verdict: Verdict)
    modifies store`sessions
    ensures Reply(store.sessions, verdict) == Authenticate(old(store.sessions), store.accounts.Keys, p, id, newId, now)
  {
    if id !in store.sessions {
      return Rejected(UnknownSession);
    }
    var session := store.sessions[id];
    if session.revokedAt.Some? {
      store.RevokeSessionFamily(session.family, now);
      return Rejected(RevokedReplayed);
    }
    if session.expiresAt <= now || session.absoluteAt <= now {
      store.RevokeSession(id, now);
      return Rejected(Expired);
    }
    if session.supersededAt.Some? && now - session.supersededAt.value > p.graceMs {
      store.RevokeSessionFamily(session.family, now);
      return Rejected(ReuseDetected);
    }
    if session.user !in store.accounts {
      store.RevokeSessionFamily(session.family, now);
      return Rejected(UserRemoved);
    }
    verdict := Accepted(id, session);
    if session.supersededAt.None? && now - session.lastRotatedAt >= p.rotateMs {
      var next := RotateSession(store, p, id, session, newId, now);
      verdict := Accepted(newId, next);
    } else if session.supersededAt.None? && now - session.lastSeenAt >= p.touchMs {
      var expiresAt := if now + p.idleMs <= session.absoluteAt then now + p.idleMs else session.absoluteAt;
      store.TouchSession(id, expiresAt, now);
      verdict := Accepted(id, session.(expiresAt := expiresAt, lastSeenAt := now));
    }
  }

  /** What the session routes do after the middleware let a request through. */
  method Act(store: JsonStore, p: Policy, id: SessionId, session: Session, action: Action, now: int)
    modifies store`sessions
    ensures store.sessions == Perform(old(store.sessions), p, id, session, action, now)
  {
    match action {
      case Browse =>
      case RotateNow(newerId) => var _ := RotateSession(store, p, id, session, newerId, now);
      case Logout => store.RevokeSessionFamily(session.family, now);
      case LogoutAll => store.RevokeUserSessions(session.user, now);
    }
  }
}
