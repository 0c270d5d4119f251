/** Dashboard sessions: the tables of internal/storage/auth_sessions.go and the
    manager of internal/web/session.go. Hashes are taken as injective, so a
    session id and a nonce stand for their hashes. */
module AuthSessions {
  import opened Prelude

  type SessionID = int
  type Nonce = int
  type OID = int

  const LOGIN_TTL: Time := 10 * MINUTE
  const RENEW_INTERVAL: Time := 5 * MINUTE
  const MAX_CLOCK_SKEW: Time := 2 * MINUTE

  datatype AuthSession = AuthSession(
    id: SessionID, nonce: Nonce, oid: OID, authAt: Time, expiresAt: Time, renewedAt: Time)

  datatype Store = Store(sessions: map<SessionID, AuthSession>, nonces: map<Nonce, Time>)

  datatype CreateOutcome = Created | LoginNonceUsed | CreateFailed

  /** Whether and where the insert transaction fails for a reason of its own: before
      its nonce is inserted, or after that (when the session is, or at the commit). */
  datatype TxFault = NoFault | BeforeNonce | AfterNonce

  function CreateAuthSession(st: Store, s: AuthSession, nonceExpiresAt: Time, fault: TxFault): (Store, CreateOutcome) {
    if fault == BeforeNonce then (st, CreateFailed)
    else if s.nonce in st.nonces then (st, LoginNonceUsed)
    else if fault == AfterNonce || s.id in st.sessions then (st, CreateFailed)
    else
      var row := s.(authAt := Unix(s.authAt), expiresAt := Unix(s.expiresAt), renewedAt := Unix(s.renewedAt));
      (Store(st.sessions[s.id := row], st.nonces[s.nonce := Unix(nonceExpiresAt)]), Created)
  }

  datatype Fetched = Found(session: AuthSession) | NotFound | StoreError

  /** `ok` tells whether the query itself worked. */
  function GetAuthSession(st: Store, id: SessionID, ok: bool): Fetched {
    if !ok then StoreError else if id in st.sessions then Found(st.sessions[id]) else NotFound
  }

  /** An update, never an insert. */
  function RenewAuthSession(st: Store, id: SessionID, expiresAt: Time, renewedAt: Time): Store {
    if id !in st.sessions then st
    else st.(sessions := st.sessions[
      id := st.sessions[id].(expiresAt := Unix(expiresAt), renewedAt := Unix(renewedAt))])
  }

  function DeleteAuthSessionsForUser(st: Store, oid: OID): Store {
    st.(sessions := map id | id in st.sessions && st.sessions[id].oid != oid :: st.sessions[id])
  }

  function PruneNonces(st: Store, now: Time): Store {
    st.(nonces := map n | n in st.nonces && st.nonces[n] > Unix(now) :: st.nonces[n])
  }

  function PruneSessions(st: Store, now: Time): Store {
    st.(sessions := map id | id in st.sessions && st.sessions[id].expiresAt > Unix(now) :: st.sessions[id])
  }

  /** A prune is two statements; it may fail at either. */
  datatype PruneReach = NothingPruned | NoncesPruned | AllPruned

  function PruneAuthSessions(st: Store, now: Time, reach: PruneReach): Store {
    match reach
    case NothingPruned => st
    case NoncesPruned => PruneNonces(st, now)
    case AllPruned => PruneSessions(PruneNonces(st, now), now)
  }

  /** The two tables; every method but Prune is one statement or transaction. */
  class SQLiteStore {
    var sessions: map<SessionID, AuthSession>
    var usedNonces: map<Nonce, Time>

    ghost function Abs(): Store
      reads this
    {
      Store(sessions, usedNonces)
    }

    constructor ()
      ensures Abs() == Store(map[], map[])
    {
      sessions, usedNonces := map[], map[];
    }

    method Create(s: AuthSession, nonceExpiresAt: Time, fault: TxFault) returns (r: CreateOutcome)
      modifies this
      ensures (Abs(), r) == CreateAuthSession(old(Abs()), s, nonceExpiresAt, fault)
    {
      var before := usedNonces;
      if fault == BeforeNonce {
        return CreateFailed;
      }
      if s.nonce in usedNonces {
        return LoginNonceUsed;
      }
      usedNonces := usedNonces[s.nonce := Unix(nonceExpiresAt)];
      if fault == AfterNonce || s.id in sessions {
        usedNonces := before;  // roll back
        return CreateFailed;
      }
      var row := s.(authAt := Unix(s.authAt), expiresAt := Unix(s.expiresAt), renewedAt := Unix(s.renewedAt));
      sessions := sessions[s.id := row];
      r := Created;
    }

    method Get(id: SessionID, ok: bool) returns (f: Fetched)
      ensures f == GetAuthSession(Abs(), id, ok)
    {
      if !ok {
        return StoreError;
      }
      f := if id in sessions then Found(sessions[id]) else NotFound;
    }

    method Renew(id: SessionID, expiresAt: Time, renewedAt: Time)
      modifies this
      ensures Abs() == RenewAuthSession(old(Abs()), id, expiresAt, renewedAt)
    {
      if id in sessions {
        var row := sessions[id].(expiresAt := Unix(expiresAt), renewedAt := Unix(renewedAt));
        sessions := sessions[id := row];
      }
    }

    method DeleteForUser(oid: OID)
      modifies this
      ensures Abs() == DeleteAuthSessionsForUser(old(Abs()), oid)
    {
      sessions := map id | id in sessions && sessions[id].oid != oid :: sessions[id];
    }

    method Prune(now: Time, reach: PruneReach) returns (ok: bool)
      modifies this
      ensures Abs() == PruneAuthSessions(old(Abs()), now, reach)
      ensures ok <==> reach == AllPruned
    {
      if reach == NothingPruned {
        return false;
      }
      usedNonces := map n | n in usedNonces && usedNonces[n] > Unix(now) :: usedNonces[n];
      if reach == NoncesPruned {
        return false;
      }
      sessions := map id | id in sessions && sessions[id].expiresAt > Unix(now) :: sessions[id];
      ok := true;
    }
  }

  // ----- The session manager -----

  datatype Policy = Policy(idleTimeout: Time, maxAge: Time)
  {
    predicate Valid() {
      0 < idleTimeout <= maxAge
    }

    /** Both lifetimes are configured in hours and days. */
    predicate WholeSeconds() {
      idleTimeout % SECOND == 0 && maxAge % SECOND == 0
    }
  }

  /** `iat` is in seconds; 0 means the claim is missing. */
  datatype Claims = Claims(nonce: Nonce, iat: int, oid: OID)

  datatype Refusal = NoSession | SessionExpired | NoLogin | NonceMismatch | StaleIDToken | NonceUsed | StoreFailure

  datatype Answer = Granted(session: AuthSession) | Refused(reason: Refusal) | Done

  function Expiry(p: Policy, authAt: Time, now: Time): Time {
    Min(now + p.idleTimeout, authAt + p.maxAge)
  }

  function Live(p: Policy, s: AuthSession, now: Time): bool {
    now < s.expiresAt && now < s.authAt + p.maxAge
  }

  function Stale(claims: Claims, now: Time): bool {
    claims.iat == 0 || now - claims.iat * SECOND > LOGIN_TTL || claims.iat * SECOND - now > MAX_CLOCK_SKEW
  }

  function NonceExpiry(claims: Claims): Time {
    claims.iat * SECOND + LOGIN_TTL + MAX_CLOCK_SKEW
  }

  function NewSession(p: Policy, claims: Claims, id: SessionID, now: Time): AuthSession {
    var issuedAt := claims.iat * SECOND;
    AuthSession(id, claims.nonce, claims.oid, issuedAt, Expiry(p, issuedAt, now), now)
  }

  /** How the store fares during a login: its own prune, then the insert. */
  datatype LoginFaults = LoginFaults(prune: PruneReach, insert: TxFault)

  /** `cookie` is the nonce of the browser's login transaction, `id` the random
      id drawn for the session. */
  function Login(p: Policy, st: Store, now: Time, cookie: Option<Nonce>, claims: Claims, id: SessionID,
                 faults: LoginFaults): (Store, Answer)
  {
    if cookie.None? then (st, Refused(NoLogin))
    else if claims.nonce != cookie.value then (st, Refused(NonceMismatch))
    else if Stale(claims, now) then (st, Refused(StaleIDToken))
    else
      var pruned := PruneAuthSessions(st, now, faults.prune);
      var s := NewSession(p, claims, id, now);
      match CreateAuthSession(pruned, s, NonceExpiry(claims), faults.insert)
      case (st', Created) => (st', Granted(s))
      case (st', LoginNonceUsed) => (st', Refused(NonceUsed))
      case (st', CreateFailed) => (st', Refused(StoreFailure))
  }

  /** The part of a lookup that follows its Get. */
  function Judge(p: Policy, got: Fetched, now: Time): Answer {
    match got
    case StoreError => Refused(StoreFailure)
    case NotFound => Refused(SessionExpired)
    case Found(s) => if Live(p, s, now) then Granted(s) else Refused(SessionExpired)
  }

  function Renews(s: AuthSession, now: Time, renew: bool): bool {
    renew && now - s.renewedAt >= RENEW_INTERVAL
  }

  function Lookup(p: Policy, st: Store, now: Time, cookie: Option<SessionID>, renew: bool, getOk: bool,
                  renewOk: bool): (Store, Answer)
  {
    if cookie.None? then (st, Refused(NoSession))
    else
      var answer := Judge(p, GetAuthSession(st, cookie.value, getOk), now);
      if answer.Granted? && Renews(answer.session, now, renew) && renewOk then
        var exp := Expiry(p, answer.session.authAt, now);
        (RenewAuthSession(st, cookie.value, exp, now),
         Granted(answer.session.(expiresAt := exp, renewedAt := now)))
      else (st, answer)
  }

  function Check(p: Policy, st: Store, now: Time, id: SessionID, getOk: bool): Answer {
    Judge(p, GetAuthSession(st, id, getOk), now)
  }

  class SessionManager {
    const store: SQLiteStore
    const policy: Policy

    constructor (store: SQLiteStore, policy: Policy)
      requires policy.Valid()
      ensures this.store == store && this.policy == policy
    {
      this.store := store;
      this.policy := policy;
    }

    method CreateSession(now: Time, cookie: Option<Nonce>, claims: Claims, id: SessionID, faults: LoginFaults)
      returns (a: Answer)
      modifies store
      ensures (store.Abs(), a) == Login(policy, old(store.Abs()), now, cookie, claims, id, faults)
    {
      hide PruneAuthSessions, CreateAuthSession;
      if cookie.None? {
        return Refused(NoLogin);
      }
      if claims.nonce != cookie.value {
        return Refused(NonceMismatch);
      }
      var issuedAt := claims.iat * SECOND;
      if claims.iat == 0 || now - issuedAt > LOGIN_TTL || issuedAt - now > MAX_CLOCK_SKEW {
        return Refused(StaleIDToken);
      }
      var _ := store.Prune(now, faults.prune);  // a failure is only logged
      var s := AuthSession(id, claims.nonce, claims.oid, issuedAt, Expiry(policy, issuedAt, now), now);
      var r := store.Create(s, issuedAt + LOGIN_TTL + MAX_CLOCK_SKEW, faults.insert);
      match r {
        case Created => a := Granted(s);
        case LoginNonceUsed => a := Refused(NonceUsed);
        case CreateFailed => a := Refused(StoreFailure);
      }
    }

    method LookupSession(now: Time, cookie: Option<SessionID>, renew: bool, getOk: bool, renewOk: bool)
      returns (a: Answer)
      modifies store
      ensures (store.Abs(), a) == Lookup(policy, old(store.Abs()), now, cookie, renew, getOk, renewOk)
    {
      if cookie.None? {
        return Refused(NoSession);
      }
      var got := store.Get(cookie.value, getOk);
      if got.NotFound? {
        return Refused(SessionExpired);
      }
      if got.StoreError? {
        return Refused(StoreFailure);
      }
      var sess := got.session;
      if !(now < sess.expiresAt && now < sess.authAt + policy.maxAge) {
        return Refused(SessionExpired);
      }
      if renew && now - sess.renewedAt >= RENEW_INTERVAL && renewOk {
        var exp := Expiry(policy, sess.authAt, now);
        store.Renew(cookie.value, exp, now);
        sess := sess.(expiresAt := exp, renewedAt := now);
      }
      a := Granted(sess);
    }

    method CheckSession(now: Time, id: SessionID, getOk: bool) returns (a: Answer)
      ensures a == Check(policy, store.Abs(), now, id, getOk)
    {
      var got := store.Get(id, getOk);
      if got.NotFound? {
        return Refused(SessionExpired);
      }
      if got.StoreError? {
        return Refused(StoreFailure);
      }
      if !Live(policy, got.session, now) {
        return Refused(SessionExpired);
      }
      a := Granted(got.session);
    }

    method RevokeUser(oid: OID)
      modifies store
      ensures store.Abs() == DeleteAuthSessionsForUser(old(store.Abs()), oid)
    {
      store.DeleteForUser(oid);
    }
  }
}
