/** How long dashboard sessions live, over runs of atomic operations. */
module SessionLifetimes {
  import opened Prelude
  import opened AuthSessions

  datatype Event =
    | LoginEvent(now: Time, nonce: Option<Nonce>, claims: Claims, id: SessionID, faults: LoginFaults)
    | LookupEvent(now: Time, cookie: Option<SessionID>, renew: bool, getOk: bool, renewOk: bool)
    | CheckEvent(now: Time, id: SessionID, getOk: bool)
    | RevokeEvent(now: Time, oid: OID)
    | PruneEvent(now: Time, reach: PruneReach)

  function Apply(p: Policy, st: Store, e: Event): (Store, Answer) {
    match e
    case LoginEvent(now, nonce, claims, id, faults) => Login(p, st, now, nonce, claims, id, faults)
    case LookupEvent(now, cookie, renew, getOk, renewOk) => Lookup(p, st, now, cookie, renew, getOk, renewOk)
    case CheckEvent(now, id, getOk) => (st, Check(p, st, now, id, getOk))
    case RevokeEvent(_, oid) => (DeleteAuthSessionsForUser(st, oid), Done)
    case PruneEvent(now, reach) => (PruneAuthSessions(st, now, reach), Done)
  }

  ghost predicate IsRun(p: Policy, run: seq<Store>, events: seq<Event>, answers: seq<Answer>) {
    && p.Valid() && p.WholeSeconds()
    && |run| == |events| + 1 && |answers| == |events|
    && forall i :: 0 <= i < |events| ==> IsStep(p, run, events, answers, i)
  }

  ghost predicate IsStep(p: Policy, run: seq<Store>, events: seq<Event>, answers: seq<Answer>, i: nat)
    requires i < |events| == |answers| && |run| == |events| + 1
  {
    (run[i + 1], answers[i]) == Apply(p, run[i], events[i])
  }

  predicate Ordered(events: seq<Event>) {
    forall i, j :: 0 <= i < j < |events| ==> events[i].now <= events[j].now
  }

  const EmptyStore := Store(map[], map[])

  // ----- The stored invariant -----

  /** What create and renew keep of a row: its expiry is the exact sliding one,
      for the moment it was last renewed. */
  ghost predicate RowKept(p: Policy, id: SessionID, s: AuthSession) {
    && s.id == id
    && s.authAt % SECOND == 0 && s.expiresAt % SECOND == 0
    && s.expiresAt == Min(s.renewedAt + p.idleTimeout, s.authAt + p.maxAge)
  }

  ghost predicate StoreKept(p: Policy, st: Store) {
    && (forall id :: id in st.sessions ==> RowKept(p, id, st.sessions[id]))
    && (forall n :: n in st.nonces ==> st.nonces[n] % SECOND == 0)
  }

  lemma UnixOfMin(p: Policy, authAt: Time, now: Time)
    requires p.WholeSeconds() && authAt % SECOND == 0
    ensures Unix(Expiry(p, authAt, now)) == Min(Unix(now) + p.idleTimeout, authAt + p.maxAge)
  {
  }

  lemma CreateKeeps(p: Policy, st: Store, claims: Claims, id: SessionID, now: Time, fault: TxFault)
    requires p.WholeSeconds() && StoreKept(p, st)
    ensures StoreKept(p, CreateAuthSession(st, NewSession(p, claims, id, now), NonceExpiry(claims), fault).0)
  {
    var issuedAt := claims.iat * SECOND;
    UnixOfMin(p, issuedAt, now);
    assert Unix(issuedAt) == issuedAt;
  }

  lemma RenewKeeps(p: Policy, st: Store, id: SessionID, now: Time)
    requires p.WholeSeconds() && StoreKept(p, st) && id in st.sessions
    ensures StoreKept(p, RenewAuthSession(st, id, Expiry(p, st.sessions[id].authAt, now), now))
  {
    UnixOfMin(p, st.sessions[id].authAt, now);
  }

  lemma ApplyKeeps(p: Policy, st: Store, e: Event)
    requires p.WholeSeconds() && StoreKept(p, st)
    ensures StoreKept(p, Apply(p, st, e).0)
  {
    match e {
      case LoginEvent(now, nonce, claims, id, faults) =>
        CreateKeeps(p, PruneAuthSessions(st, now, faults.prune), claims, id, now, faults.insert);
      case LookupEvent(now, cookie, renew, getOk, renewOk) =>
        if cookie.Some? && cookie.value in st.sessions {
          RenewKeeps(p, st, cookie.value, now);
        }
      case _ =>
    }
  }

  /** In every store a run reaches, each session expires exactly at
      min(renewedAt + idle, authAt + maxAge). */
  lemma {:induction false} ExpiryInvariant(p: Policy, run: seq<Store>, events: seq<Event>, answers: seq<Answer>, n: nat)
    requires IsRun(p, run, events, answers) && run[0] == EmptyStore && n <= |events|
    ensures StoreKept(p, run[n])
  {
    if n > 0 {
      hide Apply, StoreKept;
      ExpiryInvariant(p, run, events, answers, n - 1);
      assert IsStep(p, run, events, answers, n - 1);
      ApplyKeeps(p, run[n - 1], events[n - 1]);
    }
  }

  // ----- Sessions in use stay alive -----

  /** The time session `id` was last used: created, or found by a lookup that renews. */
  function LastUse(events: seq<Event>, n: nat, id: SessionID): Option<Time>
    requires n <= |events|
  {
    if n == 0 then None
    else if IsUse(events[n - 1], id) then Some(events[n - 1].now)
    else LastUse(events, n - 1, id)
  }

  predicate IsUse(e: Event, id: SessionID) {
    (e.LoginEvent? && e.id == id) || (e.LookupEvent? && e.cookie == Some(id) && e.renew && e.getOk)
  }

  /** Session `id` of `oid`, signed in at `authAt`, was renewed less than a
      renewal interval before its last use. */
  ghost predicate InUse(p: Policy, st: Store, id: SessionID, oid: OID, authAt: Time, lastUse: Time) {
    && id in st.sessions && st.sessions[id].oid == oid && st.sessions[id].authAt == authAt
    && lastUse - RENEW_INTERVAL < st.sessions[id].renewedAt <= lastUse
  }

  /** An event that does not end the session: it comes within the idle timeout
      (less one renewal interval) of the last use and before the absolute limit,
      the session's own renewal writes succeed, and it neither revokes the user nor
      draws the same id again. */
  ghost predicate Gentle(p: Policy, e: Event, id: SessionID, oid: OID, authAt: Time, lastUse: Time) {
    && lastUse <= e.now <= lastUse + p.idleTimeout - RENEW_INTERVAL
    && e.now < authAt + p.maxAge
    && (e.RevokeEvent? ==> e.oid != oid)
    && (e.LoginEvent? ==> e.id != id)
    && (IsUse(e, id) && e.LookupEvent? ==> e.renewOk)
  }

  /** A lookup or check of the session whose query works. */
  predicate Asks(e: Event, id: SessionID) {
    (e.LookupEvent? && e.cookie == Some(id) && e.getOk) || (e.CheckEvent? && e.id == id && e.getOk)
  }

  lemma GentleStep(p: Policy, st: Store, e: Event, id: SessionID, oid: OID, authAt: Time, lastUse: Time)
    requires p.WholeSeconds() && StoreKept(p, st)
    requires InUse(p, st, id, oid, authAt, lastUse) && Gentle(p, e, id, oid, authAt, lastUse)
    ensures InUse(p, Apply(p, st, e).0, id, oid, authAt, if IsUse(e, id) then e.now else lastUse)
    ensures Asks(e, id) ==> Apply(p, st, e).1.Granted?
  {
    var s := st.sessions[id];
    assert RowKept(p, id, s);
    assert e.now < s.expiresAt;
  }

  /** Throttling the renewal writes never costs a session in regular use: used
      at least every idle - renewInterval, it answers every lookup and every
      check until authAt + maxAge. `c` is its creation. */
  lemma {:induction false} UsedSessionSurvives(p: Policy, run: seq<Store>, events: seq<Event>, answers: seq<Answer>,
                                               c: nat, n: nat, id: SessionID)
    requires IsRun(p, run, events, answers) && run[0] == EmptyStore && c < n <= |events|
    requires events[c].LoginEvent? && events[c].id == id && answers[c].Granted?
    requires forall k :: c < k < n ==>
               Gentle(p, events[k], id, answers[c].session.oid, answers[c].session.authAt,
                      LastUse(events, k, id).GetOr(0))
    ensures LastUse(events, n, id).Some?
    ensures InUse(p, run[n], id, answers[c].session.oid, answers[c].session.authAt, LastUse(events, n, id).value)
    ensures forall k :: c < k < n && Asks(events[k], id) ==> answers[k].Granted?
  {
    hide Apply, StoreKept, InUse, Gentle;
    assert IsStep(p, run, events, answers, n - 1);
    if n == c + 1 {
      CreatedInUse(p, run[c], events[c]);
    } else {
      UsedSessionSurvives(p, run, events, answers, c, n - 1, id);
      ExpiryInvariant(p, run, events, answers, n - 1);
      GentleStep(p, run[n - 1], events[n - 1], id, answers[c].session.oid, answers[c].session.authAt,
                 LastUse(events, n - 1, id).value);
    }
  }

  lemma CreatedInUse(p: Policy, st: Store, e: Event)
    requires e.LoginEvent? && Apply(p, st, e).1.Granted?
    ensures var s := Apply(p, st, e).1.session;
            s.id == e.id && InUse(p, Apply(p, st, e).0, e.id, s.oid, s.authAt, e.now)
  {
    assert Unix(e.claims.iat * SECOND) == e.claims.iat * SECOND;
  }

  // ----- Unused sessions die -----

  /** The last successful use of a session. */
  function LastGranted(events: seq<Event>, answers: seq<Answer>, n: nat, id: SessionID): Option<Time>
    requires n <= |events| == |answers|
  {
    if n == 0 then None
    else if IsUse(events[n - 1], id) && answers[n - 1].Granted? then Some(events[n - 1].now)
    else LastGranted(events, answers, n - 1, id)
  }

  ghost predicate RenewedBy(st: Store, id: SessionID, t: Option<Time>) {
    id in st.sessions ==> t.Some? && st.sessions[id].renewedAt <= t.value
  }

  lemma RenewedByStep(p: Policy, st: Store, e: Event, id: SessionID, t: Option<Time>)
    requires RenewedBy(st, id, t)
    requires t.Some? ==> t.value <= e.now
    ensures RenewedBy(Apply(p, st, e).0, id, if IsUse(e, id) && Apply(p, st, e).1.Granted? then Some(e.now) else t)
  {
  }

  lemma {:induction false} RenewedByLastUse(p: Policy, run: seq<Store>, events: seq<Event>, answers: seq<Answer>,
                                            n: nat, id: SessionID)
    requires IsRun(p, run, events, answers) && run[0] == EmptyStore && Ordered(events) && n <= |events|
    ensures RenewedBy(run[n], id, LastGranted(events, answers, n, id))
    ensures LastGranted(events, answers, n, id).Some? && n < |events| ==>
              LastGranted(events, answers, n, id).value <= events[n].now
  {
    if n > 0 {
      hide Apply, RenewedBy;
      RenewedByLastUse(p, run, events, answers, n - 1, id);
      assert IsStep(p, run, events, answers, n - 1);
      RenewedByStep(p, run[n - 1], events[n - 1], id, LastGranted(events, answers, n - 1, id));
    }
  }

  /** Any lookup or check at least the idle timeout after the last successful
      use, or at or after authAt + maxAge, is refused. */
  lemma UnusedSessionDies(p: Policy, run: seq<Store>, events: seq<Event>, answers: seq<Answer>, n: nat, id: SessionID)
    requires IsRun(p, run, events, answers) && run[0] == EmptyStore && Ordered(events) && n < |events|
    requires Asks(events[n], id)
    requires || LastGranted(events, answers, n, id).None?
             || events[n].now >= LastGranted(events, answers, n, id).value + p.idleTimeout
             || (id in run[n].sessions && events[n].now >= run[n].sessions[id].authAt + p.maxAge)
    ensures answers[n].Refused?
  {
    ExpiryInvariant(p, run, events, answers, n);
    RenewedByLastUse(p, run, events, answers, n, id);
    assert IsStep(p, run, events, answers, n);
    if id in run[n].sessions {
      assert RowKept(p, id, run[n].sessions[id]);
    }
  }

  // ----- When pruning is observable -----

  /** `a` is `b` without some rows that are dead at `t`. */
  ghost predicate Pruned(a: Store, b: Store, t: Time) {
    && (forall id :: id in a.sessions ==> id in b.sessions && a.sessions[id] == b.sessions[id])
    && (forall id :: id in b.sessions && id !in a.sessions ==> b.sessions[id].expiresAt <= t)
    && (forall n :: n in a.nonces ==> n in b.nonces && a.nonces[n] == b.nonces[n])
  }

  /** A nonce that expires at `exp` is gone since the last prune, at `last`. */
  predicate Gone(exp: Time, last: Option<Time>) {
    last.Some? && exp <= Unix(last.value)
  }

  /** And of the nonces it lacks exactly those that had expired when the prunes it
      saw were last run. */
  ghost predicate PrunedSince(a: Store, b: Store, t: Time, last: Option<Time>) {
    && Pruned(a, b, t) && (last.Some? ==> last.value <= t)
    && (forall n :: n in b.nonces ==> (n in a.nonces <==> !Gone(b.nonces[n], last)))
  }

  function LastPrune(last: Option<Time>, now: Time, reach: PruneReach): Option<Time> {
    if reach == NothingPruned then last else Some(now)
  }

  /** A prune of the first store alone. */
  lemma PruneOne(a: Store, b: Store, t: Time, last: Option<Time>, now: Time, reach: PruneReach)
    requires PrunedSince(a, b, t, last) && t <= now
    ensures PrunedSince(PruneAuthSessions(a, now, reach), b, now, LastPrune(last, now, reach))
  {
    if last.Some? {
      UnixMonotone(last.value, now);
    }
  }

  /** The same prune of both. */
  lemma PruneBoth(a: Store, b: Store, t: Time, last: Option<Time>, now: Time, reach: PruneReach)
    requires PrunedSince(a, b, t, last) && t <= now
    ensures PrunedSince(PruneAuthSessions(a, now, reach), PruneAuthSessions(b, now, reach), now, last)
  {
  }

  lemma PrunedLookup(p: Policy, a: Store, b: Store, t: Time, last: Option<Time>, now: Time,
                     cookie: Option<SessionID>, renew: bool, getOk: bool, renewOk: bool)
    requires PrunedSince(a, b, t, last) && t <= now
    ensures PrunedSince(Lookup(p, a, now, cookie, renew, getOk, renewOk).0,
                        Lookup(p, b, now, cookie, renew, getOk, renewOk).0, now, last)
    ensures Lookup(p, a, now, cookie, renew, getOk, renewOk).1 == Lookup(p, b, now, cookie, renew, getOk, renewOk).1
  {
  }

  lemma PrunedRevoke(a: Store, b: Store, t: Time, last: Option<Time>, now: Time, oid: OID)
    requires PrunedSince(a, b, t, last) && t <= now
    ensures PrunedSince(DeleteAuthSessionsForUser(a, oid), DeleteAuthSessionsForUser(b, oid), now, last)
  {
  }

  /** The insert of a login: both stores answer alike unless the first has lost the
      nonce and the second has not, and then they differ. */
  lemma PrunedCreate(a: Store, b: Store, t: Time, last: Option<Time>, now: Time,
                     s: AuthSession, exp: Time, fault: TxFault)
    requires PrunedSince(a, b, t, last) && t <= now < Unix(exp) && s.id !in b.sessions
    ensures var ra := CreateAuthSession(a, s, exp, fault); var rb := CreateAuthSession(b, s, exp, fault);
            var lost := fault != BeforeNonce && s.nonce in b.nonces && s.nonce !in a.nonces;
            && (ra.1 == rb.1 <==> !lost)
            && (!lost ==> PrunedSince(ra.0, rb.0, now, last))
  {
    if last.Some? {
      assert Unix(last.value) <= last.value;
    }
  }

  /** The login redeems, unpruned, a nonce that an earlier prune had dropped: the
      nonce of its cookie is stored and had expired by then, its own prune does not
      reach the nonces, and the insert gets as far as the nonce. */
  ghost predicate RedeemsPruned(st: Store, last: Option<Time>, e: Event) {
    && e.LoginEvent? && e.nonce == Some(e.claims.nonce) && !Stale(e.claims, e.now)
    && e.faults.prune == NothingPruned && e.faults.insert != BeforeNonce
    && e.claims.nonce in st.nonces && Gone(st.nonces[e.claims.nonce], last)
  }

  ghost predicate FreshID(st: Store, e: Event) {
    e.LoginEvent? ==> e.id !in st.sessions
  }

  lemma PrunedLogin(p: Policy, a: Store, b: Store, t: Time, last: Option<Time>, e: Event)
    requires e.LoginEvent? && PrunedSince(a, b, t, last) && t <= e.now && FreshID(b, e)
    ensures Apply(p, a, e).1 == Apply(p, b, e).1 <==> !RedeemsPruned(b, last, e)
    ensures !RedeemsPruned(b, last, e) ==> PrunedSince(Apply(p, a, e).0, Apply(p, b, e).0, e.now, last)
  {
    hide PrunedSince, PruneAuthSessions, CreateAuthSession;
    PruneBoth(a, b, t, last, e.now, NothingPruned);
    if e.nonce == Some(e.claims.nonce) && !Stale(e.claims, e.now) {
      var a', b' := PruneAuthSessions(a, e.now, e.faults.prune), PruneAuthSessions(b, e.now, e.faults.prune);
      PruneBoth(a, b, t, last, e.now, e.faults.prune);
      PruneIsSubset(b, e.now, e.faults.prune, e.id);
      NonceOutlives(e.claims, e.now);
      PrunedCreate(a', b', e.now, last, e.now, NewSession(p, e.claims, e.id, e.now), NonceExpiry(e.claims),
                   e.faults.insert);
      LostNonce(a, b, t, last, e);
    } else {
      NothingPrunedKeeps(a, e.now);
      NothingPrunedKeeps(b, e.now);
    }
  }

  lemma NothingPrunedKeeps(st: Store, now: Time)
    ensures PruneAuthSessions(st, now, NothingPruned) == st
  {
  }

  lemma PruneIsSubset(st: Store, now: Time, reach: PruneReach, id: SessionID)
    requires id !in st.sessions
    ensures id !in PruneAuthSessions(st, now, reach).sessions
  {
  }

  lemma NonceOutlives(claims: Claims, now: Time)
    requires !Stale(claims, now)
    ensures now < Unix(NonceExpiry(claims))
  {
    assert NonceExpiry(claims) % SECOND == 0;
  }

  /** A nonce is missing from one store only if the login's own prune left it in the other. */
  lemma LostNonce(a: Store, b: Store, t: Time, last: Option<Time>, e: Event)
    requires e.LoginEvent? && PrunedSince(a, b, t, last) && t <= e.now
    ensures var n := e.claims.nonce;
            (&& n in PruneAuthSessions(b, e.now, e.faults.prune).nonces
             && n !in PruneAuthSessions(a, e.now, e.faults.prune).nonces)
              <==> e.faults.prune == NothingPruned && n in b.nonces && Gone(b.nonces[n], last)
  {
    if last.Some? {
      UnixMonotone(last.value, e.now);
    }
  }

  lemma PrunedStep(p: Policy, a: Store, b: Store, t: Time, last: Option<Time>, e: Event)
    requires PrunedSince(a, b, t, last) && t <= e.now && FreshID(b, e) && !e.PruneEvent?
    ensures Apply(p, a, e).1 == Apply(p, b, e).1 <==> !RedeemsPruned(b, last, e)
    ensures !RedeemsPruned(b, last, e) ==> PrunedSince(Apply(p, a, e).0, Apply(p, b, e).0, e.now, last)
  {
    hide PrunedSince, Login, Lookup, DeleteAuthSessionsForUser;
    match e {
      case LoginEvent(_, _, _, _, _) => PrunedLogin(p, a, b, t, last, e);
      case LookupEvent(now, cookie, renew, getOk, renewOk) =>
        PrunedLookup(p, a, b, t, last, now, cookie, renew, getOk, renewOk);
      case CheckEvent(now, id, getOk) =>
        PrunedLookup(p, a, b, t, last, now, Some(id), false, getOk, false);
        CheckIsLookup(p, a, now, id, getOk);
        CheckIsLookup(p, b, now, id, getOk);
      case RevokeEvent(now, oid) => PrunedRevoke(a, b, t, last, now, oid);
    }
  }

  lemma CheckIsLookup(p: Policy, st: Store, now: Time, id: SessionID, getOk: bool)
    ensures Lookup(p, st, now, Some(id), false, getOk, false) == (st, Check(p, st, now, id, getOk))
  {
  }

  /** The answers a caller sees: prunes have none. */
  function Answers(p: Policy, st: Store, events: seq<Event>): seq<Answer>
    decreases |events|
  {
    if events == [] then []
    else
      var (st', a) := Apply(p, st, events[0]);
      (if events[0].PruneEvent? then [] else [a]) + Answers(p, st', events[1..])
  }

  function WithoutPrunes(events: seq<Event>): seq<Event> {
    if events == [] then []
    else (if events[0].PruneEvent? then [] else [events[0]]) + WithoutPrunes(events[1..])
  }

  /** Random ids are new: in the run without prunes no login draws one that is stored. */
  ghost predicate FreshIDs(p: Policy, st: Store, events: seq<Event>)
    decreases |events|
  {
    events == [] ||
    (FreshID(st, events[0])
     && FreshIDs(p, if events[0].PruneEvent? then st else Apply(p, st, events[0]).0, events[1..]))
  }

  /** Some login of the run without prunes redeems a nonce that the prunes would have
      dropped; `last` is the time of the last of those. */
  ghost predicate SomeRedeemsPruned(p: Policy, st: Store, last: Option<Time>, events: seq<Event>)
    decreases |events|
  {
    events != [] &&
    if events[0].PruneEvent? then
      SomeRedeemsPruned(p, st, LastPrune(last, events[0].now, events[0].reach), events[1..])
    else
      RedeemsPruned(st, last, events[0]) || SomeRedeemsPruned(p, Apply(p, st, events[0]).0, last, events[1..])
  }

  lemma {:induction false} PrunedAnswers(p: Policy, a: Store, b: Store, t: Time, last: Option<Time>, events: seq<Event>)
    requires PrunedSince(a, b, t, last) && Ordered(events) && FreshIDs(p, b, events)
    requires events != [] ==> t <= events[0].now
    ensures Answers(p, a, events) == Answers(p, b, WithoutPrunes(events)) <==> !SomeRedeemsPruned(p, b, last, events)
    decreases |events|
  {
    if events != [] {
      hide Apply, PrunedSince, RedeemsPruned, Answers, WithoutPrunes;
      var e, rest := events[0], events[1..];
      PrunesUnfold(p, a, events);
      if e.PruneEvent? {
        PruneOne(a, b, t, last, e.now, e.reach);
        PruneApplies(p, a, e);
        PrunedAnswers(p, Apply(p, a, e).0, b, e.now, LastPrune(last, e.now, e.reach), rest);
      } else {
        PrunedStep(p, a, b, t, last, e);
        AnswersUnfold(p, a, events);
        AnswersUnfold(p, b, WithoutPrunes(events));
        if !RedeemsPruned(b, last, e) {
          PrunedAnswers(p, Apply(p, a, e).0, Apply(p, b, e).0, e.now, last, rest);
        }
      }
    } else {
      NothingAsked(p, a);
      NothingAsked(p, b);
    }
  }

  lemma NothingAsked(p: Policy, st: Store)
    ensures Answers(p, st, []) == [] && WithoutPrunes([]) == []
  {
  }

  /** A prune is skipped on either side; anything else heads the run without prunes. */
  lemma PrunesUnfold(p: Policy, st: Store, events: seq<Event>)
    requires events != []
    ensures var e, rest := events[0], events[1..];
            if e.PruneEvent? then
              && Answers(p, st, events) == Answers(p, Apply(p, st, e).0, rest)
              && WithoutPrunes(events) == WithoutPrunes(rest)
            else
              && WithoutPrunes(events) == [e] + WithoutPrunes(rest)
              && WithoutPrunes(events)[1..] == WithoutPrunes(rest)
  {
    hide Apply;
  }

  lemma AnswersUnfold(p: Policy, st: Store, events: seq<Event>)
    requires events != [] && !events[0].PruneEvent?
    ensures var answers := Answers(p, st, events);
            answers != [] && answers[0] == Apply(p, st, events[0]).1
            && answers[1..] == Answers(p, Apply(p, st, events[0]).0, events[1..])
            && answers == [answers[0]] + answers[1..]
  {
    hide Apply;
  }

  lemma PruneApplies(p: Policy, st: Store, e: Event)
    requires e.PruneEvent?
    ensures Apply(p, st, e).0 == PruneAuthSessions(st, e.now, e.reach)
  {
  }

  /** Inserting prunes anywhere in a run, complete or cut short, changes no answer of
      any lookup, check or login, exactly when no login redeems a stored nonce that a
      prune before it would have dropped. */
  lemma {:induction false} PruningUnobservable(p: Policy, st: Store, events: seq<Event>)
    requires Ordered(events) && FreshIDs(p, st, events)
    ensures Answers(p, st, events) == Answers(p, st, WithoutPrunes(events)) <==> !SomeRedeemsPruned(p, st, None, events)
  {
    PrunedReflexive(st, if events == [] then 0 else events[0].now);
    PrunedAnswers(p, st, st, if events == [] then 0 else events[0].now, None, events);
  }

  lemma PrunedReflexive(st: Store, t: Time)
    ensures PrunedSince(st, st, t, None)
  {
  }

  /** In particular it changes none when every login's own prune reaches the nonces. */
  lemma {:induction false} OwnPrunesHide(p: Policy, st: Store, last: Option<Time>, events: seq<Event>)
    requires forall i :: 0 <= i < |events| && events[i].LoginEvent? ==> events[i].faults.prune != NothingPruned
    ensures !SomeRedeemsPruned(p, st, last, events)
    decreases |events|
  {
    if events != [] {
      hide Apply;
      var e := events[0];
      OwnPrunesHide(p, st, LastPrune(last, e.now, if e.PruneEvent? then e.reach else NothingPruned), events[1..]);
      OwnPrunesHide(p, Apply(p, st, e).0, last, events[1..]);
    }
  }

  /** It does happen: a nonce is redeemed again after it expired, by a login whose own
      prune fails; it is accepted if another prune came in between, and refused if not. */
  lemma FailedPruneIsObservable(p: Policy)
    requires p.Valid()
    ensures var works := LoginFaults(AllPruned, NoFault);
            var fails := LoginFaults(NothingPruned, NoFault);
            var events := [LoginEvent(2000 * SECOND, Some(7), Claims(7, 2000, 1), 42, works),
                           PruneEvent(4000 * SECOND, AllPruned),
                           LoginEvent(4000 * SECOND, Some(7), Claims(7, 4000, 1), 43, fails)];
            Ordered(events) && Answers(p, EmptyStore, events) != Answers(p, EmptyStore, WithoutPrunes(events))
  {
    var works, fails := LoginFaults(AllPruned, NoFault), LoginFaults(NothingPruned, NoFault);
    var first := LoginEvent(2000 * SECOND, Some(7), Claims(7, 2000, 1), 42, works);
    var prune := PruneEvent(4000 * SECOND, AllPruned);
    var second := LoginEvent(4000 * SECOND, Some(7), Claims(7, 4000, 1), 43, fails);
    var events := [first, prune, second];
    var st := Apply(p, EmptyStore, first).0;
    assert st.nonces == map[7 := 2720 * SECOND] && st.sessions.Keys == {42};
    assert events[1..] == [prune, second] && [prune, second][1..] == [second] && [second][1..] == [];
    assert RedeemsPruned(st, Some(4000 * SECOND), second);
    assert SomeRedeemsPruned(p, st, Some(4000 * SECOND), [second]);
    assert SomeRedeemsPruned(p, st, None, [prune, second]);
    assert FreshIDs(p, Apply(p, st, second).0, []);
    assert FreshIDs(p, st, [second]) && FreshIDs(p, st, [prune, second]);
    PruningUnobservable(p, EmptyStore, events);
  }
}
