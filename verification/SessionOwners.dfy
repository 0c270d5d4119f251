/** Whose session a session is: stored rows, and the answers given from them, belong to the
    login that drew their id. */
module SessionOwners {
  import opened Prelude
  import opened AuthSessions
  import opened SessionLifetimes

  /** Event `i` is a granted login that drew `id`. */
  predicate Draws(events: seq<Event>, answers: seq<Answer>, i: nat, id: SessionID)
    requires i < |events| == |answers|
  {
    events[i].LoginEvent? && events[i].id == id && answers[i].Granted?
  }

  /** The last granted login among the first `n` events that drew `id`. */
  function Origin(events: seq<Event>, answers: seq<Answer>, n: nat, id: SessionID): (o: Option<nat>)
    requires n <= |events| == |answers|
    ensures o.Some? ==> o.value < n && Draws(events, answers, o.value, id)
  {
    if n == 0 then None
    else if Draws(events, answers, n - 1, id) then Some(n - 1)
    else Origin(events, answers, n - 1, id)
  }

  /** The row carries the user, the sign-in time and the nonce of the claims. */
  predicate BelongsTo(s: AuthSession, claims: Claims) {
    s.oid == claims.oid && s.authAt == claims.iat * SECOND && s.nonce == claims.nonce
  }

  ghost predicate RowsOwned(st: Store, events: seq<Event>, answers: seq<Answer>, n: nat)
    requires n <= |events| == |answers|
  {
    forall id :: id in st.sessions ==>
      && Origin(events, answers, n, id).Some?
      && BelongsTo(st.sessions[id], events[Origin(events, answers, n, id).value].claims)
  }

  /** What one event does to the row of `id`. */
  lemma RowStep(p: Policy, st: Store, e: Event, id: SessionID)
    requires id in Apply(p, st, e).0.sessions
    ensures var row := Apply(p, st, e).0.sessions[id];
            if e.LoginEvent? && e.id == id && Apply(p, st, e).1.Granted? then BelongsTo(row, e.claims)
            else id in st.sessions && row.oid == st.sessions[id].oid && row.authAt == st.sessions[id].authAt
                 && row.nonce == st.sessions[id].nonce
  {
    if e.LoginEvent? {
      assert Unix(e.claims.iat * SECOND) == e.claims.iat * SECOND;
    }
  }

  /** In every store a run reaches, each row belongs to the last granted login that drew
      its id. */
  lemma {:induction false} RowsBelongToLogins(p: Policy, run: seq<Store>, events: seq<Event>, answers: seq<Answer>,
                                              n: nat)
    requires IsRun(p, run, events, answers) && run[0] == EmptyStore && n <= |events|
    ensures RowsOwned(run[n], events, answers, n)
  {
    if n > 0 {
      hide Apply;
      RowsBelongToLogins(p, run, events, answers, n - 1);
      assert IsStep(p, run, events, answers, n - 1);
      forall id | id in run[n].sessions
        ensures Origin(events, answers, n, id).Some?
        ensures BelongsTo(run[n].sessions[id], events[Origin(events, answers, n, id).value].claims)
      {
        RowStep(p, run[n - 1], events[n - 1], id);
      }
    }
  }

  /** Every session a lookup or check grants is that of the login that drew its id. */
  lemma {:induction false} GrantedToOwner(p: Policy, run: seq<Store>, events: seq<Event>, answers: seq<Answer>,
                                          n: nat, id: SessionID)
    requires IsRun(p, run, events, answers) && run[0] == EmptyStore && n < |events|
    requires Asks(events[n], id) && answers[n].Granted?
    ensures var o := Origin(events, answers, n, id);
            o.Some? && BelongsTo(answers[n].session, events[o.value].claims) && answers[n].session.id == id
  {
    RowsBelongToLogins(p, run, events, answers, n);
    ExpiryInvariant(p, run, events, answers, n);
    assert IsStep(p, run, events, answers, n);
    assert RowKept(p, id, run[n].sessions[id]);
  }

  /** Ids are random: no login but `c` is granted the id of login `c`. */
  ghost predicate DrawnOnce(events: seq<Event>, answers: seq<Answer>, c: nat, id: SessionID)
    requires |events| == |answers|
  {
    forall i :: 0 <= i < |events| && i != c ==> !Draws(events, answers, i, id)
  }

  lemma {:induction false} OriginIs(events: seq<Event>, answers: seq<Answer>, c: nat, n: nat, id: SessionID)
    requires c < n <= |events| == |answers| && Draws(events, answers, c, id) && DrawnOnce(events, answers, c, id)
    ensures Origin(events, answers, n, id) == Some(c)
  {
    if n > c + 1 {
      OriginIs(events, answers, c, n - 1, id);
    }
  }

  lemma {:induction false} GoneAfterRevocation(p: Policy, run: seq<Store>, events: seq<Event>, answers: seq<Answer>,
                                               c: nat, d: nat, n: nat, id: SessionID)
    requires IsRun(p, run, events, answers) && run[0] == EmptyStore && c < d < n <= |events|
    requires Draws(events, answers, c, id) && DrawnOnce(events, answers, c, id)
    requires events[d].RevokeEvent? && events[d].oid == events[c].claims.oid
    ensures id !in run[n].sessions
  {
    hide Apply;
    assert IsStep(p, run, events, answers, n - 1);
    if n == d + 1 {
      RowsBelongToLogins(p, run, events, answers, d);
      OriginIs(events, answers, c, d, id);
      RevokeRemoves(p, run[d], events[d], id);
    } else {
      GoneAfterRevocation(p, run, events, answers, c, d, n - 1, id);
      assert !Draws(events, answers, n - 1, id);
      StaysGone(p, run[n - 1], events[n - 1], id);
    }
  }

  lemma StaysGone(p: Policy, st: Store, e: Event, id: SessionID)
    requires id !in st.sessions && !(e.LoginEvent? && e.id == id && Apply(p, st, e).1.Granted?)
    ensures id !in Apply(p, st, e).0.sessions
  {
  }

  lemma RevokeRemoves(p: Policy, st: Store, e: Event, id: SessionID)
    requires e.RevokeEvent? && (id in st.sessions ==> st.sessions[id].oid == e.oid)
    ensures id !in Apply(p, st, e).0.sessions
  {
  }

  /** Once a user is revoked, no lookup or check of a session granted to a login of that
      user before ever succeeds again. */
  lemma {:induction false} RevokedLoginNeverAnswers(p: Policy, run: seq<Store>, events: seq<Event>,
                                                    answers: seq<Answer>, c: nat, d: nat, n: nat, id: SessionID)
    requires IsRun(p, run, events, answers) && run[0] == EmptyStore && c < d < n < |events|
    requires Draws(events, answers, c, id) && DrawnOnce(events, answers, c, id)
    requires events[d].RevokeEvent? && events[d].oid == events[c].claims.oid
    requires Asks(events[n], id)
    ensures answers[n] == Refused(SessionExpired)
  {
    GoneAfterRevocation(p, run, events, answers, c, d, n, id);
    assert IsStep(p, run, events, answers, n);
  }

  /** And none succeeds at or after the sign-in time of its login plus the maximum age. */
  lemma {:induction false} NeverOutlivesSignIn(p: Policy, run: seq<Store>, events: seq<Event>, answers: seq<Answer>,
                                               c: nat, n: nat, id: SessionID)
    requires IsRun(p, run, events, answers) && run[0] == EmptyStore && c < n < |events|
    requires Draws(events, answers, c, id) && DrawnOnce(events, answers, c, id)
    requires Asks(events[n], id) && events[n].now >= events[c].claims.iat * SECOND + p.maxAge
    ensures answers[n] == Refused(SessionExpired)
  {
    RowsBelongToLogins(p, run, events, answers, n);
    OriginIs(events, answers, c, n, id);
    assert IsStep(p, run, events, answers, n);
  }

  // ----- Which logins are granted -----

  /** A login is granted exactly when its nonce is that of the browser's own transaction,
      its ID token was issued at most ten minutes ago and at most two minutes ahead, the
      insert works on a new id, and the nonce is not in the table, or had expired and is
      dropped by the login's own prune. */
  lemma {:induction false} LoginGrantedExactly(p: Policy, st: Store, e: Event)
    requires e.LoginEvent?
    ensures Apply(p, st, e).1.Granted? <==>
              && e.nonce == Some(e.claims.nonce)
              && e.claims.iat != 0
              && e.claims.iat * SECOND - 120 * SECOND <= e.now <= e.claims.iat * SECOND + 600 * SECOND
              && e.faults.insert == NoFault
              && (e.id in st.sessions ==> st.sessions[e.id].expiresAt <= Unix(e.now) && e.faults.prune == AllPruned)
              && (e.claims.nonce in st.nonces ==>
                    st.nonces[e.claims.nonce] <= Unix(e.now) && e.faults.prune != NothingPruned)
  {
    var pruned := PruneAuthSessions(st, e.now, e.faults.prune);
    assert e.claims.nonce in pruned.nonces <==>
        e.claims.nonce in st.nonces && !(st.nonces[e.claims.nonce] <= Unix(e.now) && e.faults.prune != NothingPruned);
    assert e.id in pruned.sessions <==>
        e.id in st.sessions && !(st.sessions[e.id].expiresAt <= Unix(e.now) && e.faults.prune == AllPruned);
  }

  /** A stored session changes only by a lookup of it that is granted, may renew, and comes
      at least five minutes after it was last renewed; only its expiry and renewal time
      change then. */
  lemma {:induction false} RenewalsThrottled(p: Policy, st: Store, e: Event, id: SessionID)
    requires id in st.sessions && id in Apply(p, st, e).0.sessions
    requires st.sessions[id] != Apply(p, st, e).0.sessions[id]
    requires !(e.LoginEvent? && e.id == id)
    ensures var row, row' := st.sessions[id], Apply(p, st, e).0.sessions[id];
            && e.LookupEvent? && e.cookie == Some(id) && e.renew && e.getOk && e.renewOk && Apply(p, st, e).1.Granted?
            && e.now - row.renewedAt >= 300 * SECOND
            && row' == row.(expiresAt := row'.expiresAt, renewedAt := Unix(e.now))
  {
  }
}
