/** One session per ID token, and revocation that no interleaving undoes. */
module SessionSafety {
  import opened Prelude
  import opened AuthSessions

  // ----- Replaying an ID token -----

  /** Store operations in the order they take effect. `now` is the clock an
      operation read before, `at` the time it reaches the store. */
  datatype TokenEvent =
    | Exchange(now: Time, at: Time, claims: Claims, id: SessionID, fault: TxFault)
    | PruneOfNonces(now: Time, at: Time)
    | PruneOfSessions(now: Time, at: Time)
    | SignOut(now: Time, at: Time, oid: OID)

  function Act(p: Policy, st: Store, e: TokenEvent): (Store, bool) {
    match e
    case Exchange(now, _, claims, id, fault) =>
      if Stale(claims, now) then (st, false)
      else
        var (st', r) := CreateAuthSession(st, NewSession(p, claims, id, now), NonceExpiry(claims), fault);
        (st', r == Created)
    case PruneOfNonces(now, _) => (PruneNonces(st, now), false)
    case PruneOfSessions(now, _) => (PruneSessions(st, now), false)
    case SignOut(_, _, oid) => (DeleteAuthSessionsForUser(st, oid), false)
  }

  ghost predicate IsTokenRun(p: Policy, run: seq<Store>, events: seq<TokenEvent>, accepted: seq<bool>) {
    && |run| == |events| + 1 && |accepted| == |events|
    && forall i :: 0 <= i < |events| ==> IsAct(p, run, events, accepted, i)
  }

  ghost predicate IsAct(p: Policy, run: seq<Store>, events: seq<TokenEvent>, accepted: seq<bool>, i: nat)
    requires i < |events| == |accepted| && |run| == |events| + 1
  {
    (run[i + 1], accepted[i]) == Act(p, run[i], events[i])
  }

  /** Operations reach the store in order, none before the clock it read, and an
      exchange less than the clock skew allowance after. */
  ghost predicate Timely(events: seq<TokenEvent>) {
    && (forall i, j :: 0 <= i < j < |events| ==> events[i].at <= events[j].at)
    && (forall i :: 0 <= i < |events| ==> events[i].now <= events[i].at)
    && (forall i :: 0 <= i < |events| && events[i].Exchange? ==> events[i].at < events[i].now + MAX_CLOCK_SKEW)
  }

  /** A prune between events `i` and `j` drops a nonce that expires at `exp`. */
  ghost predicate DroppedBetween(events: seq<TokenEvent>, exp: Time, i: nat, j: nat)
    requires j <= |events|
  {
    exists k :: i < k < j && Drops(events[k], exp)
  }

  predicate Drops(e: TokenEvent, exp: Time) {
    e.PruneOfNonces? && exp <= Unix(e.now)
  }

  /** No exchange of nonce `n` between events `i` and `j` is accepted. */
  ghost predicate NoneAccepted(events: seq<TokenEvent>, accepted: seq<bool>, n: Nonce, i: nat, j: nat)
    requires j <= |events| == |accepted|
  {
    forall k :: i < k < j ==> !Accepts(events[k], accepted[k], n)
  }

  predicate Accepts(e: TokenEvent, ok: bool, n: Nonce) {
    e.Exchange? && e.claims.nonce == n && ok
  }

  /** The table holds the nonce with its expiry unless it has been dropped. */
  ghost predicate HeldUnless(st: Store, n: Nonce, exp: Time, dropped: bool) {
    if dropped then n !in st.nonces else n in st.nonces && st.nonces[n] == exp
  }

  lemma HeldStep(p: Policy, st: Store, e: TokenEvent, n: Nonce, exp: Time, dropped: bool)
    requires HeldUnless(st, n, exp, dropped) && !Accepts(e, Act(p, st, e).1, n)
    ensures HeldUnless(Act(p, st, e).0, n, exp, dropped || Drops(e, exp))
  {
  }

  lemma ExchangeHolds(p: Policy, st: Store, e: TokenEvent)
    requires e.Exchange? && Act(p, st, e).1
    ensures HeldUnless(Act(p, st, e).0, e.claims.nonce, NonceExpiry(e.claims), false)
  {
    assert Unix(NonceExpiry(e.claims)) == NonceExpiry(e.claims);
  }

  lemma DroppedNext(events: seq<TokenEvent>, exp: Time, i: nat, j: nat)
    requires i < j < |events|
    ensures DroppedBetween(events, exp, i, j + 1) <==> DroppedBetween(events, exp, i, j) || Drops(events[j], exp)
    ensures !DroppedBetween(events, exp, i, i + 1)
  {
  }

  /** A redeemed nonce stays in the table, with its expiry, until a prune drops it. */
  lemma {:induction false} HeldUntilDropped(p: Policy, run: seq<Store>, events: seq<TokenEvent>, accepted: seq<bool>,
                                            i: nat, j: nat)
    requires IsTokenRun(p, run, events, accepted) && i < j < |events| && events[i].Exchange? && accepted[i]
    requires NoneAccepted(events, accepted, events[i].claims.nonce, i, j)
    ensures var exp := NonceExpiry(events[i].claims);
            HeldUnless(run[j], events[i].claims.nonce, exp, DroppedBetween(events, exp, i, j))
  {
    hide HeldUnless, Act, DroppedBetween, Drops, Accepts, NonceExpiry;
    var n, exp := events[i].claims.nonce, NonceExpiry(events[i].claims);
    assert IsAct(p, run, events, accepted, j - 1);
    if i == j - 1 {
      ExchangeHolds(p, run[i], events[i]);
      DroppedNext(events, exp, i, j);
    } else {
      HeldUntilDropped(p, run, events, accepted, i, j - 1);
      assert !Accepts(events[j - 1], accepted[j - 1], n);
      HeldStep(p, run[j - 1], events[j - 1], n, exp, DroppedBetween(events, exp, i, j - 1));
      DroppedNext(events, exp, i, j - 1);
    }
  }

  /** Over any run, timely or not, the next exchange of a redeemed nonce is accepted
      if and only if its token is not stale, its insert works on a new id, and a prune
      in between was told a time at which the nonce had expired. */
  lemma {:induction false} RedeemedAgainExactly(p: Policy, run: seq<Store>, events: seq<TokenEvent>,
                                                accepted: seq<bool>, i: nat, j: nat)
    requires IsTokenRun(p, run, events, accepted) && i < j < |events|
    requires events[i].Exchange? && events[j].Exchange? && accepted[i]
    requires events[i].claims.nonce == events[j].claims.nonce
    requires NoneAccepted(events, accepted, events[i].claims.nonce, i, j)
    ensures accepted[j] <==>
              && !Stale(events[j].claims, events[j].now)
              && events[j].fault == NoFault && events[j].id !in run[j].sessions
              && DroppedBetween(events, NonceExpiry(events[i].claims), i, j)
  {
    hide DroppedBetween, NoneAccepted, NonceExpiry, Stale;
    HeldUntilDropped(p, run, events, accepted, i, j);
    assert IsAct(p, run, events, accepted, j);
  }

  /** The first accepted exchange of nonce `n` after event `i`. */
  lemma FirstAccepted(events: seq<TokenEvent>, accepted: seq<bool>, n: Nonce, i: nat, j: nat) returns (k: nat)
    requires i < j < |events| == |accepted| && Accepts(events[j], accepted[j], n)
    ensures i < k <= j && Accepts(events[k], accepted[k], n) && NoneAccepted(events, accepted, n, i, k)
  {
    k := i + 1;
    while !Accepts(events[k], accepted[k], n)
      invariant i < k <= j && NoneAccepted(events, accepted, n, i, k)
      decreases j - k
    {
      k := k + 1;
    }
  }

  /** Over any timely run of exchanges, prunes and sign-outs an ID token with a given
      nonce and issue time is exchanged for a session at most once: a prune that drops
      its nonce comes too late for the token not to be stale. */
  lemma {:induction false} TokenExchangedOnce(p: Policy, run: seq<Store>, events: seq<TokenEvent>, accepted: seq<bool>,
                                              i: nat, j: nat)
    requires IsTokenRun(p, run, events, accepted) && Timely(events)
    requires i < j < |events| && events[i].Exchange? && events[j].Exchange?
    requires events[i].claims.nonce == events[j].claims.nonce && events[i].claims.iat == events[j].claims.iat
    requires accepted[i]
    ensures !accepted[j]
  {
    hide NoneAccepted;
    if accepted[j] {
      var k := FirstAccepted(events, accepted, events[i].claims.nonce, i, j);
      RedeemedAgainExactly(p, run, events, accepted, i, k);
      AcceptedInTime(p, run, events, accepted, j);
      NotDroppedYet(events, NonceExpiry(events[i].claims), i, k, j);
    }
  }

  /** Events in time order before a nonce's expiry do not drop it. */
  lemma NotDroppedYet(events: seq<TokenEvent>, exp: Time, i: nat, k: nat, j: nat)
    requires Timely(events) && i < k <= j < |events| && events[j].at < exp
    ensures !DroppedBetween(events, exp, i, k)
  {
    forall d | i < d < k
      ensures !Drops(events[d], exp)
    {
      assert events[d].now <= events[d].at <= events[j].at;
    }
  }

  lemma AcceptedInTime(p: Policy, run: seq<Store>, events: seq<TokenEvent>, accepted: seq<bool>, j: nat)
    requires IsTokenRun(p, run, events, accepted) && Timely(events)
    requires j < |events| && events[j].Exchange? && accepted[j]
    ensures events[j].at < NonceExpiry(events[j].claims)
  {
    assert IsAct(p, run, events, accepted, j);
  }

  /** The allowance is tight, for every token: an insert that lags its clock by the
      full skew, with a prune just before, redeems it a second time. */
  lemma LaggingInsertReplays(p: Policy, claims: Claims, id: SessionID, id': SessionID)
    requires claims.iat != 0 && id != id'
    ensures var t := claims.iat * SECOND;
            var late := t + LOGIN_TTL + MAX_CLOCK_SKEW;
            var (st1, first) := Act(p, Store(map[], map[]), Exchange(t, t, claims, id, NoFault));
            var (st2, _) := Act(p, st1, PruneOfNonces(late, late));
            var (st3, second) := Act(p, st2, Exchange(t + LOGIN_TTL, late, claims, id', NoFault));
            first && second
  {
    var t := claims.iat * SECOND;
    var late := t + LOGIN_TTL + MAX_CLOCK_SKEW;
    var st1 := Act(p, Store(map[], map[]), Exchange(t, t, claims, id, NoFault)).0;
    assert st1.nonces == map[claims.nonce := late];
    assert claims.nonce !in PruneNonces(st1, late).nonces;
  }

  // ----- Revocation -----

  /** Single statements and transactions of the store, as concurrent requests
      interleave them; one that fails has no effect and is left out. */
  datatype StoreOp =
    | CreateOp(session: AuthSession, nonceExpiresAt: Time)
    | GetOp(id: SessionID)
    | RenewOp(id: SessionID, expiresAt: Time, renewedAt: Time)
    | DeleteOp(oid: OID)
    | PruneNoncesOp(now: Time)
    | PruneSessionsOp(now: Time)

  function Perform(st: Store, op: StoreOp): Store {
    match op
    case CreateOp(s, exp) => CreateAuthSession(st, s, exp, NoFault).0
    case GetOp(_) => st
    case RenewOp(id, expiresAt, renewedAt) => RenewAuthSession(st, id, expiresAt, renewedAt)
    case DeleteOp(oid) => DeleteAuthSessionsForUser(st, oid)
    case PruneNoncesOp(now) => PruneNonces(st, now)
    case PruneSessionsOp(now) => PruneSessions(st, now)
  }

  /** A lookup is a Get, a decision on what it got, and at most one Renew. */
  lemma LookupIsGetThenRenew(p: Policy, st: Store, now: Time, id: SessionID, renew: bool, getOk: bool, renewOk: bool)
    ensures var answer := Judge(p, GetAuthSession(Perform(st, GetOp(id)), id, getOk), now);
            var renews := answer.Granted? && Renews(answer.session, now, renew) && renewOk;
            Lookup(p, st, now, Some(id), renew, getOk, renewOk).0 ==
              if renews
              then Perform(Perform(st, GetOp(id)), RenewOp(id, Expiry(p, answer.session.authAt, now), now))
              else st
  {
  }

  ghost predicate IsInterleaving(run: seq<Store>, ops: seq<StoreOp>) {
    && |run| == |ops| + 1
    && forall i :: 0 <= i < |ops| ==> IsPerform(run, ops, i)
  }

  ghost predicate IsPerform(run: seq<Store>, ops: seq<StoreOp>, i: nat)
    requires i < |ops| && |run| == |ops| + 1
  {
    run[i + 1] == Perform(run[i], ops[i])
  }

  /** Random ids are never drawn again. */
  ghost predicate NotRecreated(ops: seq<StoreOp>, d: nat, k: nat, id: SessionID)
    requires k <= |ops|
  {
    forall i :: d < i < k && ops[i].CreateOp? ==> ops[i].session.id != id
  }

  lemma {:induction false} StaysDeleted(run: seq<Store>, ops: seq<StoreOp>, d: nat, k: nat, id: SessionID)
    requires IsInterleaving(run, ops) && d < k <= |ops|
    requires ops[d].DeleteOp? && id in run[d].sessions && run[d].sessions[id].oid == ops[d].oid
    requires NotRecreated(ops, d, k, id)
    ensures id !in run[k].sessions
  {
    assert IsPerform(run, ops, k - 1);
    if k > d + 1 {
      StaysDeleted(run, ops, d, k - 1, id);
    }
  }

  /** Once a user's sessions are deleted, no lookup or check whose Get comes
      later succeeds for any of them, whatever requests are in flight: a late
      renewal of a deleted row does not bring it back. */
  lemma RevokedNeverAnswers(p: Policy, run: seq<Store>, ops: seq<StoreOp>, d: nat, k: nat, id: SessionID, now: Time)
    requires IsInterleaving(run, ops) && d < k <= |ops|
    requires ops[d].DeleteOp? && id in run[d].sessions && run[d].sessions[id].oid == ops[d].oid
    requires NotRecreated(ops, d, k, id)
    ensures forall ok :: Judge(p, GetAuthSession(run[k], id, ok), now)
                      == Refused(if ok then SessionExpired else StoreFailure)
    ensures forall renew, ok, renewOk :: Lookup(p, run[k], now, Some(id), renew, ok, renewOk)
                                      == (run[k], Refused(if ok then SessionExpired else StoreFailure))
    ensures forall ok :: Check(p, run[k], now, id, ok) == Refused(if ok then SessionExpired else StoreFailure)
  {
    StaysDeleted(run, ops, d, k, id);
  }

  /** A login that reaches the store is a prune, as far as it gets, and one Create of a
      session of the claims' user, signed in when the token was issued. */
  lemma LoginIsPruneThenCreate(p: Policy, st: Store, now: Time, claims: Claims, id: SessionID, reach: PruneReach)
    requires Login(p, st, now, Some(claims.nonce), claims, id, LoginFaults(reach, NoFault)).1.Granted?
    ensures var issuedAt := claims.iat * SECOND;
            var expiresAt := Min(now + p.idleTimeout, issuedAt + p.maxAge);
            var s := AuthSession(id, claims.nonce, claims.oid, issuedAt, expiresAt, now);
            var nonces := if reach == NothingPruned then st else Perform(st, PruneNoncesOp(now));
            var pruned := if reach == AllPruned then Perform(nonces, PruneSessionsOp(now)) else nonces;
            Login(p, st, now, Some(claims.nonce), claims, id, LoginFaults(reach, NoFault)).0
              == Perform(pruned, CreateOp(s, issuedAt + 720 * SECOND))
  {
  }

  /** Operation `c` is the only one to create session `id`. */
  ghost predicate CreatedOnce(ops: seq<StoreOp>, c: nat, id: SessionID)
    requires c < |ops|
  {
    && ops[c].CreateOp? && ops[c].session.id == id
    && forall i :: 0 <= i < |ops| && i != c && ops[i].CreateOp? ==> ops[i].session.id != id
  }

  lemma {:induction false} RowKeepsOwner(run: seq<Store>, ops: seq<StoreOp>, c: nat, k: nat, id: SessionID)
    requires IsInterleaving(run, ops) && k <= |ops| && c < |ops| && CreatedOnce(ops, c, id) && id !in run[0].sessions
    ensures id in run[k].sessions ==> c < k && run[k].sessions[id].oid == ops[c].session.oid
  {
    if k > 0 {
      RowKeepsOwner(run, ops, c, k - 1, id);
      assert IsPerform(run, ops, k - 1);
    }
  }

  /** So once a user's sessions are deleted, no lookup or check whose Get comes later
      succeeds for any session created for that user, in any interleaving. */
  lemma {:induction false} RevokedUserNeverAnswers(p: Policy, run: seq<Store>, ops: seq<StoreOp>,
                                                   c: nat, d: nat, k: nat, id: SessionID, now: Time)
    requires IsInterleaving(run, ops) && c < d < k <= |ops|
    requires CreatedOnce(ops, c, id) && id !in run[0].sessions
    requires ops[d].DeleteOp? && ops[c].session.oid == ops[d].oid
    ensures forall renew, ok, renewOk :: Lookup(p, run[k], now, Some(id), renew, ok, renewOk)
                                      == (run[k], Refused(if ok then SessionExpired else StoreFailure))
    ensures forall ok :: Check(p, run[k], now, id, ok) == Refused(if ok then SessionExpired else StoreFailure)
  {
    RowKeepsOwner(run, ops, c, d, id);
    GoneOnceDeleted(run, ops, c, d, k, id);
  }

  lemma {:induction false} GoneOnceDeleted(run: seq<Store>, ops: seq<StoreOp>, c: nat, d: nat, k: nat, id: SessionID)
    requires IsInterleaving(run, ops) && c < d < k <= |ops| && CreatedOnce(ops, c, id)
    requires ops[d].DeleteOp? && (id in run[d].sessions ==> run[d].sessions[id].oid == ops[d].oid)
    ensures id !in run[k].sessions
  {
    assert IsPerform(run, ops, k - 1);
    if k > d + 1 {
      GoneOnceDeleted(run, ops, c, d, k - 1, id);
    }
  }

  // ----- Open streams -----

  /** One tick of a cookie stream's re-check: what its Get returned, and whether the
      user is still allowed. */
  datatype Recheck = Recheck(at: Time, got: Fetched, authorized: bool)

  predicate Passes(p: Policy, r: Recheck) {
    Judge(p, r.got, r.at).Granted? && r.authorized
  }

  /** The stream ends at the first tick that fails, or not at all. */
  ghost predicate EndsStream(p: Policy, ticks: seq<Recheck>, ended: Option<nat>) {
    && (ended.Some? ==> ended.value < |ticks| && !Passes(p, ticks[ended.value]))
    && (forall k :: 0 <= k < |ticks| && (ended.Some? ==> k < ended.value) ==> Passes(p, ticks[k]))
  }

  /** The re-check loop: it ends the stream at the first tick that fails, or runs
      until the client goes away after the last tick. */
  method StreamLoop(p: Policy, ticks: seq<Recheck>) returns (ended: Option<nat>)
    ensures EndsStream(p, ticks, ended)
  {
    var k := 0;
    while k < |ticks|
      invariant k <= |ticks|
      invariant forall i :: 0 <= i < k ==> Passes(p, ticks[i])
    {
      var r := ticks[k];
      if !r.got.Found? || !Live(p, r.got.session, r.at) {
        return Some(k);
      }
      if !r.authorized {
        return Some(k);
      }
      k := k + 1;
    }
    ended := None;
  }

  /** Ticks come every `period` after the stream opened at `start`. */
  ghost predicate TicksEvery(ticks: seq<Recheck>, start: Time, period: Time) {
    forall k :: 0 <= k < |ticks| ==> ticks[k].at == start + (k + 1) * period
  }

  /** A stream whose credential has lapsed by `t` ends within one period of it, or at
      its first tick if it only opened afterwards. */
  lemma StreamEndsWithinPeriod(p: Policy, ticks: seq<Recheck>, start: Time, period: Time, t: Time, ended: Option<nat>)
    requires period > 0 && TicksEvery(ticks, start, period)
    requires ticks != [] && ticks[|ticks| - 1].at >= t
    requires forall k :: 0 <= k < |ticks| && ticks[k].at >= t ==> !Passes(p, ticks[k])
    requires EndsStream(p, ticks, ended)
    ensures ended.Some? && ticks[ended.value].at <= Max(start, t) + period
  {
    assert !Passes(p, ticks[|ticks| - 1]);
    if ended.value > 0 {
      var k := ended.value - 1;
      assert Passes(p, ticks[k]);
      assert ticks[k + 1].at == ticks[k].at + period;
    }
  }

  /** Every open stream of a revoked session ends within one re-check period of
      the revocation, or at its first tick if its lookup came before the revocation
      and its ticker started after. `seen[k]` is the store the k-th tick reads. */
  lemma RevokedStreamEnds(p: Policy, run: seq<Store>, ops: seq<StoreOp>, d: nat, id: SessionID, revokedAt: Time,
                          ticks: seq<Recheck>, seen: seq<nat>, start: Time, period: Time, ended: Option<nat>)
    requires IsInterleaving(run, ops) && d < |ops|
    requires ops[d].DeleteOp? && id in run[d].sessions && run[d].sessions[id].oid == ops[d].oid
    requires NotRecreated(ops, d, |ops|, id)
    requires period > 0 && TicksEvery(ticks, start, period)
    requires ticks != [] && ticks[|ticks| - 1].at >= revokedAt
    requires |seen| == |ticks| && forall k :: 0 <= k < |ticks| ==>
               seen[k] <= |ops| &&
               (ticks[k].got == GetAuthSession(run[seen[k]], id, true) || ticks[k].got == StoreError)
    requires forall k :: 0 <= k < |ticks| && ticks[k].at >= revokedAt ==> seen[k] > d
    requires EndsStream(p, ticks, ended)
    ensures ended.Some? && ticks[ended.value].at <= Max(start, revokedAt) + period
  {
    forall k | 0 <= k < |ticks| && ticks[k].at >= revokedAt
      ensures !Passes(p, ticks[k])
    {
      RevokedNeverAnswers(p, run, ops, d, seen[k], id, ticks[k].at);
    }
    StreamEndsWithinPeriod(p, ticks, start, period, revokedAt, ended);
  }
}
