/** The token state of the Tesla client, internal/tesla/client.go, and how its refreshes
    are uninterrupted runs of the rotation protocol. */
module TeslaClient {
  import opened Prelude
  import opened Text
  import opened TokenRotation

  /** What the token endpoint sends back. */
  datatype TokenReply =
    | NoReply
    | Status(code: int)
    | Malformed
    | Granted(access: string, refresh: string, expiresIn: int)

  datatype Tokens = Tokens(access: string, refresh: string, expiry: Time, file: Option<string>)

  /** One refresh: `saved` tells whether the token file could be written. */
  function Refresh(c: Tokens, reply: TokenReply, now: Time, saved: bool): Tokens {
    if !reply.Granted? then c
    else
      Tokens(reply.access,
             if reply.refresh == "" then c.refresh else reply.refresh,
             now + reply.expiresIn * SECOND,
             if reply.refresh != "" && reply.refresh != c.refresh && saved then Some(TrimSpace(reply.refresh))
             else c.file)
  }

  class Client {
    var accessToken: string
    var refreshToken: string
    var tokenExpiry: Time
    var file: Option<string>

    ghost function Abs(): Tokens
      reads this
    {
      Tokens(accessToken, refreshToken, tokenExpiry, file)
    }

    /** The client starts from the resolved token, with no access token yet. */
    constructor (refreshToken: string, file: Option<string>)
      ensures Abs() == Tokens("", refreshToken, 0, file)
    {
      accessToken, this.refreshToken, tokenExpiry, this.file := "", refreshToken, 0, file;
    }

    method RefreshAccessTokenLocked(reply: TokenReply, now: Time, saved: bool) returns (ok: bool)
      modifies this
      ensures Abs() == Refresh(old(Abs()), reply, now, saved)
      ensures ok <==> reply.Granted?
    {
      var currentRefresh := refreshToken;
      match reply {
        case NoReply => return false;
        case Status(_) => return false;
        case Malformed => return false;
        case Granted(access, refresh, expiresIn) =>
          accessToken := access;
          var rotated := refresh != "" && refresh != currentRefresh;
          if refresh != "" {
            refreshToken := refresh;
          }
          tokenExpiry := now + expiresIn * SECOND;
          if rotated && saved {
            file := Some(TrimSpace(refresh));
          }
          ok := true;
      }
    }

    /** A blank token is refused and changes nothing; any other is adopted even if the
        refresh that follows fails. */
    method SetRefreshToken(token: string, reply: TokenReply, now: Time, saved: bool) returns (ok: bool)
      modifies this
      ensures TrimSpace(token) == "" ==> Abs() == old(Abs())
      ensures TrimSpace(token) != "" ==> Abs() == Refresh(old(Abs()).(refresh := token), reply, now, saved)
      ensures ok <==> TrimSpace(token) != "" && reply.Granted?
    {
      if TrimSpace(token) == "" {
        return false;
      }
      refreshToken := token;
      ok := RefreshAccessTokenLocked(reply, now, saved);
    }

    /** Before a request: an access token within a minute of its expiry is replaced.
        When the request goes ahead, its token is good for another minute, provided
        the server grants at least that. */
    method Authorize(reply: TokenReply, now: Time, saved: bool) returns (ok: bool)
      modifies this
      ensures Abs() == if now > old(tokenExpiry) - MINUTE then Refresh(old(Abs()), reply, now, saved) else old(Abs())
      ensures ok <==> now <= old(tokenExpiry) - MINUTE || reply.Granted?
      ensures ok && (reply.Granted? ==> reply.expiresIn >= 60) ==> now <= tokenExpiry - MINUTE
    {
      ok := true;
      if now > tokenExpiry - MINUTE {
        ok := RefreshAccessTokenLocked(reply, now, saved);
      }
    }
  }

  // ----- The same refreshes as runs of the protocol -----

  function ReplyOf(current: string, reply: TokenReply): Reply {
    if !reply.Granted? then Refused
    else if reply.refresh == "" || reply.refresh == current then Kept
    else Rotated(reply.refresh)
  }

  /** From the lock taken to the lock released, with nobody else moving. */
  function RunAlone(s: State, t: Thread, reply: Reply): State
    requires s.At(t) == Holding && (reply.Rotated? ==> reply.next !in s.issued)
  {
    var presented := Do(Do(s, ReadToken(t)), Present(t, reply));
    if reply.Rotated? then Do(Do(presented, StoreToken(t)), PersistToken(t)) else presented
  }

  /** The client's state as the protocol sees it. */
  ghost predicate Represents(s: State, c: Tokens) {
    s.memory == c.refresh && s.file == c.file
  }

  /** A refresh with a working token file does to memory and file what the protocol's
      steps do, one after the other, when tokens carry no surrounding spaces. */
  lemma RefreshIsProtocol(s: State, t: Thread, c: Tokens, reply: TokenReply, now: Time)
    requires Represents(s, c) && Enabled(s, LockToRefresh(t))
    requires ReplyOf(c.refresh, reply).Rotated? ==> reply.refresh !in s.issued && Trimmed(reply.refresh)
    ensures var s' := RunAlone(Do(s, LockToRefresh(t)), t, ReplyOf(c.refresh, reply));
            Represents(s', Refresh(c, reply, now, true)) && s'.lock == None && s'.At(t) == Idle
  {
    if reply.Granted? {
      TrimTrims(reply.refresh);
    }
  }

  /** A callback is a file write, then a supply: the protocol's pending state in between
      is where others may come first. */
  lemma CallbackIsProtocol(s: State, t: Thread, c: Tokens, token: string, reply: TokenReply, now: Time)
    requires Represents(s, c) && Enabled(s, WriteCallback(t, token)) && s.lock == None
    requires Trimmed(token) && token != ""
    requires ReplyOf(token, reply).Rotated? ==> reply.refresh !in s.issued && Trimmed(reply.refresh)
    ensures var supplied := Do(Do(s, WriteCallback(t, token)), LockToSupply(t));
            var s' := RunAlone(supplied, t, ReplyOf(token, reply));
            && Represents(s', Refresh(c.(refresh := token, file := Some(TrimSpace(token))), reply, now, true))
            && s'.lock == None && s'.At(t) == Idle && !s'.overtaken
  {
    TrimTrims(token);
    if reply.Granted? {
      TrimTrims(reply.refresh);
    }
  }

  // ----- Runs of the client -----

  /** What the client is asked to do: refresh, adopt a supplied token, or make ready for a
      request. `reply` is the server's answer, should it be asked. */
  datatype Event =
    | RefreshEvent(reply: TokenReply, now: Time, saved: bool)
    | SupplyEvent(token: string, reply: TokenReply, now: Time, saved: bool)
    | RequestEvent(reply: TokenReply, now: Time, saved: bool)

  /** Performs one event; `ok` tells whether it succeeded. */
  method Perform(c: Client, e: Event) returns (ok: bool)
    modifies c
    ensures (c.Abs(), ok) == Step(old(c.Abs()), e)
  {
    match e {
      case RefreshEvent(reply, now, saved) => ok := c.RefreshAccessTokenLocked(reply, now, saved);
      case SupplyEvent(token, reply, now, saved) => ok := c.SetRefreshToken(token, reply, now, saved);
      case RequestEvent(reply, now, saved) => ok := c.Authorize(reply, now, saved);
    }
  }

  function Step(c: Tokens, e: Event): (Tokens, bool) {
    match e
    case RefreshEvent(reply, now, saved) => (Refresh(c, reply, now, saved), reply.Granted?)
    case SupplyEvent(token, reply, now, saved) =>
      if TrimSpace(token) == "" then (c, false)
      else (Refresh(c.(refresh := token), reply, now, saved), reply.Granted?)
    case RequestEvent(reply, now, saved) =>
      if now > c.expiry - MINUTE then (Refresh(c, reply, now, saved), reply.Granted?) else (c, true)
  }

  ghost predicate IsRun(run: seq<Tokens>, events: seq<Event>, oks: seq<bool>) {
    && |run| == |events| + 1 && |oks| == |events|
    && forall i :: 0 <= i < |events| ==> IsStep(run, events, oks, i)
  }

  ghost predicate IsStep(run: seq<Tokens>, events: seq<Event>, oks: seq<bool>, i: nat)
    requires i < |events| == |oks| && |run| == |events| + 1
  {
    (run[i + 1], oks[i]) == Step(run[i], events[i])
  }

  /** A grant: the access token the server gave, when, and for how many seconds. */
  datatype Grant = Grant(access: string, at: Time, expiresIn: int)

  /** When the token of the last grant expires; 0 before the first. */
  function ExpiryOf(grant: Option<Grant>): Time {
    if grant.None? then 0 else grant.value.at + grant.value.expiresIn * SECOND
  }

  /** The server is asked: always by a refresh, by a supply unless the token is blank, and
      by a request whose token has less than a minute left. */
  predicate Asks(e: Event, grant: Option<Grant>) {
    match e
    case RefreshEvent(_, _, _) => true
    case SupplyEvent(token, _, _, _) => TrimSpace(token) != ""
    case RequestEvent(_, now, _) => now > ExpiryOf(grant) - 60 * SECOND
  }

  /** The last grant among the first `n` events. */
  function LastGrant(events: seq<Event>, n: nat): Option<Grant>
    requires n <= |events|
  {
    if n == 0 then None
    else
      var e := events[n - 1];
      if Asks(e, LastGrant(events, n - 1)) && e.reply.Granted?
      then Some(Grant(e.reply.access, e.now, e.reply.expiresIn))
      else LastGrant(events, n - 1)
  }

  /** The last refresh token adopted: supplied, or granted in place of the one presented. */
  function LastRefresh(events: seq<Event>, n: nat, initial: string): string
    requires n <= |events|
  {
    if n == 0 then initial
    else
      var e := events[n - 1];
      if Asks(e, LastGrant(events, n - 1)) && e.reply.Granted? && e.reply.refresh != "" then e.reply.refresh
      else if e.SupplyEvent? && TrimSpace(e.token) != "" then e.token
      else LastRefresh(events, n - 1, initial)
  }

  /** What the token file holds: the last token granted in place of the one presented
      whose save worked. */
  function LastSaved(events: seq<Event>, n: nat, initial: string, file: Option<string>): Option<string>
    requires n <= |events|
  {
    if n == 0 then file
    else
      var e := events[n - 1];
      var presented := if e.SupplyEvent? then e.token else LastRefresh(events, n - 1, initial);
      if Asks(e, LastGrant(events, n - 1)) && e.reply.Granted? && e.reply.refresh !in {"", presented} && e.saved
      then Some(TrimSpace(e.reply.refresh))
      else LastSaved(events, n - 1, initial, file)
  }

  /** At every point of every run the client holds the access token of the last grant, with
      its expiry, the refresh token last adopted, and a file with the last one saved; refused replies and blank tokens
      leave the access token alone. */
  lemma {:induction false} TokensAreLastGranted(run: seq<Tokens>, events: seq<Event>, oks: seq<bool>, n: nat,
                                                initial: string, file: Option<string>)
    requires IsRun(run, events, oks) && run[0] == Tokens("", initial, 0, file) && n <= |events|
    ensures var grant := LastGrant(events, n);
            && run[n].access == (if grant.Some? then grant.value.access else "")
            && run[n].expiry == ExpiryOf(grant)
    ensures run[n].refresh == LastRefresh(events, n, initial)
    ensures run[n].file == LastSaved(events, n, initial, file)
  {
    hide TrimSpace;
    if n > 0 {
      TokensAreLastGranted(run, events, oks, n - 1, initial, file);
      assert IsStep(run, events, oks, n - 1);
    }
  }

  /** A request that goes ahead carries the access token of the last grant, which is good
      for another minute if the server grants at least that. */
  lemma {:induction false} RequestCarriesLastGrant(run: seq<Tokens>, events: seq<Event>, oks: seq<bool>, n: nat,
                                                   initial: string, file: Option<string>)
    requires IsRun(run, events, oks) && run[0] == Tokens("", initial, 0, file) && n < |events|
    requires events[n].RequestEvent? && events[n].now >= 0 && oks[n]
    ensures var grant := LastGrant(events, n + 1);
            && grant.Some? && run[n + 1].access == grant.value.access
            && (grant.value.expiresIn >= 60 ==> events[n].now <= ExpiryOf(grant) - 60 * SECOND)
  {
    hide TrimSpace;
    TokensAreLastGranted(run, events, oks, n, initial, file);
    TokensAreLastGranted(run, events, oks, n + 1, initial, file);
    assert IsStep(run, events, oks, n);
  }
}
