/** The chain of single-use refresh tokens (section 6 of RFC 6749) shared by concurrent
    requests, OAuth callbacks and restarts: internal/tesla/client.go behind refreshMu,
    the token file of internal/tesla/tokenfile.go, and the callback of internal/web/oauth.go
    that writes the file before it takes the lock. */
module TokenRotation {
  import opened Prelude

  type Token = string
  type Thread = nat

  /** Where a thread stands. `Pending` has written its token to the file, as the
      `write`-th write, and is about to supply it; the last four hold the lock. */
  datatype Pc =
    | Idle
    | Pending(token: Token, write: nat)
    | Holding
    | Sending(sent: Token)
    | Storing(new_: Token)
    | Persisting(stored: Token)
  {
    predicate HasLock() {
      !Idle? && !Pending?
    }
  }

  /** `rotated` are the tokens the server has consumed and `issued` all there are.
      `overtaken` records that the last supplied token found its file write overwritten,
      with no rotation persisted since. */
  datatype State = State(
    memory: Token, file: Option<Token>, configured: Token,
    lock: Option<Thread>, pcs: map<Thread, Pc>,
    issued: set<Token>, rotated: set<Token>,
    writes: nat, overtaken: bool)
  {
    function At(t: Thread): Pc {
      if t in pcs then pcs[t] else Idle
    }

    /** What a restart would start from. */
    function Resolve(): Token {
      file.GetOr(configured)
    }
  }

  /** The answer to a refresh: refused or lost before the server acted, granted with
      the same token, or granted with a new one in its place. */
  datatype Reply = Refused | Kept | Rotated(next: Token)

  datatype Action =
    | WriteCallback(t: Thread, token: Token)
    | LockToSupply(t: Thread)
    | LockToRefresh(t: Thread)
    | ReadToken(t: Thread)
    | Present(t: Thread, reply: Reply)
    | StoreToken(t: Thread)
    | PersistToken(t: Thread)
    | Restart

  /** The server has rotated a token and its successor is not yet in the file. */
  predicate RotationInFlight(s: State) {
    s.lock.Some? && (s.At(s.lock.value).Storing? || s.At(s.lock.value).Persisting?)
  }

  predicate Enabled(s: State, a: Action) {
    match a
    case WriteCallback(t, token) => s.At(t) == Idle && token !in s.issued
    case LockToSupply(t) => s.At(t).Pending? && s.lock == None
    case LockToRefresh(t) => s.At(t) == Idle && s.lock == None
    case ReadToken(t) => s.At(t) == Holding
    case Present(t, reply) => s.At(t).Sending? && (reply.Rotated? ==> reply.next !in s.issued)
    case StoreToken(t) => s.At(t).Storing?
    case PersistToken(t) => s.At(t).Persisting?
    case Restart => !RotationInFlight(s)
  }

  function Do(s: State, a: Action): State
    requires Enabled(s, a)
  {
    match a
    case WriteCallback(t, token) =>
      s.(file := Some(token), writes := s.writes + 1, issued := s.issued + {token},
         pcs := s.pcs[t := Pending(token, s.writes + 1)])
    case LockToSupply(t) =>
      s.(lock := Some(t), memory := s.At(t).token, overtaken := s.At(t).write != s.writes, pcs := s.pcs[t := Holding])
    case LockToRefresh(t) =>
      s.(lock := Some(t), pcs := s.pcs[t := Holding])
    case ReadToken(t) =>
      s.(pcs := s.pcs[t := Sending(s.memory)])
    case Present(t, reply) =>
      if reply.Rotated? then
        s.(rotated := s.rotated + {s.At(t).sent}, issued := s.issued + {reply.next},
           pcs := s.pcs[t := Storing(reply.next)])
      else
        s.(lock := None, pcs := s.pcs[t := Idle])
    case StoreToken(t) =>
      s.(memory := s.At(t).new_, pcs := s.pcs[t := Persisting(s.At(t).new_)])
    case PersistToken(t) =>
      s.(file := Some(s.At(t).stored), writes := s.writes + 1, overtaken := false, lock := None,
         pcs := s.pcs[t := Idle])
    case Restart =>
      s.(memory := s.Resolve(), overtaken := false, lock := None, pcs := map[])
  }

  // ----- What holds in every reachable state -----

  ghost predicate Initial(s: State) {
    && s.memory == s.Resolve() && s.lock == None && s.pcs == map[] && s.writes == 0 && !s.overtaken
    && s.rotated == {} && s.memory in s.issued && s.configured in s.issued
  }

  /** Some callback's file write is the latest and its token not yet supplied. */
  ghost predicate SupplyPending(s: State) {
    exists t :: t in s.pcs && s.pcs[t].Pending? && s.pcs[t].write == s.writes
  }

  ghost predicate LockHeld(s: State) {
    forall t :: t in s.pcs ==> (s.pcs[t].HasLock() <==> s.lock == Some(t))
  }

  ghost predicate LockOwned(s: State) {
    s.lock.Some? ==> s.lock.value in s.pcs
  }

  /** The token a callback has yet to supply is nobody else's. */
  ghost predicate PendingFresh(s: State, t: Thread)
    requires t in s.pcs && s.pcs[t].Pending?
  {
    var p := s.pcs[t];
    && p.token in s.issued && p.token !in s.rotated && p.token != s.memory
    && 1 <= p.write <= s.writes
    && (p.write == s.writes <==> s.file == Some(p.token))
  }

  ghost predicate PendingsFresh(s: State) {
    && (forall t :: t in s.pcs && s.pcs[t].Pending? ==> PendingFresh(s, t))
    && (forall t, u :: t in s.pcs && u in s.pcs && t != u && s.pcs[t].Pending? && s.pcs[u].Pending? ==>
          s.pcs[t].token != s.pcs[u].token && s.pcs[t].write != s.pcs[u].write)
  }

  ghost predicate Known(s: State) {
    && s.memory in s.issued && s.configured in s.issued && s.rotated <= s.issued
    && (s.file.Some? ==> s.file.value in s.issued)
    && (s.file.None? ==> s.writes == 0)
  }

  /** Between a rotation and its persistence, the new token is unconsumed, unknown to
      the file and to every callback. */
  ghost predicate InFlight(s: State, new_: Token) {
    && new_ in s.issued && new_ !in s.rotated && s.file != Some(new_)
    && (forall t :: t in s.pcs && s.pcs[t].Pending? ==> s.pcs[t].token != new_)
  }

  /** With no rotation in flight nothing at hand is consumed, and file and memory agree
      except while a supply is pending or after one was overtaken. */
  ghost predicate Settled(s: State) {
    && s.memory !in s.rotated && s.Resolve() !in s.rotated
    && (s.Resolve() == s.memory <==> !s.overtaken && !SupplyPending(s))
  }

  ghost predicate Progress(s: State) {
    if s.lock.None? then Settled(s)
    else
      match s.At(s.lock.value)
      case Idle => false
      case Pending(_, _) => false
      case Holding => Settled(s)
      case Sending(sent) => Settled(s) && sent == s.memory
      case Storing(new_) => InFlight(s, new_)
      case Persisting(stored) => InFlight(s, stored) && stored == s.memory
  }

  ghost predicate Inv(s: State) {
    LockHeld(s) && LockOwned(s) && PendingsFresh(s) && Known(s) && Progress(s)
  }

  lemma InitialInv(s: State)
    requires Initial(s)
    ensures Inv(s)
  {
  }

  /** A thread with no supply of its own at stake moves on: nobody else's changes. */
  lemma OthersPending(s: State, t: Thread, pc: Pc)
    requires !pc.Pending? && !(s.At(t).Pending? && s.At(t).write == s.writes)
    ensures forall s': State :: s'.pcs == s.pcs[t := pc] && s'.writes == s.writes ==>
              (SupplyPending(s') <==> SupplyPending(s))
  {
    forall s': State | s'.pcs == s.pcs[t := pc] && s'.writes == s.writes
      ensures SupplyPending(s') <==> SupplyPending(s)
    {
      if SupplyPending(s) {
        var u :| u in s.pcs && s.pcs[u].Pending? && s.pcs[u].write == s.writes;
        assert u in s'.pcs && s'.pcs[u] == s.pcs[u];
      }
    }
  }

  lemma CallbackInv(s: State, t: Thread, token: Token)
    requires Inv(s) && Enabled(s, WriteCallback(t, token))
    ensures Inv(Do(s, WriteCallback(t, token)))
  {
    assert t in Do(s, WriteCallback(t, token)).pcs;
  }

  lemma SupplyInv(s: State, t: Thread)
    requires Inv(s) && Enabled(s, LockToSupply(t))
    ensures Inv(Do(s, LockToSupply(t)))
  {
    var s' := Do(s, LockToSupply(t));
    if s.At(t).write == s.writes {
      assert !SupplyPending(s');
    } else {
      assert s'.file != Some(s'.memory);
    }
  }

  lemma LockInv(s: State, t: Thread)
    requires Inv(s) && Enabled(s, LockToRefresh(t))
    ensures Inv(Do(s, LockToRefresh(t)))
  {
    OthersPending(s, t, Holding);
  }

  lemma ReadInv(s: State, t: Thread)
    requires Inv(s) && Enabled(s, ReadToken(t))
    ensures Inv(Do(s, ReadToken(t)))
  {
    OthersPending(s, t, Sending(s.memory));
  }

  lemma PresentInv(s: State, t: Thread, reply: Reply)
    requires Inv(s) && Enabled(s, Present(t, reply))
    ensures Inv(Do(s, Present(t, reply)))
  {
    OthersPending(s, t, Idle);
  }

  lemma StoreInv(s: State, t: Thread)
    requires Inv(s) && Enabled(s, StoreToken(t))
    ensures Inv(Do(s, StoreToken(t)))
  {
  }

  lemma PersistInv(s: State, t: Thread)
    requires Inv(s) && Enabled(s, PersistToken(t))
    ensures Inv(Do(s, PersistToken(t)))
  {
  }

  lemma {:induction false} StepInv(s: State, a: Action)
    requires Inv(s) && Enabled(s, a)
    ensures Inv(Do(s, a))
  {
    hide Inv, Enabled, Do;
    match a {
      case WriteCallback(t, token) => CallbackInv(s, t, token);
      case LockToSupply(t) => SupplyInv(s, t);
      case LockToRefresh(t) => LockInv(s, t);
      case ReadToken(t) => ReadInv(s, t);
      case Present(t, reply) => PresentInv(s, t, reply);
      case StoreToken(t) => StoreInv(s, t);
      case PersistToken(t) => PersistInv(s, t);
      case Restart => RestartInv(s);
    }
  }

  lemma RestartInv(s: State)
    requires Inv(s) && Enabled(s, Restart)
    ensures Inv(Do(s, Restart))
  {
  }

  // ----- Whole runs -----

  ghost predicate IsRun(run: seq<State>, actions: seq<Action>) {
    && |run| == |actions| + 1 && Initial(run[0])
    && forall i :: 0 <= i < |actions| ==> IsStep(run, actions, i)
  }

  ghost predicate IsStep(run: seq<State>, actions: seq<Action>, i: nat)
    requires i < |actions| && |run| == |actions| + 1
  {
    Enabled(run[i], actions[i]) && run[i + 1] == Do(run[i], actions[i])
  }

  lemma {:induction false} RunInv(run: seq<State>, actions: seq<Action>, n: nat)
    requires IsRun(run, actions) && n <= |actions|
    ensures Inv(run[n])
  {
    if n == 0 {
      InitialInv(run[0]);
    } else {
      RunInv(run, actions, n - 1);
      assert IsStep(run, actions, n - 1);
      StepInv(run[n - 1], actions[n - 1]);
    }
  }

  /** No refresh token is presented after the server has rotated it, whatever the
      interleaving of refreshes, callbacks and restarts. */
  lemma NeverReplayed(run: seq<State>, actions: seq<Action>, i: nat)
    requires IsRun(run, actions) && i < |actions| && actions[i].Present?
    ensures run[i].At(actions[i].t).Sending? && run[i].At(actions[i].t).sent !in run[i].rotated
  {
    RunInv(run, actions, i);
    assert IsStep(run, actions, i);
  }

  /** At most one thread is ever between reading the token and settling its reply. */
  lemma RefreshesExclude(run: seq<State>, actions: seq<Action>, n: nat, t: Thread, u: Thread)
    requires IsRun(run, actions) && n <= |actions|
    requires run[n].At(t).HasLock() && run[n].At(u).HasLock()
    ensures t == u
  {
    RunInv(run, actions, n);
  }

  /** Except while a rotation is being saved, a restart finds an unconsumed token. */
  lemma RestartFindsUnconsumed(run: seq<State>, actions: seq<Action>, n: nat)
    requires IsRun(run, actions) && n <= |actions| && !RotationInFlight(run[n])
    ensures run[n].Resolve() !in run[n].rotated && run[n].memory !in run[n].rotated
  {
    RunInv(run, actions, n);
  }

  /** Step `i` supplies a token whose file write has been overwritten since. */
  ghost predicate Overtakes(run: seq<State>, actions: seq<Action>, i: nat)
    requires i < |actions| && |run| == |actions| + 1
  {
    actions[i].LockToSupply? && run[i].At(actions[i].t).Pending? && run[i].At(actions[i].t).write != run[i].writes
  }

  predicate Realigns(a: Action) {
    a.LockToSupply? || a.PersistToken? || a.Restart?
  }

  ghost predicate LastSupplyOvertaken(run: seq<State>, actions: seq<Action>, n: nat)
    requires n <= |actions| && |run| == |actions| + 1
  {
    n > 0 &&
    if Realigns(actions[n - 1]) then Overtakes(run, actions, n - 1) else LastSupplyOvertaken(run, actions, n - 1)
  }

  lemma {:induction false} OvertakenIsHistory(run: seq<State>, actions: seq<Action>, n: nat)
    requires IsRun(run, actions) && n <= |actions|
    ensures run[n].overtaken <==> LastSupplyOvertaken(run, actions, n)
  {
    if n > 0 {
      OvertakenIsHistory(run, actions, n - 1);
      assert IsStep(run, actions, n - 1);
    }
  }

  /** No refresh and no callback is under way. */
  ghost predicate Quiescent(s: State) {
    s.lock == None && forall t :: t in s.pcs ==> s.pcs[t] == Idle
  }

  /** With no refresh or callback under way, the token file and the memory agree
      unless the last supplied token had already lost the file to a rotation or to
      another callback and its own refresh rotated nothing. */
  lemma FileAgreesExactly(run: seq<State>, actions: seq<Action>, n: nat)
    requires IsRun(run, actions) && n <= |actions| && Quiescent(run[n])
    ensures run[n].Resolve() == run[n].memory <==> !LastSupplyOvertaken(run, actions, n)
  {
    RunInv(run, actions, n);
    OvertakenIsHistory(run, actions, n);
  }

  /** It does happen: a request rotates the token between a callback's file write and
      its supply, whose refresh is then refused. The next restart returns to the
      rotated token's successor and forgets the supplied one. */
  lemma FileAndMemoryCanDisagree()
    ensures exists run: seq<State>, actions: seq<Action> ::
              IsRun(run, actions) && Quiescent(run[|actions|]) && run[|actions|].Resolve() != run[|actions|].memory
  {
    hide IsRun;
    var run, actions := RotatedMidCallback();
    run, actions := Taken(run, actions, LockToSupply(2));
    assert run[|actions|].memory == "c";
    run, actions := Taken(run, actions, ReadToken(2));
    run, actions := Taken(run, actions, Present(2, Refused));
    assert Quiescent(run[|actions|]);
  }

  lemma RotatedMidCallback() returns (run: seq<State>, actions: seq<Action>)
    ensures IsRun(run, actions) && |run| == |actions| + 1
    ensures run[|actions|]
         == State("b", Some("b"), "a", None, map[1 := Idle, 2 := Pending("c", 1)],
                  {"a", "b", "c"}, {"a"}, 2, false)
  {
    hide IsRun;
    run, actions := CallbackMidRotation();
    run, actions := Taken(run, actions, StoreToken(1));
    run, actions := Taken(run, actions, PersistToken(1));
  }

  lemma CallbackMidRotation() returns (run: seq<State>, actions: seq<Action>)
    ensures IsRun(run, actions) && |run| == |actions| + 1
    ensures run[|actions|]
         == State("a", Some("c"), "a", Some(1), map[1 := Storing("b"), 2 := Pending("c", 1)],
                  {"a", "b", "c"}, {"a"}, 1, false)
  {
    hide IsRun;
    run, actions := [State("a", Some("a"), "a", None, map[], {"a"}, {}, 0, false)], [];
    RunBegins(run[0]);
    run, actions := Taken(run, actions, LockToRefresh(1));
    run, actions := Taken(run, actions, ReadToken(1));
    assert run[|actions|] == State("a", Some("a"), "a", Some(1), map[1 := Sending("a")], {"a"}, {}, 0, false);
    run, actions := Taken(run, actions, Present(1, Rotated("b")));
    run, actions := Taken(run, actions, WriteCallback(2, "c"));
  }

  lemma RunBegins(s: State)
    requires Initial(s)
    ensures IsRun([s], [])
  {
  }

  lemma Taken(run: seq<State>, actions: seq<Action>, a: Action) returns (run': seq<State>, actions': seq<Action>)
    requires IsRun(run, actions) && |run| == |actions| + 1 && Enabled(run[|actions|], a)
    ensures IsRun(run', actions') && |run'| == |actions'| + 1
    ensures run'[|actions'|] == Do(run[|actions|], a)
  {
    hide Enabled, Do;
    run', actions' := run + [Do(run[|actions|], a)], actions + [a];
    forall i | 0 <= i < |actions'|
      ensures IsStep(run', actions', i)
    {
      assert i < |actions| ==> IsStep(run, actions, i);
    }
  }
}
