/** Whole runs of an agent: any sequence of calls, with any answers of the socket and any sort. */
module IceRuns {
  import opened Wrappers
  import opened IcePairs
  import opened IceChecks
  import opened IceSafety

  datatype Call =
    | AddLocal(candidate: Candidate, now: int)
    | AddRemote(candidate: Candidate, now: int)
    | Start(now: int)
    | Tick(now: int)
    | Response(socket: nat, tid: nat, found: bool)
    | SetSucceeded(path: Option<nat>, remote: Candidate)
    | Stop

  function Do(a: Agent, call: Call, env: Env): Agent {
    match call
    case AddLocal(c, now) => AddLocalCandidate(a, c, now, env)
    case AddRemote(c, now) => AddRemoteCandidate(a, c, now, env)
    case Start(now) => StartConnectivityChecks(a, now, env).0
    case Tick(now) => Process(a, now, env)
    case Response(socket, tid, found) => HandleResponse(a, socket, tid, found)
    case SetSucceeded(path, remote) => SetPairSucceeded(a, path, remote)
    case Stop => Cancel(a)
  }

  function Execute(a: Agent, calls: seq<Call>, env: Env): Agent {
    if calls == [] then a else Do(Execute(a, calls[..|calls| - 1], env), calls[|calls| - 1], env)
  }

  lemma DoKeepsInv(a: Agent, call: Call, env: Env)
    requires Inv(a) && Sorts(env)
    ensures Inv(Do(a, call, env))
  {
    match call
    case AddLocal(c, now) => AddLocalKeepsInv(a, c, now, env);
    case AddRemote(c, now) => AddRemoteKeepsInv(a, c, now, env);
    case Start(now) => StartKeepsInv(a, now, env);
    case Tick(now) => ProcessKeepsInv(a, now, env);
    case Response(socket, tid, found) => ResponseKeepsInv(a, socket, tid, found);
    case SetSucceeded(path, remote) => SetSucceededKeepsInv(a, path, remote);
    case Stop => CancelKeepsInv(a);
  }

  /** Every reachable state satisfies the invariant. */
  lemma {:induction false} ReachableInv(calls: seq<Call>, env: Env)
    requires Sorts(env)
    ensures Inv(Execute(NewAgent(), calls, env))
  {
    if calls == [] {
      assert Keys([]) == {} && Ids([]) == {};
    } else {
      ReachableInv(calls[..|calls| - 1], env);
      DoKeepsInv(Execute(NewAgent(), calls[..|calls| - 1], env), calls[|calls| - 1], env);
    }
  }

  /**
   * Between calls: success leaves no pair in progress and no request pending, without success no pair has
   * succeeded, no retry count exceeds the limit, nothing before the batch index waits, and checks never stall.
   */
  lemma StateBetweenCalls(calls: seq<Call>, env: Env, p: Pair)
    requires Sorts(env) && p in Execute(NewAgent(), calls, env).pairs
    ensures var a := Execute(NewAgent(), calls, env);
      && (a.success ==> p.state != InProgress && a.pending == map[])
      && (!a.success ==> p.state != Succeeded)
      && p.retryCount <= MAX_RETRIES
      && NoneWaitingBefore(a, a.current)
      && (!a.success && HasState(a, Waiting) ==> HasState(a, InProgress))
  {
    ReachableInv(calls, env);
    assert PairOk(Execute(NewAgent(), calls, env), p);
  }

  /** A call that reports exhaustion leaves no pair waiting. */
  lemma ExhaustionMeansNoneWaiting(calls: seq<Call>, env: Env, now: int, c: Candidate)
    requires Sorts(env)
    ensures var a := Execute(NewAgent(), calls, env);
      && (forall call :: call in {Tick(now), AddLocal(c, now), AddRemote(c, now)} ==>
            var b := Do(a, call, env);
            b.notices == a.notices || (b.notices == a.notices + [Exhausted] && !HasState(b, Waiting)))
      && (var b := Do(a, Start(now), env); b.notices == [] || (b.notices == [Exhausted] && !HasState(b, Waiting)))
  {
    var a := Execute(NewAgent(), calls, env);
    ReachableInv(calls, env);
    ProcessKeepsInv(a, now, env);
    AddReportsSoundly(a, c, now, env);
    StartReportsSoundly(a, now, env);
  }

  lemma AddReportsSoundly(a: Agent, c: Candidate, now: int, env: Env)
    requires Inv(a)
    ensures ReportsSoundly(a, AddLocalCandidate(a, c, now, env))
    ensures ReportsSoundly(a, AddRemoteCandidate(a, c, now, env))
  {
    if !IceChecks.Known(a.locals, c) {
      GrownKeepsInv(a, a.(locals := a.locals + [c]), now, env);
    }
    if !IceChecks.Known(a.remotes, c) {
      GrownKeepsInv(a, a.(remotes := a.remotes + [c]), now, env);
    }
  }

  lemma StartReportsSoundly(a: Agent, now: int, env: Env)
    requires Inv(a) && Sorts(env)
    ensures var b := Do(a, Start(now), env);
      b.notices == [] || (b.notices == [Exhausted] && !HasState(b, Waiting))
  {
    hide Core;
    if a.locals != [] && a.remotes != [] {
      var reset := a.(success := false, current := 0, sent := [], notices := []);
      FormedPairs(reset, env);
      ResetKeepsCore(a, FormPairs(reset, env).(started := true));
      StartNextBatchKeeps(FormPairs(reset, env).(started := true), 4, now, env);
    }
  }

  // ---------------------------------------------------------------- the request budget

  /** Requests a pair may still cost, as long as no candidate is added. */
  function ReserveOf(p: Pair): nat {
    if p.state == Waiting then 1 + MAX_RETRIES
    else if p.state == InProgress && p.retryCount < MAX_RETRIES then MAX_RETRIES - p.retryCount
    else 0
  }

  function Reserve(ps: seq<Pair>): nat {
    if ps == [] then 0 else Reserve(ps[..|ps| - 1]) + ReserveOf(ps[|ps| - 1])
  }

  lemma {:induction false} ReserveChange(ps: seq<Pair>, i: nat, p: Pair)
    requires i < |ps|
    ensures Reserve(ps[i := p]) == Reserve(ps) - ReserveOf(ps[i]) + ReserveOf(p)
  {
    var init := ps[..|ps| - 1];
    if i < |ps| - 1 {
      ReserveChange(init, i, p);
      assert ps[i := p][..|ps| - 1] == init[i := p];
    } else {
      assert ps[i := p][..|ps| - 1] == init;
    }
  }

  function Spent(a: Agent): int {
    |a.sent| + Reserve(a.pairs)
  }

  /** Everything from the batch index on still waits for its first turn. */
  predicate FreshFrom(a: Agent, k: nat) {
    forall i :: k <= i < |a.pairs| ==> a.pairs[i].state == Waiting && a.pairs[i].retryCount == 0
  }

  lemma OnlyAtReserve(a: Agent, b: Agent, i: nat)
    requires OnlyAt(a, b, i) && i < |a.pairs|
    ensures Reserve(b.pairs) == Reserve(a.pairs) - ReserveOf(a.pairs[i]) + ReserveOf(b.pairs[i])
  {
    assert b.pairs == a.pairs[i := b.pairs[i]];
    ReserveChange(a.pairs, i, b.pairs[i]);
  }

  lemma StartPairSpends(a: Agent, i: nat, now: int, env: Env)
    requires FreshFrom(a, i) && i < |a.pairs|
    ensures var (b, ok) := StartPair(a, i, now, env);
      Spent(b) <= Spent(a) && FreshFrom(b, i + 1) && b.current == i + 1 && |b.pairs| == |a.pairs|
  {
    var engaged := a.(pairs := a.pairs[i := Engage(a.pairs[i], now)]);
    SendShape(engaged, i, env);
    var (b, ok) := StartPair(a, i, now, env);
    assert OnlyAt(a, b, i);
    OnlyAtReserve(a, b, i);
  }

  lemma {:induction false} BatchSpends(a: Agent, i: nat, count: nat, max: nat, now: int, env: Env)
    requires FreshFrom(a, i) && a.current == i
    ensures var (b, n) := BatchFrom(a, i, count, max, now, env);
      Spent(b) <= Spent(a) && FreshFrom(b, b.current)
    decreases |a.pairs| - i
  {
    hide Spent, StartPair;
    if i < |a.pairs| && count < max {
      StartPairSpends(a, i, now, env);
      var (b, ok) := StartPair(a, i, now, env);
      BatchSpends(b, i + 1, if ok then count + 1 else count, max, now, env);
    }
  }

  lemma SweepOneSpends(a: Agent, i: nat, now: int, env: Env)
    requires i < |a.pairs|
    ensures var b := SweepOne(a, i, now, env).0;
      Spent(b) <= Spent(a) && (forall k :: FreshFrom(a, k) ==> FreshFrom(b, k))
  {
    if TimedOut(a.pairs[i], now) {
      if a.pairs[i].retryCount < MAX_RETRIES {
        RetryShape(a, i, now, env);
        OnlyAtReserve(a, Retry(a, i, now, env), i);
      } else {
        OnlyAtReserve(a, GiveUp(a, i), i);
      }
    }
  }

  lemma {:induction false} TimeoutsSpend(a: Agent, i: nat, gaveUp: bool, now: int, env: Env)
    ensures var b := TimeoutsFrom(a, i, gaveUp, now, env).0;
      Spent(b) <= Spent(a) && (forall k :: FreshFrom(a, k) ==> FreshFrom(b, k))
    decreases |a.pairs| - i
  {
    if i < |a.pairs| {
      SweepOneSpends(a, i, now, env);
      TimeoutsSpend(SweepOne(a, i, now, env).0, i + 1, gaveUp || SweepOne(a, i, now, env).1, now, env);
    }
  }

  lemma ProcessSpends(a: Agent, now: int, env: Env)
    requires Inv(a) && FreshFrom(a, a.current)
    ensures var b := Process(a, now, env); Spent(b) <= Spent(a) && FreshFrom(b, b.current)
  {
    if a.started && !a.success {
      TimeoutsSpend(a, 0, false, now, env);
      TimeoutsSweep(a, a, 0, false, now, env);
      var (b, gaveUp) := TimeoutsFrom(a, 0, false, now, env);
      if gaveUp {
        StartNextBatchSpends(b, 2, now, env);
      }
    }
  }

  lemma {:induction false} SettledSpends(ps: seq<Pair>)
    ensures Reserve(Settled(ps)) <= Reserve(ps)
  {
    if ps != [] {
      SettledSpends(ps[..|ps| - 1]);
      assert Settled(ps)[..|ps| - 1] == Settled(ps[..|ps| - 1]);
    }
  }

  lemma ResponseSpends(a: Agent, socket: nat, tid: nat, found: bool)
    requires FreshFrom(a, a.current)
    ensures var b := HandleResponse(a, socket, tid, found); Spent(b) <= Spent(a) && FreshFrom(b, b.current)
  {
    var key := PendingKey(socket, tid);
    if key in a.pending {
      var i := IndexOf(a.pairs, a.pending[key]);
      if i < |a.pairs| {
        ReserveChange(a.pairs, i, a.pairs[i].(tid := None));
        SettledSpends(a.pairs[i := a.pairs[i].(tid := None)]);
      }
    }
  }

  /** The calls a running check gets when no candidate is added and it is not restarted. */
  predicate Quiet(call: Call) {
    call.Tick? || call.Response? || call.SetSucceeded? || call.Stop?
  }

  lemma QuietSpends(a: Agent, call: Call, env: Env)
    requires Inv(a) && FreshFrom(a, a.current) && Quiet(call)
    ensures var b := Do(a, call, env); Spent(b) <= Spent(a) && FreshFrom(b, b.current)
  {
    match call
    case Tick(now) => ProcessSpends(a, now, env);
    case Response(socket, tid, found) => ResponseSpends(a, socket, tid, found);
    case SetSucceeded(path, remote) => SettledSpends(a.pairs);
    case Stop =>
  }

  lemma {:induction false} QuietRunSpends(a: Agent, calls: seq<Call>, env: Env)
    requires Inv(a) && Sorts(env) && FreshFrom(a, a.current)
    requires forall i :: 0 <= i < |calls| ==> Quiet(calls[i])
    ensures var b := Execute(a, calls, env); Inv(b) && Spent(b) <= Spent(a) && FreshFrom(b, b.current)
  {
    if calls != [] {
      var init, last := calls[..|calls| - 1], calls[|calls| - 1];
      QuietRunSpends(a, init, env);
      QuietSpends(Execute(a, init, env), last, env);
      DoKeepsInv(Execute(a, init, env), last, env);
    }
  }

  lemma {:induction false} FreshReserve(ps: seq<Pair>)
    requires forall p :: p in ps ==> p.state == Waiting
    ensures Reserve(ps) == (1 + MAX_RETRIES) * |ps|
  {
    if ps != [] {
      FreshReserve(ps[..|ps| - 1]);
    }
  }

  lemma StartNextBatchSpends(a: Agent, max: nat, now: int, env: Env)
    requires FreshFrom(a, a.current)
    ensures var b := StartNextBatch(a, max, now, env); Spent(b) <= Spent(a) && FreshFrom(b, b.current)
  {
    BatchSpends(a, a.current, 0, max, now, env);
  }

  lemma BatchKeepsLength(a: Agent, max: nat, now: int, env: Env)
    ensures |StartNextBatch(a, max, now, env).pairs| == |a.pairs|
  {
  }

  lemma StartSpends(a: Agent, now: int, env: Env)
    requires Sorts(env) && a.locals != [] && a.remotes != []
    ensures var b := Do(a, Start(now), env);
      FreshFrom(b, b.current) && Spent(b) <= (1 + MAX_RETRIES) * |b.pairs|
  {
    hide IcePairs.Distinct, AllFormed, AllKeys;
    var reset := a.(success := false, current := 0, sent := [], notices := []);
    var formed := FormPairs(reset, env).(started := true);
    FormedPairs(reset, env);
    assert forall i :: 0 <= i < |formed.pairs| ==> formed.pairs[i] in formed.pairs;
    FreshReserve(formed.pairs);
    StartNextBatchSpends(formed, 4, now, env);
    BatchKeepsLength(formed, 4, now, env);
  }

  /**
   * Once checks are started and until a candidate is added or they are restarted, the requests sent never
   * exceed one plus the retry limit for each pair formed, whatever the socket and the peer do.
   */
  lemma RequestBudget(before: seq<Call>, now: int, calls: seq<Call>, env: Env)
    requires Sorts(env) && forall i :: 0 <= i < |calls| ==> Quiet(calls[i])
    ensures
      var a := Execute(NewAgent(), before, env);
      var formed := Do(a, Start(now), env);
      |Execute(formed, calls, env).sent| <= (1 + MAX_RETRIES) * |formed.pairs|
  {
    var a := Execute(NewAgent(), before, env);
    ReachableInv(before, env);
    var formed := Do(a, Start(now), env);
    DoKeepsInv(a, Start(now), env);
    if a.locals != [] && a.remotes != [] {
      StartSpends(a, now, env);
    } else {
      assert formed.pairs == [];
    }
    QuietRunSpends(formed, calls, env);
  }

  // ---------------------------------------------------------------- selection

  /**
   * A response that makes the checks succeed selects the socket and remote of a formed pair to which exactly
   * this request was sent, and fires the callback for it.
   */
  lemma ResponseSelectsRequestedPair(calls: seq<Call>, env: Env, socket: nat, tid: nat, found: bool)
    requires Sorts(env) && !Execute(NewAgent(), calls, env).success
    requires HandleResponse(Execute(NewAgent(), calls, env), socket, tid, found).success
    ensures
      var a := Execute(NewAgent(), calls, env);
      var b := HandleResponse(a, socket, tid, found);
      && found
      && exists p :: p in a.pairs && p.socket == Some(socket) && p.tid == Some(tid)
           && Request(socket, p.remote, tid) in a.sent
           && b.activeSocket == Some(socket) && b.activeRemote == Some(p.remote)
           && b.notices == a.notices + [Connected(Some(socket), p.remote)]
  {
    ReachableInv(calls, env);
    var a := Execute(NewAgent(), calls, env);
    var i := IndexOf(a.pairs, a.pending[PendingKey(socket, tid)]);
    assert a.pairs[i] in a.pairs && PairOk(a, a.pairs[i]);
  }

  /** A response nobody asked for, or for a pair that is gone, selects nothing. */
  lemma UnmatchedResponseSelectsNothing(a: Agent, socket: nat, tid: nat, found: bool)
    requires Inv(a) && !a.success
    requires forall p :: p in a.pairs ==> p.socket != Some(socket) || p.tid != Some(tid)
    ensures var b := HandleResponse(a, socket, tid, found);
      !b.success && b.pairs == a.pairs && b.notices == a.notices
  {
  }

  predicate KeepsSelection(call: Call) {
    !call.Start? && !call.Stop?
  }

  /** A selection stays until the checks are restarted or cancelled, and fires no second callback. */
  lemma {:induction false} SelectionStays(a: Agent, calls: seq<Call>, env: Env)
    requires a.success && forall i :: 0 <= i < |calls| ==> KeepsSelection(calls[i])
    ensures var b := Execute(a, calls, env);
      && b.success && b.activeSocket == a.activeSocket && b.activeRemote == a.activeRemote
      && b.notices == a.notices && b.sent == a.sent
  {
    if calls != [] {
      SelectionStays(a, calls[..|calls| - 1], env);
    }
  }

  /** Since checks were last started the success callback has fired at most once. */
  lemma ConnectedAtMostOnce(calls: seq<Call>, env: Env, i: nat, j: nat)
    requires Sorts(env) && i < j < |Execute(NewAgent(), calls, env).notices|
    ensures var notices := Execute(NewAgent(), calls, env).notices;
      !(notices[i].Connected? && notices[j].Connected?)
  {
    ReachableInv(calls, env);
  }

  // ---------------------------------------------------------------- the pair list

  predicate AllColonFree(a: Agent) {
    && (forall i :: 0 <= i < |a.locals| ==> ColonFree(a.locals[i].ip))
    && (forall i :: 0 <= i < |a.remotes| ==> ColonFree(a.remotes[i].ip))
  }

  lemma SameCandidate(cs: seq<Candidate>, c: Candidate, d: Candidate)
    requires CandidatesDistinct(cs) && c in cs && d in cs && c.ip == d.ip && c.port == d.port
    ensures c == d
  {
  }

  lemma KeyTellsCandidates(a: Agent, p: Pair, q: Pair)
    requires AllColonFree(a) && CandidatesDistinct(a.locals) && CandidatesDistinct(a.remotes)
    requires FormedFrom(p, a.locals, a.remotes) && FormedFrom(q, a.locals, a.remotes) && KeyOf(p) == KeyOf(q)
    ensures p.local == q.local && p.remote == q.remote && p.priority == q.priority && p.socket == q.socket
  {
    PairKeyInjective(p.local, p.remote, q.local, q.remote);
    SameCandidate(a.locals, p.local, q.local);
    SameCandidate(a.remotes, p.remote, q.remote);
  }

  lemma KeyIsUnique(ps: seq<Pair>, i: nat, j: nat)
    requires Distinct(ps) && i < |ps| && j < |ps| && KeyOf(ps[i]) == KeyOf(ps[j])
    ensures i == j
  {
    if i != j {
      var k := if i < j then j else i;
      var rest := ps[..k] + ps[k + 1..];
      assert forall p :: p in ps <==> p in rest || p == ps[k];
      assert ps[if i < j then i else j] in rest;
      assert Keys(ps) == Keys(rest);
      CardinalityAtMost(rest);
    }
  }

  /**
   * While checks run, there is exactly one pair for each combination of a local and a remote candidate, on the
   * local candidate's socket and with its ranking, and the list is sorted by descending priority.
   */
  lemma OnePairPerCombination(calls: seq<Call>, env: Env, l: Candidate, r: Candidate)
    requires Sorts(env)
    requires var a := Execute(NewAgent(), calls, env);
      a.started && !a.success && AllColonFree(a) && l in a.locals && r in a.remotes
    ensures var a := Execute(NewAgent(), calls, env);
      && Descending(a.pairs)
      && (exists i :: 0 <= i < |a.pairs| && a.pairs[i].local == l && a.pairs[i].remote == r
            && a.pairs[i].socket == l.sock && a.pairs[i].priority == Priority(l, r))
      && (forall i, j :: 0 <= i < j < |a.pairs| ==>
            a.pairs[i].local != a.pairs[j].local || a.pairs[i].remote != a.pairs[j].remote)
  {
    ReachableInv(calls, env);
    var a := Execute(NewAgent(), calls, env);
    assert PairKey(l, r) in Keys(a.pairs);
    var p :| p in a.pairs && KeyOf(p) == PairKey(l, r);
    assert FormedFrom(p, a.locals, a.remotes);
    PairKeyInjective(p.local, p.remote, l, r);
    SameCandidate(a.locals, p.local, l);
    SameCandidate(a.remotes, p.remote, r);
    forall i, j | 0 <= i < j < |a.pairs|
      ensures a.pairs[i].local != a.pairs[j].local || a.pairs[i].remote != a.pairs[j].remote
    {
      if a.pairs[i].local == a.pairs[j].local && a.pairs[i].remote == a.pairs[j].remote {
        KeyIsUnique(a.pairs, i, j);
      }
    }
  }

  /**
   * Pairs reached by adding candidates one at a time are, key for key and priority for priority, those that
   * forming from scratch would give; and adding keeps every pair there was, with its state.
   */
  lemma IncrementalMatchesScratch(calls: seq<Call>, env: Env)
    requires Sorts(env)
    requires var a := Execute(NewAgent(), calls, env); a.started && !a.success && AllColonFree(a)
    ensures var a := Execute(NewAgent(), calls, env);
      && Keys(a.pairs) == Keys(FormPairs(a, env).pairs)
      && Priorities(a.pairs) == Priorities(FormPairs(a, env).pairs)
  {
    ReachableInv(calls, env);
    var a := Execute(NewAgent(), calls, env);
    var b := FormPairs(a, env);
    FormedPairs(a, env);
    SameKeys(a, a.pairs, b.pairs);
    forall p, q | p in a.pairs && q in b.pairs && KeyOf(p) == KeyOf(q) ensures p.priority == q.priority {
      assert FormedFrom(p, a.locals, a.remotes) && FormedFrom(q, a.locals, a.remotes);
      KeyTellsCandidates(a, p, q);
    }
    SameKeysSamePriorities(a.pairs, b.pairs);
  }

  lemma SameKeys(a: Agent, ps: seq<Pair>, qs: seq<Pair>)
    requires AllFormed(ps, a.locals, a.remotes) && AllFormed(qs, a.locals, a.remotes)
    requires AllKeys(ps, a.locals, a.remotes) && AllKeys(qs, a.locals, a.remotes)
    ensures Keys(ps) == Keys(qs)
  {
  }

  lemma AddingKeepsPairs(calls: seq<Call>, env: Env, c: Candidate, p: Pair)
    requires Sorts(env) && p in Execute(NewAgent(), calls, env).pairs
    ensures
      var a := Execute(NewAgent(), calls, env);
      && p in AddNewPairs(a.(locals := a.locals + [c])).0.pairs
      && p in AddNewPairs(a.(remotes := a.remotes + [c])).0.pairs
  {
    ReachableInv(calls, env);
    var a := Execute(NewAgent(), calls, env);
    assert IdsBelow(a.pairs, a.nextPair) by {
      forall q | q in a.pairs ensures q.id < a.nextPair {
        assert PairOk(a, q);
      }
    }
    forall q | q in a.pairs
      ensures FormedFrom(q, a.locals + [c], a.remotes) && FormedFrom(q, a.locals, a.remotes + [c])
    {
      assert FormedFrom(q, a.locals, a.remotes);
    }
    AddedPairs(a.(locals := a.locals + [c]));
    AddedPairs(a.(remotes := a.remotes + [c]));
  }
}
