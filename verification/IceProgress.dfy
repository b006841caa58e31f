/**
 * What the agent does for the checks to get on: a lost request is sent again, batches are filled, answers select. Each
 * theorem says what becomes of the pairs of any reachable agent, in the source's own numbers.
 */
module IceProgress {
  import opened Wrappers
  import opened IcePairs
  import opened IceChecks
  import opened IceSafety
  import opened IceRuns

  // ---------------------------------------------------------------- live requests

  /** The request the pair is waiting for is pending, under the pair's own identity. */
  ghost predicate Awaited(a: Agent, p: Pair) {
    p.tid.Some? && p.socket.Some? ==>
      var key := PendingKey(p.socket.value, p.tid.value);
      key in a.pending && a.pending[key] == p.id
  }

  ghost predicate Live(a: Agent) {
    !a.success ==> forall p :: p in a.pairs ==> Awaited(a, p)
  }

  lemma ForgetKeepsLive(a: Agent, i: nat)
    requires Distinct(a.pairs) && i < |a.pairs| && Live(a)
    ensures Live(ForgetRequest(a, i)) && ForgetRequest(a, i).pairs[i].tid == None
  {
    var b := ForgetRequest(a, i);
    if !b.success {
      forall p | p in b.pairs ensures Awaited(b, p) {
        var j :| 0 <= j < |b.pairs| && b.pairs[j] == p;
        if j != i {
          assert Awaited(a, a.pairs[j]) && Awaited(a, a.pairs[i]);
          if a.pairs[j].id == a.pairs[i].id {
            IdIsUnique(a.pairs, i, j);
          }
        }
      }
    }
  }

  lemma FileKeepsLive(b: Agent, i: nat, env: Env)
    requires Core(b) && i < |b.pairs| && b.pairs[i].socket.Some? && Live(b) && b.pairs[i].tid == None
    ensures Live(FileRequest(b, i, env).0)
  {
    var c := FileRequest(b, i, env).0;
    if !c.success {
      forall p | p in c.pairs ensures Awaited(c, p) {
        var j :| 0 <= j < |c.pairs| && c.pairs[j] == p;
        assert Awaited(b, b.pairs[j]) && PairOk(b, b.pairs[j]);
      }
    }
  }

  lemma SendKeepsLive(a: Agent, i: nat, env: Env)
    requires Core(a) && !a.success && i < |a.pairs| && Live(a)
    ensures Live(SendBindingRequest(a, i, env).0)
  {
    hide Live, Core, FileRequest;
    if a.pairs[i].socket.Some? {
      assert Distinct(a.pairs) by {
        CoreIsDistinct(a);
      }
      ForgetKeepsLive(a, i);
      ForgetKeepsCore(a, i);
      FileKeepsLive(ForgetRequest(a, i), i, env);
    }
  }

  lemma CoreIsDistinct(a: Agent)
    requires Core(a)
    ensures Distinct(a.pairs)
  {
  }

  /** A change of states, counts and times only. */
  lemma MarksKeepLive(a: Agent, b: Agent)
    requires Live(a) && b.success == a.success && b.pending == a.pending && |b.pairs| == |a.pairs|
    requires forall j :: 0 <= j < |a.pairs| ==>
      b.pairs[j].id == a.pairs[j].id && b.pairs[j].socket == a.pairs[j].socket && b.pairs[j].tid == a.pairs[j].tid
    ensures Live(b)
  {
    if !b.success {
      forall p | p in b.pairs ensures Awaited(b, p) {
        var j :| 0 <= j < |b.pairs| && b.pairs[j] == p;
        assert Awaited(a, a.pairs[j]);
      }
    }
  }

  lemma StartPairKeepsLive(a: Agent, i: nat, now: int, env: Env)
    requires Core(a) && !a.success && i < |a.pairs| && Live(a)
    ensures Live(StartPair(a, i, now, env).0)
  {
    hide Live, Core, SendBindingRequest;
    var engaged := a.(pairs := a.pairs[i := Engage(a.pairs[i], now)]);
    EngageKeeps(a, i, now);
    MarksKeepLive(a, engaged);
    SendKeepsLive(engaged, i, env);
    SendKeeps(engaged, i, env);
    MarksKeepLive(SendBindingRequest(engaged, i, env).0, StartPair(a, i, now, env).0);
  }

  lemma {:induction false} BatchKeepsLive(a: Agent, i: nat, count: nat, max: nat, now: int, env: Env)
    requires Core(a) && !a.success && Live(a)
    ensures Live(BatchFrom(a, i, count, max, now, env).0)
    decreases |a.pairs| - i
  {
    hide Live, Core, StartPair;
    if i < |a.pairs| && count < max {
      if a.pairs[i].state == Waiting || a.pairs[i].state == Failed {
        StartPairKeepsLive(a, i, now, env);
        StartPairKeeps(a, i, now, env);
        var (b, ok) := StartPair(a, i, now, env);
        BatchKeepsLive(b, i + 1, if ok then count + 1 else count, max, now, env);
      } else {
        BatchKeepsLive(a, i + 1, count, max, now, env);
      }
    }
  }

  lemma NextBatchKeepsLive(a: Agent, max: nat, now: int, env: Env)
    requires Core(a) && !a.success && Live(a)
    ensures Live(StartNextBatch(a, max, now, env))
  {
    hide Core;
    BatchKeepsLive(a, a.current, 0, max, now, env);
  }

  lemma RetryKeepsLive(a: Agent, i: nat, now: int, env: Env)
    requires Core(a) && !a.success && i < |a.pairs| && Live(a) && a.pairs[i].retryCount < MAX_RETRIES
    ensures Live(Retry(a, i, now, env))
  {
    hide Live, Core, SendBindingRequest, ForgetRequest;
    var b := BumpRetry(a, i, now);
    BumpKeepsCore(a, i, now);
    MarksKeepLive(a, b);
    CoreIsDistinct(b);
    ForgetKeepsLive(b, i);
    ForgottenKeepsCore(b, i);
    ForgetShape(b, i);
    SendKeepsLive(ForgetRequest(b, i), i, env);
  }

  lemma SweepOneKeepsLive(a: Agent, i: nat, now: int, env: Env)
    requires Core(a) && !a.success && i < |a.pairs| && Live(a)
    ensures Live(SweepOne(a, i, now, env).0)
  {
    hide Live, Core, Retry;
    if TimedOut(a.pairs[i], now) {
      if a.pairs[i].retryCount < MAX_RETRIES {
        RetryKeepsLive(a, i, now, env);
      } else {
        MarksKeepLive(a, GiveUp(a, i));
      }
    }
  }

  lemma {:induction false} TimeoutsKeepLive(a: Agent, i: nat, gaveUp: bool, now: int, env: Env)
    requires Core(a) && !a.success && Live(a)
    ensures Live(TimeoutsFrom(a, i, gaveUp, now, env).0)
    decreases |a.pairs| - i
  {
    hide Live, Core, SweepOne;
    if i < |a.pairs| {
      SweepOneKeepsLive(a, i, now, env);
      SweepOneKeepsCore(a, i, now, env);
      SweepOneSweeps(a, i, now, env);
      var (b, gaveUpNow) := SweepOne(a, i, now, env);
      TimeoutsKeepLive(b, i + 1, gaveUp || gaveUpNow, now, env);
    }
  }

  lemma ProcessKeepsLive(a: Agent, now: int, env: Env)
    requires Inv(a) && Live(a)
    ensures Live(Process(a, now, env))
  {
    if a.started && !a.success {
      assert Core(a);
      hide Core, Live, Inv;
      TimeoutsKeepLive(a, 0, false, now, env);
      TimeoutsKeepCore(a, 0, false, now, env);
      TimeoutsSweep(a, a, 0, false, now, env);
      NextBatchKeepsLive(TimeoutsFrom(a, 0, false, now, env).0, 2, now, env);
    }
  }

  lemma AddedKeepLive(a: Agent, now: int, env: Env)
    requires a.started && !a.success && Live(a)
    requires CandidatesDistinct(a.locals) && CandidatesDistinct(a.remotes) && a.locals != [] && a.remotes != []
    requires Distinct(a.pairs) && IdsBelow(a.pairs, a.nextPair) && Descending(a.pairs)
    requires AllFormed(a.pairs, a.locals, a.remotes) && PendingOk(a) && forall p :: p in a.pairs ==> PairOk(a, p)
    ensures Live(PairUpAndCheck(a, now, env))
  {
    hide PairOk, PendingOk, Distinct, Descending, AllFormed, AllKeys, Core;
    AddedPairs(a);
    var (b, added) := AddNewPairs(a);
    NewPairsKeepCore(a, b);
    assert forall p :: p in b.pairs ==> Awaited(b, p) by {
      forall p | p in b.pairs ensures Awaited(b, p) {
        if p in a.pairs {
          assert Awaited(a, p);
        }
      }
    }
    if added {
      NextBatchKeepsLive(b, 2, now, env);
    }
  }

  lemma GrownKeepsLive(a: Agent, b: Agent, now: int, env: Env)
    requires Inv(a) && Live(a)
    requires b == a.(locals := b.locals, remotes := b.remotes)
    requires CandidatesDistinct(b.locals) && CandidatesDistinct(b.remotes)
    requires (forall c :: c in a.locals ==> c in b.locals) && (forall c :: c in a.remotes ==> c in b.remotes)
    ensures Live(PairUpAndCheck(b, now, env))
  {
    GrownParts(a, b);
    assert Live(b) by {
      forall p | !b.success && p in b.pairs ensures Awaited(b, p) {
        assert Awaited(a, p);
      }
    }
    if b.started && !b.success {
      AddedKeepLive(b, now, env);
    }
  }

  lemma StartKeepsLive(a: Agent, now: int, env: Env)
    requires Inv(a) && Sorts(env)
    ensures Live(Do(a, Start(now), env))
  {
    var reset := a.(success := false, current := 0, sent := [], notices := []);
    if a.locals != [] && a.remotes != [] {
      assert Core(a);
      hide Core, Inv;
      var formed := FormPairs(reset, env).(started := true);
      FormedKeepsCore(a, reset, env);
      FormedPairs(reset, env);
      assert forall p :: p in formed.pairs ==> Awaited(formed, p);
      NextBatchKeepsLive(formed, 4, now, env);
    } else {
      assert a.pairs == [];
    }
  }

  lemma ResponseKeepsLive(a: Agent, socket: nat, tid: nat, found: bool)
    requires Core(a) && Live(a)
    ensures Live(HandleResponse(a, socket, tid, found))
  {
    var b := HandleResponse(a, socket, tid, found);
    var key := PendingKey(socket, tid);
    if !b.success && key in a.pending {
      var i := IndexOf(a.pairs, a.pending[key]);
      forall p | p in b.pairs ensures Awaited(b, p) {
        var j :| 0 <= j < |b.pairs| && b.pairs[j] == p;
        assert Awaited(a, a.pairs[j]);
        if j != i && i < |a.pairs| && a.pairs[j].id == a.pairs[i].id {
          IdIsUnique(a.pairs, i, j);
        }
      }
    }
  }

  lemma DoKeepsLive(a: Agent, call: Call, env: Env)
    requires Inv(a) && Live(a) && Sorts(env)
    ensures Live(Do(a, call, env))
  {
    match call
    case AddLocal(c, now) =>
      if !IceChecks.Known(a.locals, c) {
        GrownKeepsLive(a, a.(locals := a.locals + [c]), now, env);
      }
    case AddRemote(c, now) =>
      if !IceChecks.Known(a.remotes, c) {
        GrownKeepsLive(a, a.(remotes := a.remotes + [c]), now, env);
      }
    case Start(now) => StartKeepsLive(a, now, env);
    case Tick(now) => ProcessKeepsLive(a, now, env);
    case Response(socket, tid, found) => ResponseKeepsLive(a, socket, tid, found);
    case SetSucceeded(path, remote) =>
    case Stop =>
  }

  lemma {:induction false} ReachableLive(calls: seq<Call>, env: Env)
    requires Sorts(env)
    ensures Inv(Execute(NewAgent(), calls, env)) && Live(Execute(NewAgent(), calls, env))
  {
    hide Live, Inv, Do;
    ReachableInv(calls, env);
    if calls == [] {
      NothingIsLive();
    } else {
      var init := calls[..|calls| - 1];
      ReachableLive(init, env);
      DoKeepsLive(Execute(NewAgent(), init, env), calls[|calls| - 1], env);
    }
  }

  lemma NothingIsLive()
    ensures Live(NewAgent())
  {
  }

  // ---------------------------------------------------------------- lost requests are sent again

  /** The pair goes on under one more try, with a request under a new transaction id if there is a socket and an address
    * and the socket takes it. */
  ghost predicate Resent(p: Pair, q: Pair, first: nat, next: nat, now: int, env: Env) {
    && q == p.(retryCount := p.retryCount + 1, lastSent := now, tid := q.tid)
    && (if p.socket.Some? && p.remote.addr.Some?
        then exists tid: nat :: first <= tid < next && q.tid == if env.sendOk(tid) then Some(tid) else None
        else q.tid == None)
  }

  /** What two seconds without an answer do to a pair. */
  ghost predicate TimeoutSeen(p: Pair, q: Pair, first: nat, next: nat, now: int, env: Env) {
    if p.state != InProgress || now - p.lastSent <= 2000 then q == p
    else if p.retryCount < 3 then Resent(p, q, first, next, now, env)
    else q == p.(state := Failed)
  }

  predicate GivenUp(p: Pair, now: int) {
    p.state == InProgress && now - p.lastSent > 2000 && p.retryCount >= 3
  }

  lemma RequestIsNew(a: Agent, i: nat, env: Env)
    requires i < |a.pairs|
    ensures var b := SendBindingRequest(a, i, env).0; var p, q := a.pairs[i], b.pairs[i];
      && b.pairs == a.pairs[i := p.(tid := q.tid)] && a.nextTid <= b.nextTid
      && (p.socket.None? ==> q.tid == p.tid)
      && (p.socket.Some? ==> b.nextTid == a.nextTid + 1)
      && (p.socket.Some? ==>
            q.tid == if p.remote.addr.Some? && env.sendOk(a.nextTid) then Some(a.nextTid) else None)
  {
  }

  lemma RetryResends(a: Agent, i: nat, now: int, env: Env)
    requires i < |a.pairs|
    ensures var b := Retry(a, i, now, env); var q := b.pairs[i];
      && b.pairs == a.pairs[i := q] && a.nextTid <= b.nextTid
      && Resent(a.pairs[i], q, a.nextTid, b.nextTid, now, env)
  {
    hide SendBindingRequest;
    var c := ForgetRequest(BumpRetry(a, i, now), i);
    assert c.pairs == a.pairs[i := c.pairs[i]] && c.nextTid == a.nextTid && c.pairs[i].tid == None;
    RequestIsNew(c, i, env);
    assert env.sendOk(a.nextTid) || !env.sendOk(a.nextTid);
  }

  lemma SweepOneSees(a: Agent, i: nat, now: int, env: Env)
    requires i < |a.pairs|
    ensures var (b, gaveUp) := SweepOne(a, i, now, env);
      && b.pairs == a.pairs[i := b.pairs[i]] && a.nextTid <= b.nextTid
      && TimeoutSeen(a.pairs[i], b.pairs[i], a.nextTid, b.nextTid, now, env)
      && (gaveUp <==> GivenUp(a.pairs[i], now))
  {
    hide Retry, Resent;
    RetryResends(a, i, now, env);
  }

  lemma SeenLater(p: Pair, q: Pair, first: nat, next: nat, now: int, env: Env, first': nat, next': nat)
    requires TimeoutSeen(p, q, first, next, now, env) && first' <= first && next <= next'
    ensures TimeoutSeen(p, q, first', next', now, env)
  {
  }

  lemma {:induction false} TimeoutsSeen(a: Agent, i: nat, gaveUp: bool, now: int, env: Env)
    ensures var (b, gave) := TimeoutsFrom(a, i, gaveUp, now, env);
      && |b.pairs| == |a.pairs| && a.nextTid <= b.nextTid
      && (forall j :: 0 <= j < i && j < |a.pairs| ==> b.pairs[j] == a.pairs[j])
      && (forall j :: i <= j < |a.pairs| ==> TimeoutSeen(a.pairs[j], b.pairs[j], a.nextTid, b.nextTid, now, env))
      && (gave <==> gaveUp || exists j :: i <= j < |a.pairs| && GivenUp(a.pairs[j], now))
    decreases |a.pairs| - i
  {
    hide SweepOne, TimeoutSeen, GivenUp;
    if i < |a.pairs| {
      var (c, gave) := SweepOne(a, i, now, env);
      SweepOneSees(a, i, now, env);
      TimeoutsSeen(c, i + 1, gaveUp || gave, now, env);
      var b := TimeoutsFrom(a, i, gaveUp, now, env).0;
      forall j | i <= j < |a.pairs| ensures TimeoutSeen(a.pairs[j], b.pairs[j], a.nextTid, b.nextTid, now, env) {
        if j == i {
          SeenLater(a.pairs[j], b.pairs[j], a.nextTid, c.nextTid, now, env, a.nextTid, b.nextTid);
        } else {
          SeenLater(a.pairs[j], b.pairs[j], c.nextTid, b.nextTid, now, env, a.nextTid, b.nextTid);
        }
      }
    }
  }

  // ---------------------------------------------------------------- batches are filled

  predicate TakesTurn(p: Pair) {
    p.state == Waiting || p.state == Failed
  }

  /** A pair whose turn it was: in progress with a request of its own on the way, or failed because it could not be
    * sent; a failed one starts over with its tries. */
  ghost predicate Turned(p: Pair, q: Pair, first: nat, next: nat, now: int) {
    && q == p.(state := q.state, retryCount := if p.state == Failed then 0 else p.retryCount, lastSent := now,
               tid := q.tid)
    && (q.state == Failed
        || (q.state == InProgress && p.socket.Some? && p.remote.addr.Some?
            && q.tid.Some? && first <= q.tid.value < next))
  }

  /** Turn by turn from the batch position on, up to `max` requests or the end of the list. */
  ghost predicate BatchFilled(a: Agent, b: Agent, from: nat, max: int) {
    && |b.pairs| == |a.pairs| && a.nextTid <= b.nextTid && |a.sent| <= |b.sent| <= |a.sent| + max
    && (|b.sent| < |a.sent| + max ==> forall j :: from <= j < |a.pairs| && b.current <= j ==> !TakesTurn(a.pairs[j]))
  }

  ghost predicate TurnsTaken(a: Agent, b: Agent, from: nat, now: int) {
    && |b.pairs| == |a.pairs|
    && forall j :: 0 <= j < |a.pairs| ==>
         if from <= j < b.current && TakesTurn(a.pairs[j])
         then Turned(a.pairs[j], b.pairs[j], a.nextTid, b.nextTid, now) else b.pairs[j] == a.pairs[j]
  }

  lemma StartPairTurns(a: Agent, i: nat, now: int, env: Env)
    requires i < |a.pairs|
    ensures var (b, ok) := StartPair(a, i, now, env); var q := b.pairs[i];
      && b.pairs == a.pairs[i := q] && Turned(a.pairs[i], q, a.nextTid, b.nextTid, now) && a.nextTid <= b.nextTid
      && |b.sent| == |a.sent| + (if ok then 1 else 0) && b.current == i + 1
      && b.notices == a.notices
  {
    var engaged := a.(pairs := a.pairs[i := Engage(a.pairs[i], now)]);
    RequestIsNew(engaged, i, env);
    SendShape(engaged, i, env);
  }

  lemma OneMoreTurn(a: Agent, c: Agent, b: Agent, i: nat, max: int, now: int)
    requires i < |a.pairs| && |c.pairs| == |a.pairs| && TakesTurn(a.pairs[i]) && a.nextTid <= c.nextTid
    requires c.pairs == a.pairs[i := c.pairs[i]] && Turned(a.pairs[i], c.pairs[i], a.nextTid, c.nextTid, now)
    requires |a.sent| <= |c.sent| <= |a.sent| + 1 && i + 1 == c.current <= b.current
    requires BatchFilled(c, b, i + 1, max - (|c.sent| - |a.sent|)) && TurnsTaken(c, b, i + 1, now)
    ensures BatchFilled(a, b, i, max) && TurnsTaken(a, b, i, now)
  {
    hide TakesTurn, Turned;
    forall j | i <= j < |a.pairs| && b.current <= j ensures j > i && c.pairs[j] == a.pairs[j] {
    }
    forall j | i <= j < b.current && j < |a.pairs| && TakesTurn(a.pairs[j])
      ensures Turned(a.pairs[j], b.pairs[j], a.nextTid, b.nextTid, now)
    {
      if j == i {
        TurnedLater(a.pairs[j], b.pairs[j], a.nextTid, c.nextTid, now, a.nextTid, b.nextTid);
      } else {
        TurnedLater(a.pairs[j], b.pairs[j], c.nextTid, b.nextTid, now, a.nextTid, b.nextTid);
      }
    }
  }

  lemma {:induction false} BatchTurns(a: Agent, i: nat, count: nat, max: nat, now: int, env: Env)
    requires a.current <= i && count <= max
    ensures var (b, n) := BatchFrom(a, i, count, max, now, env);
      && BatchFilled(a, b, i, max - count) && TurnsTaken(a, b, i, now)
      && n - count == |b.sent| - |a.sent| && a.current <= b.current && b.notices == a.notices
    decreases |a.pairs| - i
  {
    if i < |a.pairs| && count < max {
      hide StartPair, Turned;
      if TakesTurn(a.pairs[i]) {
        var (c, ok) := StartPair(a, i, now, env);
        var more := if ok then count + 1 else count;
        StartPairTurns(a, i, now, env);
        BatchTurns(c, i + 1, more, max, now, env);
        OneMoreTurn(a, c, BatchFrom(c, i + 1, more, max, now, env).0, i, max - count, now);
      } else {
        BatchTurns(a, i + 1, count, max, now, env);
      }
    }
  }

  lemma TurnedLater(p: Pair, q: Pair, first: nat, next: nat, now: int, first': nat, next': nat)
    requires Turned(p, q, first, next, now) && first' <= first && next <= next'
    ensures Turned(p, q, first', next', now)
  {
  }

  /** A batch of up to `max` requests, and whether it reports that nothing is left to try. */
  ghost predicate BatchOf(a: Agent, b: Agent, max: nat, now: int) {
    && BatchFilled(a, b, a.current, max) && TurnsTaken(a, b, a.current, now)
    && b.notices == a.notices + if |b.sent| == |a.sent| && b.current >= |b.pairs| then [Exhausted] else []
  }

  lemma NextBatchTurns(a: Agent, max: nat, now: int, env: Env)
    ensures BatchOf(a, StartNextBatch(a, max, now, env), max, now)
  {
    hide BatchFilled, TurnsTaken;
    var (b, n) := BatchFrom(a, a.current, 0, max, now, env);
    var c := StartNextBatch(a, max, now, env);
    BatchTurns(a, a.current, 0, max, now, env);
    assert c == b.(notices := c.notices);
    SameBatch(a, b, c, max, now);
  }

  lemma SameBatch(a: Agent, b: Agent, c: Agent, max: nat, now: int)
    requires c == b.(notices := c.notices)
    requires BatchFilled(a, b, a.current, max) && TurnsTaken(a, b, a.current, now)
    ensures BatchFilled(a, c, a.current, max) && TurnsTaken(a, c, a.current, now)
  {
  }

  // ---------------------------------------------------------------- the theorems

  /** A tick looks at every pair for a timeout, and refills the checks with up to two if it has given one up. */
  lemma TickSweepsThenRefills(a: Agent, now: int, env: Env) returns (mid: Agent)
    requires a.started && !a.success
    ensures var b := Do(a, Tick(now), env);
      && |mid.pairs| == |a.pairs| && a.nextTid <= mid.nextTid <= b.nextTid
      && mid.current == a.current && mid.notices == a.notices
      && (forall j :: 0 <= j < |a.pairs| ==>
            TimeoutSeen(a.pairs[j], mid.pairs[j], a.nextTid, mid.nextTid, now, env))
      && (if exists j :: 0 <= j < |a.pairs| && GivenUp(a.pairs[j], now) then BatchOf(mid, b, 2, now) else b == mid)
  {
    hide TimeoutSeen, GivenUp, TimeoutsFrom;
    mid := TimeoutsFrom(a, 0, false, now, env).0;
    TimeoutsSeen(a, 0, false, now, env);
    KeptSelf(a);
    TimeoutsSweep(a, a, 0, false, now, env);
    NextBatchTurns(mid, 2, now, env);
  }

  lemma KeptSelf(a: Agent)
    ensures SweptTo(a, a, false)
  {
  }

  lemma {:induction false} BatchSelectsNothing(a: Agent, i: nat, count: nat, max: nat, now: int, env: Env)
    ensures BatchFrom(a, i, count, max, now, env).0.success == a.success
    decreases |a.pairs| - i
  {
    if i < |a.pairs| && count < max {
      if a.pairs[i].state == Waiting || a.pairs[i].state == Failed {
        var (b, ok) := StartPair(a, i, now, env);
        BatchSelectsNothing(b, i + 1, if ok then count + 1 else count, max, now, env);
      } else {
        BatchSelectsNothing(a, i + 1, count, max, now, env);
      }
    }
  }

  lemma TickKeepsRunning(a: Agent, now: int, env: Env)
    requires a.started && !a.success
    ensures !Do(a, Tick(now), env).success
  {
    KeptSelf(a);
    TimeoutsSweep(a, a, 0, false, now, env);
    BatchSelectsNothing(TimeoutsFrom(a, 0, false, now, env).0, a.current, 0, 2, now, env);
  }

  /** What one tick does to one pair. */
  lemma TickAt(a: Agent, mid: Agent, b: Agent, i: nat, now: int, env: Env)
    requires i < |a.pairs| == |mid.pairs| && a.nextTid <= mid.nextTid <= b.nextTid
    requires mid.current == a.current && mid.notices == a.notices
    requires TimeoutSeen(a.pairs[i], mid.pairs[i], a.nextTid, mid.nextTid, now, env)
    requires if exists j :: 0 <= j < |a.pairs| && GivenUp(a.pairs[j], now) then BatchOf(mid, b, 2, now) else b == mid
    ensures |b.pairs| == |a.pairs|
    ensures var p, q := a.pairs[i], b.pairs[i];
      && (p.state == InProgress && now - p.lastSent <= 2000 ==> q == p)
      && (p.state == InProgress && now - p.lastSent > 2000 && p.retryCount < 3 ==>
            Resent(p, q, a.nextTid, b.nextTid, now, env))
      && (GivenUp(p, now) && i < a.current ==> q == p.(state := Failed))
      && (GivenUp(p, now) ==> q.state == Failed || (q.lastSent == now && q.retryCount == 0))
      && ((forall j :: 0 <= j < |a.pairs| ==> !GivenUp(a.pairs[j], now)) ==>
            b.notices == a.notices && (p.state != InProgress ==> q == p))
  {
    var p, m := a.pairs[i], mid.pairs[i];
    if p.state == InProgress && now - p.lastSent > 2000 && p.retryCount < 3 {
      SeenLater(p, m, a.nextTid, mid.nextTid, now, env, a.nextTid, b.nextTid);
    }
  }

  /** Every pair with a request on the way finds it sent and pending. */
  lemma LiveAt(a: Agent, i: nat)
    requires Inv(a) && Live(a) && !a.success && i < |a.pairs|
    ensures var q := a.pairs[i];
      q.tid.Some? && q.socket.Some? ==>
        && Request(q.socket.value, q.remote, q.tid.value) in a.sent
        && PendingKey(q.socket.value, q.tid.value) in a.pending
        && a.pending[PendingKey(q.socket.value, q.tid.value)] == q.id
  {
    assert a.pairs[i] in a.pairs && PairOk(a, a.pairs[i]) && Awaited(a, a.pairs[i]);
  }

  lemma TriesAt(a: Agent, i: nat)
    requires Inv(a) && i < |a.pairs|
    ensures forall now :: GivenUp(a.pairs[i], now) ==> a.pairs[i].retryCount == 3
  {
    assert a.pairs[i] in a.pairs && PairOk(a, a.pairs[i]);
  }

  /**
   * A request that is not answered within two seconds is sent again, three times: the pair stays in progress under a
   * new transaction id, and the new request is pending. Only then is the pair given up. A pair that still has time is
   * left as it is, and without a pair given up nothing else changes either.
   */
  lemma LostRequestIsRepeated(calls: seq<Call>, env: Env, now: int, i: nat)
    requires Sorts(env)
    requires var a := Execute(NewAgent(), calls, env); a.started && !a.success && i < |a.pairs|
    ensures
      var a := Execute(NewAgent(), calls, env);
      var b := Do(a, Tick(now), env);
      && |b.pairs| == |a.pairs|
      && var p, q := a.pairs[i], b.pairs[i];
         && (p.state == InProgress && now - p.lastSent <= 2000 ==> q == p)
         && (p.state == InProgress && now - p.lastSent > 2000 && p.retryCount < 3 ==>
               Resent(p, q, a.nextTid, b.nextTid, now, env))
         && (q.tid.Some? && q.socket.Some? ==>
               && Request(q.socket.value, q.remote, q.tid.value) in b.sent
               && PendingKey(q.socket.value, q.tid.value) in b.pending
               && b.pending[PendingKey(q.socket.value, q.tid.value)] == q.id)
         && (GivenUp(p, now) && i < a.current ==> q == p.(state := Failed))
         && (GivenUp(p, now) ==> p.retryCount == 3 && (q.state == Failed || (q.lastSent == now && q.retryCount == 0)))
         && ((forall j :: 0 <= j < |a.pairs| ==> !GivenUp(a.pairs[j], now)) ==>
               b.notices == a.notices && (p.state != InProgress ==> q == p))
  {
    hide Live, Inv, Do, Resent, GivenUp, Core;
    var a := Execute(NewAgent(), calls, env);
    var b := Do(a, Tick(now), env);
    ReachableLive(calls, env);
    var mid := TickSweepsThenRefills(a, now, env);
    DoKeepsInv(a, Tick(now), env);
    DoKeepsLive(a, Tick(now), env);
    TickKeepsRunning(a, now, env);
    TickAt(a, mid, b, i, now, env);
    LiveAt(b, i);
    TriesAt(a, i);
  }

  /** The first `b.current` pairs were tried, the others wait for their turn. */
  ghost predicate TriedInOrder(b: Agent, now: int) {
    forall j :: 0 <= j < |b.pairs| ==> var q := b.pairs[j];
      if j < b.current then (q.state == InProgress || q.state == Failed) && q.lastSent == now else q.state == Waiting
  }

  lemma FormedTurns(formed: Agent, b: Agent, now: int)
    requires formed.current == 0 && formed.sent == [] && formed.notices == []
    requires forall p :: p in formed.pairs ==> p.state == Waiting
    requires BatchOf(formed, b, 4, now)
    ensures |b.sent| <= 4 && (|b.sent| < 4 ==> b.current >= |b.pairs|)
    ensures b.notices == if |b.sent| == 0 then [Exhausted] else []
    ensures TriedInOrder(b, now)
  {
    assert forall j :: 0 <= j < |formed.pairs| ==> formed.pairs[j] in formed.pairs && TakesTurn(formed.pairs[j]);
    assert b.current < |formed.pairs| ==> TakesTurn(formed.pairs[b.current]);
  }

  /** Checks start with the four best pairs that can be sent to, or with all of them tried. */
  lemma StartFillsBatch(calls: seq<Call>, env: Env, now: int)
    requires Sorts(env)
    requires var a := Execute(NewAgent(), calls, env); a.locals != [] && a.remotes != []
    ensures var b := Do(Execute(NewAgent(), calls, env), Start(now), env);
      && b.started && !b.success && |b.sent| <= 4 && (|b.sent| < 4 ==> b.current >= |b.pairs|)
      && b.notices == (if |b.sent| == 0 then [Exhausted] else []) && TriedInOrder(b, now) && Descending(b.pairs)
  {
    hide BatchOf, Inv, TriedInOrder, FormPairs, StartNextBatch;
    var a := Execute(NewAgent(), calls, env);
    ReachableInv(calls, env);
    var reset := a.(success := false, current := 0, sent := [], notices := []);
    var formed := FormPairs(reset, env).(started := true);
    StartedAgent(a, reset, now, env);
    FormedPairs(reset, env);
    NextBatchTurns(formed, 4, now, env);
    FormedTurns(formed, StartNextBatch(formed, 4, now, env), now);
  }

  lemma StartedAgent(a: Agent, reset: Agent, now: int, env: Env)
    requires Inv(a) && Sorts(env) && a.locals != [] && a.remotes != []
    requires reset == a.(success := false, current := 0, sent := [], notices := [])
    ensures var formed := FormPairs(reset, env).(started := true); var b := Do(a, Start(now), env);
      && b == StartNextBatch(formed, 4, now, env) && b.started && !b.success && Descending(b.pairs)
      && formed.current == 0 && formed.sent == [] && formed.notices == []
  {
    assert Core(a);
    hide Core, Inv, FormPairs, Do, StartNextBatch, NoneWaitingBefore, NoticesOk;
    FormedKeepsCore(a, reset, env);
    var formed := FormPairs(reset, env).(started := true);
    FormingKeeps(reset, env);
    StartIsMade(a, reset, now, env);
    StartNextBatchKeeps(formed, 4, now, env);
    RanksOf(StartNextBatch(formed, 4, now, env));
  }

  lemma StartIsMade(a: Agent, reset: Agent, now: int, env: Env)
    requires a.locals != [] && a.remotes != []
    requires reset == a.(success := false, current := 0, sent := [], notices := [])
    ensures Do(a, Start(now), env) == StartNextBatch(FormPairs(reset, env).(started := true), 4, now, env)
  {
    hide FormPairs, StartNextBatch;
  }

  lemma FormingKeeps(a: Agent, env: Env)
    ensures var b := FormPairs(a, env); b == a.(pairs := b.pairs, nextPair := b.nextPair)
  {
  }

  lemma RanksOf(a: Agent)
    requires Inv(a)
    ensures Descending(a.pairs)
  {
  }

  // ---------------------------------------------------------------- candidates that come later

  predicate SameEndpoint(c: Candidate, d: Candidate) {
    c.ip == d.ip && c.port == d.port
  }

  /** A candidate with a new address joins its list; while checks run, its pairs wait beside the others, and up to two
    * requests are sent, from the best pair on. A candidate with a known address changes nothing. */
  ghost predicate CandidateJoins(a: Agent, c: Candidate, local: bool, b: Agent, mid: Agent, now: int) {
    var list := if local then a.locals else a.remotes;
    if exists d :: d in list && SameEndpoint(c, d) then b == a
    else
      && b.locals == (if local then a.locals + [c] else a.locals)
      && b.remotes == (if local then a.remotes else a.remotes + [c])
      && (!a.started || a.success ==> b == a.(locals := b.locals, remotes := b.remotes))
      && (a.started && !a.success ==>
            && (forall p :: p in a.pairs ==> p in mid.pairs)
            && (forall p :: p in mid.pairs ==> p in a.pairs || (p.state == Waiting && p.retryCount == 0))
            && if |mid.pairs| > |a.pairs| then mid.current == 0 && BatchOf(mid, b, 2, now) else b == mid)
  }

  lemma KnownIff(list: seq<Candidate>, c: Candidate)
    ensures IceChecks.Known(list, c) <==> exists d :: d in list && SameEndpoint(c, d)
  {
    if exists d :: d in list && SameEndpoint(c, d) {
      var d :| d in list && SameEndpoint(c, d);
      var i :| 0 <= i < |list| && list[i] == d;
      assert list[i].ip == c.ip && list[i].port == c.port;
    }
    if IceChecks.Known(list, c) {
      var i :| 0 <= i < |list| && list[i].ip == c.ip && list[i].port == c.port;
      assert list[i] in list && SameEndpoint(c, list[i]);
    }
  }

  lemma GrownIsTried(a: Agent, b: Agent, now: int, env: Env) returns (mid: Agent)
    requires Inv(a) && b == a.(locals := b.locals, remotes := b.remotes) && b.started && !b.success
    requires CandidatesDistinct(b.locals) && CandidatesDistinct(b.remotes)
    requires (forall c :: c in a.locals ==> c in b.locals) && (forall c :: c in a.remotes ==> c in b.remotes)
    ensures var c := PairUpAndCheck(b, now, env);
      && c.locals == b.locals && c.remotes == b.remotes
      && (forall p :: p in a.pairs ==> p in mid.pairs)
      && (forall p :: p in mid.pairs ==> p in a.pairs || (p.state == Waiting && p.retryCount == 0))
      && if |mid.pairs| > |a.pairs| then mid.current == 0 && BatchOf(mid, c, 2, now) else c == mid
  {
    assert Core(a);
    hide Core, Inv, BatchOf, AddNewPairs, BatchFrom;
    AddedBeside(a, b);
    var (grown, added) := AddNewPairs(b);
    mid := grown;
    SortLength(b);
    NextBatchTurns(mid, 2, now, env);
    if added {
      BatchKeepsLists(mid, mid.current, 0, 2, now, env);
    }
  }

  lemma AddedBeside(a: Agent, b: Agent)
    requires Core(a) && b == a.(locals := b.locals, remotes := b.remotes)
    requires CandidatesDistinct(b.locals) && CandidatesDistinct(b.remotes)
    requires (forall c :: c in a.locals ==> c in b.locals) && (forall c :: c in a.remotes ==> c in b.remotes)
    ensures var mid := AddNewPairs(b).0;
      && (forall p :: p in a.pairs ==> p in mid.pairs)
      && (forall p :: p in mid.pairs ==> p in a.pairs || (p.state == Waiting && p.retryCount == 0))
  {
    hide Core, PairOk, PendingOk, Distinct, Descending, AllFormed, AllKeys, CandidatesDistinct, AddNewPairs;
    GrownParts(a, b);
    AddedPairs(b);
  }

  lemma SortLength(a: Agent)
    ensures var (b, added) := AddNewPairs(a);
      && (added <==> |b.pairs| > |a.pairs|) && b.locals == a.locals && b.remotes == a.remotes
      && (added ==> b.current == 0) && (!added ==> b == a)
  {
    var grown := PairUp(a.pairs, a.locals, a.remotes, a.nextPair);
    StableSortSorts(grown);
    assert |multiset(StableSort(grown))| == |StableSort(grown)| && |multiset(grown)| == |grown|;
  }

  lemma {:induction false} BatchKeepsLists(a: Agent, i: nat, count: nat, max: nat, now: int, env: Env)
    ensures var b := BatchFrom(a, i, count, max, now, env).0; b.locals == a.locals && b.remotes == a.remotes
    decreases |a.pairs| - i
  {
    if i < |a.pairs| && count < max {
      if a.pairs[i].state == Waiting || a.pairs[i].state == Failed {
        var (b, ok) := StartPair(a, i, now, env);
        BatchKeepsLists(b, i + 1, if ok then count + 1 else count, max, now, env);
      } else {
        BatchKeepsLists(a, i + 1, count, max, now, env);
      }
    }
  }

  lemma LocalJoins(a: Agent, c: Candidate, now: int, env: Env) returns (mid: Agent)
    requires Inv(a)
    ensures CandidateJoins(a, c, true, AddLocalCandidate(a, c, now, env), mid, now)
  {
    mid := a;
    KnownIff(a.locals, c);
    var b := a.(locals := a.locals + [c]);
    if !IceChecks.Known(a.locals, c) && a.started && !a.success {
      mid := GrownIsTried(a, b, now, env);
    }
  }

  lemma RemoteJoins(a: Agent, c: Candidate, now: int, env: Env) returns (mid: Agent)
    requires Inv(a)
    ensures CandidateJoins(a, c, false, AddRemoteCandidate(a, c, now, env), mid, now)
  {
    mid := a;
    KnownIff(a.remotes, c);
    var b := a.(remotes := a.remotes + [c]);
    if !IceChecks.Known(a.remotes, c) && a.started && !a.success {
      mid := GrownIsTried(a, b, now, env);
    }
  }

  /** In every run: a late candidate joins, on either side. */
  lemma LateCandidateIsTried(calls: seq<Call>, env: Env, c: Candidate, local: bool, now: int)
    requires Sorts(env)
    ensures
      var a := Execute(NewAgent(), calls, env);
      var b := Do(a, if local then AddLocal(c, now) else AddRemote(c, now), env);
      exists mid :: CandidateJoins(a, c, local, b, mid, now)
  {
    hide CandidateJoins, Inv;
    var a := Execute(NewAgent(), calls, env);
    ReachableInv(calls, env);
    if local {
      var mid := LocalJoins(a, c, now, env);
    } else {
      var mid := RemoteJoins(a, c, now, env);
    }
  }

  // ---------------------------------------------------------------- answers select

  /** The path is fixed: nothing is pending, and the pairs that were being checked count as succeeded. */
  ghost predicate Selected(a: Agent, b: Agent, socket: Option<nat>, remote: Candidate) {
    && b.success && b.activeSocket == socket && b.activeRemote == Some(remote) && b.pending == map[]
    && |b.pairs| == |a.pairs| && b.sent == a.sent
    && forall j :: 0 <= j < |a.pairs| ==>
         b.pairs[j].id == a.pairs[j].id
         && b.pairs[j].state == if a.pairs[j].state == InProgress then Succeeded else a.pairs[j].state
  }

  lemma FoundByIdentity(a: Agent, i: nat)
    requires Core(a) && i < |a.pairs|
    ensures IndexOf(a.pairs, a.pairs[i].id) == i
  {
    var j := IndexOf(a.pairs, a.pairs[i].id);
    assert a.pairs[i] in a.pairs;
    IdIsUnique(a.pairs, i, j);
  }

  lemma SettledStates(a: Agent, socket: Option<nat>, remote: Candidate)
    ensures Selected(a, Select(a, socket, remote), socket, remote)
  {
  }

  lemma AnswerEnds(a: Agent, i: nat, found: bool)
    requires Core(a) && !a.success && i < |a.pairs| && a.pairs[i].socket.Some? && a.pairs[i].tid.Some?
    requires Awaited(a, a.pairs[i])
    ensures
      var p := a.pairs[i];
      var b := HandleResponse(a, p.socket.value, p.tid.value, found);
      var ended := a.(pairs := a.pairs[i := p.(tid := None)],
                      pending := a.pending - {PendingKey(p.socket.value, p.tid.value)});
      b == if found then Select(ended, p.socket, p.remote).(notices := a.notices + [Connected(p.socket, p.remote)])
           else ended
  {
    FoundByIdentity(a, i);
    hide Core, Select, IndexOf;
  }

  lemma SelectedFrom(a: Agent, ended: Agent, b: Agent, socket: Option<nat>, remote: Candidate)
    requires Selected(ended, b, socket, remote) && ended.sent == a.sent && |ended.pairs| == |a.pairs|
    requires forall j :: 0 <= j < |a.pairs| ==>
      ended.pairs[j].id == a.pairs[j].id && ended.pairs[j].state == a.pairs[j].state
    ensures forall notices :: Selected(a, b.(notices := notices), socket, remote)
  {
  }

  lemma AnswerAt(a: Agent, i: nat, found: bool)
    requires Core(a) && !a.success && i < |a.pairs| && a.pairs[i].socket.Some? && a.pairs[i].tid.Some?
    requires Awaited(a, a.pairs[i])
    ensures
      var p := a.pairs[i];
      var b := HandleResponse(a, p.socket.value, p.tid.value, found);
      && (found ==> Selected(a, b, p.socket, p.remote) && b.notices == a.notices + [Connected(p.socket, p.remote)])
      && (!found ==> b == a.(pairs := a.pairs[i := p.(tid := None)],
                             pending := a.pending - {PendingKey(p.socket.value, p.tid.value)}))
  {
    hide Core, HandleResponse, Select, Selected;
    AnswerEnds(a, i, found);
    var p := a.pairs[i];
    var ended := a.(pairs := a.pairs[i := p.(tid := None)],
                    pending := a.pending - {PendingKey(p.socket.value, p.tid.value)});
    SettledStates(ended, p.socket, p.remote);
    SelectedFrom(a, ended, Select(ended, p.socket, p.remote), p.socket, p.remote);
  }

  lemma CallIsMade(a: Agent, env: Env, socket: nat, tid: nat, found: bool, path: Option<nat>, remote: Candidate)
    ensures Do(a, Response(socket, tid, found), env) == HandleResponse(a, socket, tid, found)
    ensures !a.success ==> Do(a, SetSucceeded(path, remote), env) == Select(a, path, remote)
  {
    hide HandleResponse, Select;
  }

  /**
   * In every run: an answer with an address to the request a pair is waiting for selects that pair's path and reports
   * it; without an address it only ends that request, so that the pair times out. An outside success selects too, and
   * reports nothing.
   */
  lemma AnswerSelects(calls: seq<Call>, env: Env, i: nat, found: bool, path: Option<nat>, remote: Candidate)
    requires Sorts(env)
    requires var a := Execute(NewAgent(), calls, env);
      !a.success && i < |a.pairs| && a.pairs[i].socket.Some? && a.pairs[i].tid.Some?
    ensures
      var a := Execute(NewAgent(), calls, env);
      var p := a.pairs[i];
      var b := Do(a, Response(p.socket.value, p.tid.value, found), env);
      var c := Do(a, SetSucceeded(path, remote), env);
      && (found ==> Selected(a, b, p.socket, p.remote) && b.notices == a.notices + [Connected(p.socket, p.remote)])
      && (!found ==> b == a.(pairs := a.pairs[i := p.(tid := None)],
                             pending := a.pending - {PendingKey(p.socket.value, p.tid.value)}))
      && Selected(a, c, path, remote) && c.notices == a.notices
  {
    var a := Execute(NewAgent(), calls, env);
    ReachableLive(calls, env);
    var p := a.pairs[i];
    assert Core(a) && p in a.pairs && Awaited(a, p);
    hide Core, Inv, Live, Execute, HandleResponse, Do, Selected, Awaited, Sorts;
    AnswerAt(a, i, found);
    CallIsMade(a, env, p.socket.value, p.tid.value, found, path, remote);
    SettledStates(a, path, remote);
  }

  // ---------------------------------------------------------------- cancelled agents

  predicate Idle(call: Call) {
    call.Tick? || call.Response? || call.AddLocal? || call.AddRemote? || call.Stop?
  }

  /** After a cancel nothing is sent, selected or reported until the checks are started again. */
  lemma {:induction false} CancelledIsQuiet(a: Agent, calls: seq<Call>, env: Env)
    requires forall i :: 0 <= i < |calls| ==> Idle(calls[i])
    ensures var b := Execute(Do(a, Stop, env), calls, env);
      && !b.started && !b.success && b.pairs == [] && b.pending == map[] && b.activeSocket == None
      && b.sent == a.sent && b.notices == a.notices
  {
    if calls != [] {
      CancelledIsQuiet(a, calls[..|calls| - 1], env);
    }
  }
}
