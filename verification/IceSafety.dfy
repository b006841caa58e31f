/** What every call of the agent keeps, and what that says about whole runs. */
module IceSafety {
  import opened Wrappers
  import opened IcePairs
  import opened IceChecks

  // ---------------------------------------------------------------- changing one pair

  predicate SameIdentity(p: Pair, q: Pair) {
    p.id == q.id && p.local == q.local && p.remote == q.remote && p.socket == q.socket && p.priority == q.priority
  }

  /** The same pair objects in the same places. */
  ghost predicate SamePairs(ps: seq<Pair>, qs: seq<Pair>) {
    |ps| == |qs| && forall i :: 0 <= i < |ps| ==> SameIdentity(ps[i], qs[i])
  }

  lemma SamePairsSameKeys(ps: seq<Pair>, qs: seq<Pair>)
    requires SamePairs(ps, qs)
    ensures Keys(ps) <= Keys(qs) && Ids(ps) <= Ids(qs)
  {
    forall p | p in ps ensures KeyOf(p) in Keys(qs) && p.id in Ids(qs) {
      var i :| 0 <= i < |ps| && ps[i] == p;
      assert qs[i] in qs && SameIdentity(ps[i], qs[i]);
    }
  }

  lemma SamePairsKeepShape(ps: seq<Pair>, qs: seq<Pair>, locals: seq<Candidate>, remotes: seq<Candidate>)
    requires SamePairs(ps, qs)
    ensures Keys(qs) == Keys(ps) && Ids(qs) == Ids(ps) && (Distinct(ps) ==> Distinct(qs))
    ensures Descending(ps) ==> Descending(qs)
    ensures AllFormed(ps, locals, remotes) ==> AllFormed(qs, locals, remotes)
    ensures AllKeys(ps, locals, remotes) ==> AllKeys(qs, locals, remotes)
  {
    SamePairsSameKeys(ps, qs);
    SamePairsSameKeys(qs, ps);
    if AllFormed(ps, locals, remotes) {
      forall q | q in qs ensures FormedFrom(q, locals, remotes) {
        var i :| 0 <= i < |qs| && qs[i] == q;
        assert FormedFrom(ps[i], locals, remotes);
      }
    }
  }

  lemma IdIsUnique(ps: seq<Pair>, i: nat, j: nat)
    requires Distinct(ps) && i < |ps| && j < |ps| && ps[i].id == ps[j].id
    ensures i == j
  {
    if i != j {
      var k := if i < j then j else i;
      var rest := ps[..k] + ps[k + 1..];
      assert forall p :: p in ps <==> p in rest || p == ps[k];
      assert ps[if i < j then i else j] in rest;
      assert Ids(ps) == Ids(rest);
      CardinalityAtMost(rest);
    }
  }

  /** A pair changes only its progress, and the entries that named it go with the change. */
  lemma ChangePairKeepsCore(a: Agent, b: Agent, i: nat)
    requires Core(a) && i < |a.pairs| && |b.pairs| == |a.pairs|
    requires b.pairs == a.pairs[i := b.pairs[i]] && SameIdentity(a.pairs[i], b.pairs[i])
    requires b == a.(pairs := b.pairs, pending := b.pending, nextTid := b.nextTid, sent := b.sent, current := b.current)
    requires a.nextTid <= b.nextTid && (forall q :: q in a.sent ==> q in b.sent)
    requires PairOk(b, b.pairs[i])
    requires a.success ==> b.pending == map[]
    requires forall key :: key in b.pending ==>
      && key.tid < b.nextTid && b.pending[key] < b.nextPair
      && (b.pending[key] == b.pairs[i].id ==> b.pairs[i].socket == Some(key.socket) && b.pairs[i].tid == Some(key.tid))
      && (b.pending[key] != b.pairs[i].id ==> key in a.pending && a.pending[key] == b.pending[key])
    ensures Core(b)
  {
    hide Distinct, Descending, AllFormed, AllKeys, CandidatesDistinct;
    SamePairsKeepShape(a.pairs, b.pairs, a.locals, a.remotes);
    forall p | p in b.pairs ensures PairOk(b, p) {
      var j :| 0 <= j < |b.pairs| && b.pairs[j] == p;
      if j != i {
        assert a.pairs[j] in a.pairs;
      }
    }
    forall key, p | key in b.pending && p in b.pairs && p.id == b.pending[key]
      ensures p.socket == Some(key.socket) && p.tid == Some(key.tid)
    {
      var j :| 0 <= j < |b.pairs| && b.pairs[j] == p;
      if j != i {
        assert a.pairs[j] in a.pairs;
        if p.id == b.pairs[i].id {
          IdIsUnique(b.pairs, i, j);
        }
      }
    }
  }

  // ---------------------------------------------------------------- requests

  lemma ForgetKeepsCore(a: Agent, i: nat)
    requires Core(a) && i < |a.pairs|
    ensures var b := ForgetRequest(a, i);
      && Core(b) && b.pairs == a.pairs[i := a.pairs[i].(tid := None)]
      && b == a.(pairs := b.pairs, pending := b.pending)
      && (forall key :: key in b.pending ==> b.pending[key] != a.pairs[i].id)
  {
    var b := ForgetRequest(a, i);
    assert PairOk(a, a.pairs[i]);
    assert b.pairs == a.pairs[i := a.pairs[i].(tid := None)];
    forall key | key in b.pending ensures b.pending[key] != a.pairs[i].id {
      assert key in a.pending && a.pairs[i] in a.pairs;
    }
    ChangePairKeepsCore(a, b, i);
  }

  lemma FileKeepsCore(b: Agent, i: nat, env: Env)
    requires Core(b) && !b.success && i < |b.pairs| && b.pairs[i].socket.Some? && b.pairs[i].tid.None?
    requires forall key :: key in b.pending ==> b.pending[key] != b.pairs[i].id
    ensures var (c, ok) := FileRequest(b, i, env);
      && Core(c) && c.pairs == b.pairs[i := b.pairs[i].(tid := c.pairs[i].tid)]
      && c == b.(pairs := c.pairs, pending := c.pending, nextTid := c.nextTid, sent := c.sent)
      && (forall q :: q in b.sent ==> q in c.sent)
      && |c.sent| == |b.sent| + if ok then 1 else 0
  {
    assert PairOk(b, b.pairs[i]);
    ChangePairKeepsCore(b, FileRequest(b, i, env).0, i);
  }

  /** A new request is filed under its own fresh id and nothing else of the pair changes. */
  lemma SendKeepsCore(a: Agent, i: nat, env: Env)
    requires Core(a) && !a.success && i < |a.pairs|
    ensures var (b, ok) := SendBindingRequest(a, i, env);
      && Core(b) && b.pairs == a.pairs[i := a.pairs[i].(tid := b.pairs[i].tid)]
      && b == a.(pairs := b.pairs, pending := b.pending, nextTid := b.nextTid, sent := b.sent)
      && (forall q :: q in a.sent ==> q in b.sent)
      && |b.sent| == |a.sent| + if ok then 1 else 0
  {
    hide Core;
    if a.pairs[i].socket.Some? {
      ForgetKeepsCore(a, i);
      FileKeepsCore(ForgetRequest(a, i), i, env);
    }
  }

  lemma SetProgressKeepsCore(a: Agent, i: nat, p: Pair)
    requires Core(a) && i < |a.pairs|
    requires p == a.pairs[i].(state := p.state, retryCount := p.retryCount, lastSent := p.lastSent)
    requires p.retryCount <= MAX_RETRIES
    requires (a.success ==> p.state != InProgress) && (!a.success ==> p.state != Succeeded)
    ensures Core(a.(pairs := a.pairs[i := p]))
  {
    assert PairOk(a, a.pairs[i]);
    var b := a.(pairs := a.pairs[i := p]);
    forall key | key in b.pending && b.pending[key] == p.id
      ensures p.socket == Some(key.socket) && p.tid == Some(key.tid)
    {
      assert a.pairs[i] in a.pairs;
    }
    ChangePairKeepsCore(a, b, i);
  }

  // ---------------------------------------------------------------- batches

  /** What checks leave alone: candidates, selection, callbacks, pair objects and requests already sent. */
  ghost predicate Kept(a: Agent, b: Agent) {
    && b.locals == a.locals && b.remotes == a.remotes && b.started == a.started && b.success == a.success
    && b.activeSocket == a.activeSocket && b.activeRemote == a.activeRemote && b.nextPair == a.nextPair
    && b.notices == a.notices && SamePairs(a.pairs, b.pairs)
    && (forall q :: q in a.sent ==> q in b.sent)
  }

  /** Exactly one pair changed its progress. */
  ghost predicate OnlyAt(a: Agent, b: Agent, i: nat) {
    |a.pairs| == |b.pairs| && forall j :: 0 <= j < |a.pairs| && j != i ==> b.pairs[j] == a.pairs[j]
  }

  lemma CoreIgnores(a: Agent, b: Agent)
    requires Core(a) && b == a.(current := b.current, notices := b.notices)
    ensures Core(b)
  {
  }

  lemma EngageKeeps(a: Agent, i: nat, now: int)
    requires Core(a) && !a.success && i < |a.pairs|
    ensures var b := a.(pairs := a.pairs[i := Engage(a.pairs[i], now)]);
      Core(b) && Kept(a, b) && OnlyAt(a, b, i)
  {
    assert PairOk(a, a.pairs[i]);
    SetProgressKeepsCore(a, i, Engage(a.pairs[i], now));
  }

  lemma SendKeeps(a: Agent, i: nat, env: Env)
    requires Core(a) && !a.success && i < |a.pairs|
    ensures var (b, ok) := SendBindingRequest(a, i, env);
      && Core(b) && Kept(a, b) && OnlyAt(a, b, i) && b.current == a.current
      && b.pairs[i].state == a.pairs[i].state && b.pairs[i].retryCount == a.pairs[i].retryCount
      && |b.sent| == |a.sent| + (if ok then 1 else 0)
  {
    SendKeepsCore(a, i, env);
  }

  lemma MarkKeeps(a: Agent, i: nat, state: PairState)
    requires Core(a) && !a.success && i < |a.pairs| && state != Succeeded
    ensures var b := a.(pairs := a.pairs[i := a.pairs[i].(state := state)]);
      Core(b) && Kept(a, b) && OnlyAt(a, b, i)
  {
    assert PairOk(a, a.pairs[i]);
    SetProgressKeepsCore(a, i, a.pairs[i].(state := state));
  }

  lemma StartPairKeeps(a: Agent, i: nat, now: int, env: Env)
    requires Core(a) && !a.success && i < |a.pairs|
    ensures var (b, ok) := StartPair(a, i, now, env);
      && Core(b) && Kept(a, b) && OnlyAt(a, b, i) && b.current == i + 1
      && b.pairs[i].state == (if ok then InProgress else Failed)
      && b.pairs[i].retryCount == Engage(a.pairs[i], now).retryCount
      && |b.sent| == |a.sent| + (if ok then 1 else 0)
  {
    EngageKeeps(a, i, now);
    var engaged := a.(pairs := a.pairs[i := Engage(a.pairs[i], now)]);
    SendKeeps(engaged, i, env);
    var (b, ok) := SendBindingRequest(engaged, i, env);
    KeptTransitive(a, engaged, b);
    var c := if ok then b else b.(pairs := b.pairs[i := b.pairs[i].(state := Failed)]);
    if !ok {
      MarkKeeps(b, i, Failed);
      KeptTransitive(a, b, c);
    }
    CoreIgnores(c, c.(current := i + 1));
  }

  lemma KeptTransitive(a: Agent, b: Agent, c: Agent)
    requires Kept(a, b) && Kept(b, c)
    ensures Kept(a, c)
  {
  }

  /** Mid-batch: everything before `i` has had its turn. */
  ghost predicate BatchInv(a: Agent, i: nat, count: nat) {
    && Core(a) && !a.success && NoneWaitingBefore(a, i) && a.current <= i
    && (count > 0 ==> HasState(a, InProgress))
  }

  lemma StartPairKeepsBatch(a: Agent, i: nat, count: nat, now: int, env: Env)
    requires BatchInv(a, i, count) && i < |a.pairs| && a.pairs[i].state != InProgress
    ensures var (b, ok) := StartPair(a, i, now, env);
      && Kept(a, b) && b.current == i + 1
      && BatchInv(b, i + 1, if ok then count + 1 else count)
  {
    StartPairKeeps(a, i, now, env);
    var (b, ok) := StartPair(a, i, now, env);
    StartedStillInProgress(a, b, i, count, ok);
  }

  /** A batch leaves no pair waiting behind it, and a pair in progress if it started one. */
  lemma {:induction false} BatchKeeps(a: Agent, i: nat, count: nat, max: nat, now: int, env: Env)
    requires BatchInv(a, i, count)
    ensures var (b, n) := BatchFrom(a, i, count, max, now, env);
      && Kept(a, b) && BatchInv(b, b.current, n)
      && (n < max ==> NoneWaitingBefore(b, |b.pairs|))
    decreases |a.pairs| - i
  {
    hide Core;
    if i < |a.pairs| && count < max {
      if a.pairs[i].state == Waiting || a.pairs[i].state == Failed {
        StartPairKeepsBatch(a, i, count, now, env);
        var (b, ok) := StartPair(a, i, now, env);
        BatchKeeps(b, i + 1, if ok then count + 1 else count, max, now, env);
        KeptTransitive(a, b, BatchFrom(b, i + 1, if ok then count + 1 else count, max, now, env).0);
      } else {
        BatchKeeps(a, i + 1, count, max, now, env);
      }
    }
  }

  lemma StartedStillInProgress(a: Agent, b: Agent, i: nat, count: nat, ok: bool)
    requires OnlyAt(a, b, i) && i < |a.pairs| && a.pairs[i].state != InProgress
    requires ok ==> b.pairs[i].state == InProgress
    requires count > 0 ==> HasState(a, InProgress)
    ensures ok || count > 0 ==> HasState(b, InProgress)
  {
  }

  /** After a batch the checks cannot stall, and exhaustion is reported only with no pair waiting. */
  lemma StartNextBatchKeeps(a: Agent, max: nat, now: int, env: Env)
    requires Core(a) && !a.success && NoneWaitingBefore(a, a.current) && max > 0 && NoticesOk(a)
    ensures var b := StartNextBatch(a, max, now, env);
      && Inv(b)
      && Kept(a, b.(notices := a.notices))
      && (b.notices == a.notices || (b.notices == a.notices + [Exhausted] && !HasState(b, Waiting)))
  {
    hide Core;
    BatchKeeps(a, a.current, 0, max, now, env);
    var (b, n) := BatchFrom(a, a.current, 0, max, now, env);
    CoreIgnores(b, StartNextBatch(a, max, now, env));
  }

  // ---------------------------------------------------------------- timeouts

  lemma ForgetShape(a: Agent, i: nat)
    requires i < |a.pairs|
    ensures var b := ForgetRequest(a, i);
      && Kept(a, b) && OnlyAt(a, b, i) && b.current == a.current && b.sent == a.sent
      && b.pairs[i].state == a.pairs[i].state && b.pairs[i].retryCount == a.pairs[i].retryCount
  {
  }

  lemma FileShape(a: Agent, i: nat, env: Env)
    requires i < |a.pairs| && a.pairs[i].socket.Some?
    ensures var (b, ok) := FileRequest(a, i, env);
      && Kept(a, b) && OnlyAt(a, b, i) && b.current == a.current
      && b.pairs[i].state == a.pairs[i].state && b.pairs[i].retryCount == a.pairs[i].retryCount
      && |b.sent| == |a.sent| + (if ok then 1 else 0)
  {
  }

  lemma SendShape(a: Agent, i: nat, env: Env)
    requires i < |a.pairs|
    ensures var (b, ok) := SendBindingRequest(a, i, env);
      && Kept(a, b) && OnlyAt(a, b, i) && b.current == a.current
      && b.pairs[i].state == a.pairs[i].state && b.pairs[i].retryCount == a.pairs[i].retryCount
      && |b.sent| == |a.sent| + (if ok then 1 else 0)
  {
    hide FileRequest, ForgetRequest;
    if a.pairs[i].socket.Some? {
      var b := ForgetRequest(a, i);
      ForgetShape(a, i);
      FileShape(b, i, env);
      KeptTransitive(a, b, FileRequest(b, i, env).0);
    }
  }

  lemma RetryShape(a: Agent, i: nat, now: int, env: Env)
    requires i < |a.pairs|
    ensures var b := Retry(a, i, now, env);
      && Kept(a, b) && OnlyAt(a, b, i) && b.current == a.current
      && b.pairs[i].state == a.pairs[i].state && b.pairs[i].retryCount == a.pairs[i].retryCount + 1
      && |b.sent| <= |a.sent| + 1
  {
    var b := BumpRetry(a, i, now);
    assert Kept(a, b) && OnlyAt(a, b, i);
    ForgetShape(b, i);
    var c := ForgetRequest(b, i);
    KeptTransitive(a, b, c);
    SendShape(c, i, env);
    KeptTransitive(a, c, SendBindingRequest(c, i, env).0);
  }

  lemma BumpKeepsCore(a: Agent, i: nat, now: int)
    requires Core(a) && i < |a.pairs| && a.pairs[i].retryCount < MAX_RETRIES
    ensures Core(BumpRetry(a, i, now))
  {
    assert PairOk(a, a.pairs[i]);
    SetProgressKeepsCore(a, i, BumpRetry(a, i, now).pairs[i]);
  }

  lemma ForgottenKeepsCore(a: Agent, i: nat)
    requires Core(a) && i < |a.pairs|
    ensures Core(ForgetRequest(a, i))
  {
    ForgetKeepsCore(a, i);
  }

  lemma RetryKeepsCore(a: Agent, i: nat, now: int, env: Env)
    requires Core(a) && !a.success && i < |a.pairs| && a.pairs[i].retryCount < MAX_RETRIES
    ensures Core(Retry(a, i, now, env))
  {
    BumpKeepsCore(a, i, now);
    ForgottenKeepsCore(BumpRetry(a, i, now), i);
    SendKeeps(ForgetRequest(BumpRetry(a, i, now), i), i, env);
  }

  /** The sweep touches only pairs being checked; without giving one up it changes no state. */
  ghost predicate SweptTo(a: Agent, b: Agent, gaveUp: bool) {
    && Kept(a, b) && b.current == a.current
    && (forall j :: 0 <= j < |a.pairs| ==> (b.pairs[j].state == Waiting <==> a.pairs[j].state == Waiting))
    && (!gaveUp ==> forall j :: 0 <= j < |a.pairs| ==> b.pairs[j].state == a.pairs[j].state)
  }

  lemma SweepOneSweeps(a: Agent, i: nat, now: int, env: Env)
    requires i < |a.pairs|
    ensures SweptTo(a, SweepOne(a, i, now, env).0, SweepOne(a, i, now, env).1)
  {
    RetryShape(a, i, now, env);
  }

  lemma SweptTransitive(a: Agent, b: Agent, c: Agent, first: bool, second: bool)
    requires SweptTo(a, b, first) && SweptTo(b, c, second)
    ensures SweptTo(a, c, first || second)
  {
  }

  lemma {:induction false} TimeoutsSweep(a: Agent, b: Agent, i: nat, gaveUp: bool, now: int, env: Env)
    requires SweptTo(a, b, gaveUp)
    ensures SweptTo(a, TimeoutsFrom(b, i, gaveUp, now, env).0, TimeoutsFrom(b, i, gaveUp, now, env).1)
    decreases |b.pairs| - i
  {
    if i < |b.pairs| {
      SweepOneSweeps(b, i, now, env);
      var (c, gaveUpNow) := SweepOne(b, i, now, env);
      SweptTransitive(a, b, c, gaveUp, gaveUpNow);
      TimeoutsSweep(a, c, i + 1, gaveUp || gaveUpNow, now, env);
    }
  }

  lemma SweepOneKeepsCore(a: Agent, i: nat, now: int, env: Env)
    requires Core(a) && !a.success && i < |a.pairs|
    ensures Core(SweepOne(a, i, now, env).0)
  {
    if TimedOut(a.pairs[i], now) {
      if a.pairs[i].retryCount < MAX_RETRIES {
        RetryKeepsCore(a, i, now, env);
      } else {
        MarkKeeps(a, i, Failed);
      }
    }
  }

  lemma {:induction false} TimeoutsKeepCore(a: Agent, i: nat, gaveUp: bool, now: int, env: Env)
    requires Core(a) && !a.success
    ensures Core(TimeoutsFrom(a, i, gaveUp, now, env).0)
    decreases |a.pairs| - i
  {
    hide Core, SweepOne;
    if i < |a.pairs| {
      SweepOneKeepsCore(a, i, now, env);
      SweepOneSweeps(a, i, now, env);
      var (b, gaveUpNow) := SweepOne(a, i, now, env);
      TimeoutsKeepCore(b, i + 1, gaveUp || gaveUpNow, now, env);
    }
  }

  lemma SweptStillProgresses(a: Agent, b: Agent)
    requires SweptTo(a, b, false) && NeverStalls(a)
    ensures NeverStalls(b)
  {
  }

  /** What a call may report: nothing new, or exhaustion with no pair waiting. */
  ghost predicate ReportsSoundly(a: Agent, b: Agent) {
    b.notices == a.notices || (b.notices == a.notices + [Exhausted] && !HasState(b, Waiting))
  }

  lemma GivenUpKeepsInv(a: Agent, b: Agent, now: int, env: Env)
    requires SweptTo(a, b, true) && Core(b) && !b.success
    requires NoneWaitingBefore(a, a.current) && NoticesOk(a)
    ensures var c := StartNextBatch(b, 2, now, env);
      Inv(c) && Kept(a, c.(notices := a.notices)) && ReportsSoundly(a, c)
  {
    StartNextBatchKeeps(b, 2, now, env);
    KeptTransitive(a, b, StartNextBatch(b, 2, now, env).(notices := b.notices));
  }

  lemma ProcessKeepsInv(a: Agent, now: int, env: Env)
    requires Inv(a)
    ensures var b := Process(a, now, env);
      Inv(b) && Kept(a, b.(notices := a.notices)) && ReportsSoundly(a, b)
  {
    if a.started && !a.success {
      TimeoutsSweep(a, a, 0, false, now, env);
      TimeoutsKeepCore(a, 0, false, now, env);
      var (b, gaveUp) := TimeoutsFrom(a, 0, false, now, env);
      if gaveUp {
        GivenUpKeepsInv(a, b, now, env);
      } else {
        SweptStillProgresses(a, b);
      }
    }
  }

  // ---------------------------------------------------------------- forming pairs

  lemma {:induction false} PairRowIds(ps: seq<Pair>, l: Candidate, remotes: seq<Candidate>, base: nat)
    ensures forall p :: p in PairRow(ps, l, remotes, base) ==> p in ps || p.id >= base
  {
    if remotes != [] {
      PairRowIds(ps, l, remotes[..|remotes| - 1], base);
    }
  }

  /** New pairs get identities from the base on. */
  lemma {:induction false} PairUpIds(ps: seq<Pair>, locals: seq<Candidate>, remotes: seq<Candidate>, base: nat)
    ensures forall p :: p in PairUp(ps, locals, remotes, base) ==> p in ps || p.id >= base
  {
    if locals != [] {
      PairUpIds(ps, locals[..|locals| - 1], remotes, base);
      PairRowIds(PairUp(ps, locals[..|locals| - 1], remotes, base), locals[|locals| - 1], remotes, base);
    }
  }

  /** What forming or adding pairs must establish about the new list. */
  lemma NewPairsKeepCore(a: Agent, b: Agent)
    requires (forall p :: p in a.pairs ==> PairOk(a, p)) && PendingOk(a)
    requires CandidatesDistinct(a.locals) && CandidatesDistinct(a.remotes) && a.locals != [] && a.remotes != []
    requires !a.success && b.started && a.nextPair <= b.nextPair
    requires b == a.(pairs := b.pairs, current := b.current, nextPair := b.nextPair, started := b.started)
    requires Distinct(b.pairs) && Descending(b.pairs) && IdsBelow(b.pairs, b.nextPair)
    requires AllFormed(b.pairs, b.locals, b.remotes) && AllKeys(b.pairs, b.locals, b.remotes)
    requires forall p :: p in b.pairs ==>
      p in a.pairs || (p.state == Waiting && p.tid == None && p.retryCount == 0 && p.id >= a.nextPair)
    ensures Core(b)
  {
    forall p | p in b.pairs ensures PairOk(b, p) {
      if p in a.pairs {
        assert PairOk(a, p);
      }
    }
    forall key, p | key in b.pending && p in b.pairs && p.id == b.pending[key]
      ensures p.socket == Some(key.socket) && p.tid == Some(key.tid)
    {
      assert p in a.pairs;
    }
  }

  lemma FormedPairs(a: Agent, env: Env)
    requires Sorts(env)
    ensures var b := FormPairs(a, env);
      && Distinct(b.pairs) && Descending(b.pairs) && IdsBelow(b.pairs, b.nextPair)
      && AllFormed(b.pairs, b.locals, b.remotes) && AllKeys(b.pairs, b.locals, b.remotes)
      && (forall p :: p in b.pairs ==>
            p.state == Waiting && p.tid == None && p.retryCount == 0 && p.id >= a.nextPair)
  {
    var formed := PairUp([], a.locals, a.remotes, a.nextPair);
    assert Keys([]) == {} && Ids([]) == {};
    PairUpAdds([], a.locals, a.remotes, a.nextPair);
    PairUpIds([], a.locals, a.remotes, a.nextPair);
    assert SortOf(env.sort(formed), formed);
    PermutationKeeps(formed, env.sort(formed));
  }

  lemma AddedPairs(a: Agent)
    requires Distinct(a.pairs) && IdsBelow(a.pairs, a.nextPair) && AllFormed(a.pairs, a.locals, a.remotes)
    requires Descending(a.pairs)
    ensures var (b, added) := AddNewPairs(a);
      && Distinct(b.pairs) && Descending(b.pairs) && IdsBelow(b.pairs, b.nextPair)
      && AllFormed(b.pairs, b.locals, b.remotes) && AllKeys(b.pairs, b.locals, b.remotes)
      && (forall p :: p in a.pairs ==> p in b.pairs)
      && (forall p :: p in b.pairs ==>
            p in a.pairs || (p.state == Waiting && p.tid == None && p.retryCount == 0 && p.id >= a.nextPair))
      && (!added ==> b == a)
  {
    var grown := PairUp(a.pairs, a.locals, a.remotes, a.nextPair);
    PairUpAdds(a.pairs, a.locals, a.remotes, a.nextPair);
    PairUpIds(a.pairs, a.locals, a.remotes, a.nextPair);
    StableSortSorts(grown);
    PermutationKeeps(grown, StableSort(grown));
    if |grown| == |a.pairs| {
      assert grown == a.pairs;
    }
    assert forall p :: p in a.pairs ==> p in grown;
  }

  // ---------------------------------------------------------------- calls that form pairs

  lemma StartKeepsInv(a: Agent, now: int, env: Env)
    requires Inv(a) && Sorts(env)
    ensures var (b, ok) := StartConnectivityChecks(a, now, env);
      && Inv(b) && ok == (a.locals != [] && a.remotes != [])
      && (forall i :: 0 <= i < |b.notices| ==> b.notices[i] == Exhausted)
  {
    assert Core(a);
    hide Core, Inv, FormPairs;
    var reset := a.(success := false, current := 0, sent := [], notices := []);
    if a.locals != [] && a.remotes != [] {
      FormedKeepsCore(a, reset, env);
      StartNextBatchKeeps(FormPairs(reset, env).(started := true), 4, now, env);
    } else {
      IdleReset(a, reset);
    }
  }

  lemma FormedKeepsCore(a: Agent, reset: Agent, env: Env)
    requires Core(a) && Sorts(env) && a.locals != [] && a.remotes != []
    requires reset == a.(success := false, current := 0, sent := [], notices := [])
    ensures var b := FormPairs(reset, env).(started := true);
      Core(b) && !b.success && NoneWaitingBefore(b, b.current) && NoticesOk(b) && b.notices == []
  {
    hide Core, Distinct, Descending, IdsBelow, AllFormed, AllKeys;
    FormedPairs(reset, env);
    ResetKeepsCore(a, FormPairs(reset, env).(started := true));
  }

  lemma IdleReset(a: Agent, b: Agent)
    requires Inv(a) && (a.locals == [] || a.remotes == [])
    requires b == a.(success := false, current := 0, sent := [], notices := [])
    ensures Inv(b)
  {
    assert a.pairs == [];
  }

  /** The pairs of earlier checks are gone, so what was pending for them matches nothing any more. */
  lemma ResetKeepsCore(a: Agent, b: Agent)
    requires Core(a) && a.locals != [] && a.remotes != []
    requires b == a.(pairs := b.pairs, success := false, current := 0, sent := [], notices := [],
                     nextPair := b.nextPair, started := true)
    requires a.nextPair <= b.nextPair
    requires Distinct(b.pairs) && Descending(b.pairs) && IdsBelow(b.pairs, b.nextPair)
    requires AllFormed(b.pairs, b.locals, b.remotes) && AllKeys(b.pairs, b.locals, b.remotes)
    requires forall p :: p in b.pairs ==>
      p.state == Waiting && p.tid == None && p.retryCount == 0 && p.id >= a.nextPair
    ensures Core(b)
  {
    assert forall p :: p in b.pairs ==> PairOk(b, p);
    forall key, p | key in b.pending && p in b.pairs ensures p.id != b.pending[key] {
      assert a.pending[key] < a.nextPair;
    }
  }

  /** What a longer candidate list leaves of the core. */
  lemma GrownParts(a: Agent, b: Agent)
    requires Core(a) && b == a.(locals := b.locals, remotes := b.remotes)
    requires CandidatesDistinct(b.locals) && CandidatesDistinct(b.remotes)
    requires (forall c :: c in a.locals ==> c in b.locals) && (forall c :: c in a.remotes ==> c in b.remotes)
    ensures Distinct(b.pairs) && IdsBelow(b.pairs, b.nextPair) && Descending(b.pairs)
    ensures AllFormed(b.pairs, b.locals, b.remotes) && PendingOk(b) && forall p :: p in b.pairs ==> PairOk(b, p)
    ensures b.started ==> b.locals != [] && b.remotes != []
    ensures !b.started || b.success ==> Core(b)
  {
    assert AllFormed(b.pairs, b.locals, b.remotes) by {
      forall p | p in b.pairs ensures FormedFrom(p, b.locals, b.remotes) {
        assert FormedFrom(p, a.locals, a.remotes);
      }
    }
    assert forall p :: p in b.pairs ==> PairOk(a, p) && PairOk(b, p);
    if a.started {
      assert a.locals[0] in b.locals && a.remotes[0] in b.remotes;
    }
  }

  /** A candidate list with one more entry, everything else as it was. */
  lemma GrownKeepsInv(a: Agent, b: Agent, now: int, env: Env)
    requires Inv(a)
    requires b == a.(locals := b.locals, remotes := b.remotes)
    requires CandidatesDistinct(b.locals) && CandidatesDistinct(b.remotes)
    requires (forall c :: c in a.locals ==> c in b.locals) && (forall c :: c in a.remotes ==> c in b.remotes)
    ensures var c := PairUpAndCheck(b, now, env);
      && Inv(c)
      && (b.started && !b.success ==> AllKeys(c.pairs, c.locals, c.remotes) && ReportsSoundly(a, c))
  {
    GrownParts(a, b);
    if b.started && !b.success {
      GrownStartedKeepsInv(a, b, now, env);
    }
  }

  lemma GrownStartedKeepsInv(a: Agent, b: Agent, now: int, env: Env)
    requires NoticesOk(a) && NeverStalls(a) && NoneWaitingBefore(a, a.current)
    requires b == a.(locals := b.locals, remotes := b.remotes) && b.started && !b.success
    requires CandidatesDistinct(b.locals) && CandidatesDistinct(b.remotes) && b.locals != [] && b.remotes != []
    requires Distinct(b.pairs) && IdsBelow(b.pairs, b.nextPair) && Descending(b.pairs)
    requires AllFormed(b.pairs, b.locals, b.remotes) && PendingOk(b) && forall p :: p in b.pairs ==> PairOk(b, p)
    ensures var c := PairUpAndCheck(b, now, env);
      Inv(c) && AllKeys(c.pairs, c.locals, c.remotes) && ReportsSoundly(a, c)
  {
    hide PairOk, PendingOk, Distinct, Descending, AllFormed, AllKeys;
    AddedPairs(b);
    var (c, added) := AddNewPairs(b);
    NewPairsKeepCore(b, c);
    if added {
      StartNextBatchKeeps(c, 2, now, env);
    }
  }

  lemma AddLocalKeepsInv(a: Agent, c: Candidate, now: int, env: Env)
    requires Inv(a)
    ensures Inv(AddLocalCandidate(a, c, now, env))
  {
    if !Known(a.locals, c) {
      GrownKeepsInv(a, a.(locals := a.locals + [c]), now, env);
    }
  }

  lemma AddRemoteKeepsInv(a: Agent, c: Candidate, now: int, env: Env)
    requires Inv(a)
    ensures Inv(AddRemoteCandidate(a, c, now, env))
  {
    if !Known(a.remotes, c) {
      GrownKeepsInv(a, a.(remotes := a.remotes + [c]), now, env);
    }
  }

  // ---------------------------------------------------------------- responses and selection

  lemma SettledNoneWaiting(a: Agent, socket: Option<nat>, remote: Candidate)
    requires NoneWaitingBefore(a, a.current)
    ensures var b := Select(a, socket, remote); NoneWaitingBefore(b, b.current)
  {
  }

  lemma SelectKeepsCore(a: Agent, socket: Option<nat>, remote: Candidate)
    requires Core(a) && !a.success
    ensures var b := Select(a, socket, remote);
      Core(b) && NoneWaitingBefore(a, a.current) ==> NoneWaitingBefore(b, b.current)
    ensures Core(Select(a, socket, remote))
  {
    hide Distinct, Descending, AllFormed, AllKeys, NoneWaitingBefore, CandidatesDistinct;
    var b := Select(a, socket, remote);
    if NoneWaitingBefore(a, a.current) {
      SettledNoneWaiting(a, socket, remote);
    }
    assert forall i :: 0 <= i < |a.pairs| ==> SameIdentity(a.pairs[i], b.pairs[i]);
    SamePairsKeepShape(a.pairs, b.pairs, a.locals, a.remotes);
    forall p | p in b.pairs ensures PairOk(b, p) {
      var i :| 0 <= i < |b.pairs| && b.pairs[i] == p;
      assert PairOk(a, a.pairs[i]);
    }
  }

  lemma ConsumeKeepsCore(a: Agent, key: PendingKey, i: nat)
    requires Core(a) && key in a.pending && i < |a.pairs| && a.pairs[i].id == a.pending[key]
    ensures var b := a.(pending := a.pending - {key}, pairs := a.pairs[i := a.pairs[i].(tid := None)]);
      Core(b)
  {
    assert a.pairs[i] in a.pairs;
    ForgetKeepsCore(a, i);
    assert ForgetRequest(a, i) == a.(pending := a.pending - {key}, pairs := a.pairs[i := a.pairs[i].(tid := None)]);
  }

  lemma DropPendingKeepsCore(a: Agent, key: PendingKey)
    requires Core(a)
    ensures Core(a.(pending := a.pending - {key}))
  {
  }

  lemma ConsumeKeepsStates(a: Agent, i: nat, pending: map<PendingKey, nat>)
    requires i < |a.pairs| && NeverStalls(a) && NoneWaitingBefore(a, a.current)
    ensures var b := a.(pending := pending, pairs := a.pairs[i := a.pairs[i].(tid := None)]);
      NeverStalls(b) && NoneWaitingBefore(b, b.current)
  {
    var b := a.(pending := pending, pairs := a.pairs[i := a.pairs[i].(tid := None)]);
    if HasState(b, Waiting) && b.started && !b.success {
      var j :| 0 <= j < |b.pairs| && b.pairs[j].state == Waiting;
      assert a.pairs[j].state == Waiting;
      var k :| 0 <= k < |a.pairs| && a.pairs[k].state == InProgress;
      assert b.pairs[k].state == InProgress;
    }
  }

  lemma ResponseKeepsInv(a: Agent, socket: nat, tid: nat, found: bool)
    requires Inv(a)
    ensures Inv(HandleResponse(a, socket, tid, found))
  {
    var key := PendingKey(socket, tid);
    if key in a.pending {
      var i := IndexOf(a.pairs, a.pending[key]);
      if i == |a.pairs| {
        DropPendingKeepsCore(a, key);
      } else {
        ConsumeKeepsCore(a, key, i);
        ConsumeKeepsStates(a, i, a.pending - {key});
        var p := a.pairs[i];
        var c := a.(pending := a.pending - {key}, pairs := a.pairs[i := p.(tid := None)]);
        if found && !a.success {
          SelectKeepsCore(c, p.socket, p.remote);
          var d := Select(c, p.socket, p.remote);
          CoreIgnores(d, d.(notices := c.notices + [Connected(p.socket, p.remote)]));
        }
      }
    }
  }

  lemma SetSucceededKeepsInv(a: Agent, socket: Option<nat>, remote: Candidate)
    requires Inv(a)
    ensures Inv(SetPairSucceeded(a, socket, remote))
  {
    if !a.success {
      SelectKeepsCore(a, socket, remote);
    }
  }

  lemma CancelKeepsInv(a: Agent)
    requires Inv(a)
    ensures Inv(Cancel(a))
  {
  }
}
