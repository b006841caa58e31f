/** The connectivity checks of one agent: batches, retries, matching of responses, selection of a path. */
module IceChecks {
  import opened Wrappers
  import opened IcePairs

  const MAX_RETRIES: nat := 3
  const RETRY_TIMEOUT_MS: int := 2000

  datatype PendingKey = PendingKey(socket: nat, tid: nat)

  datatype Request = Request(socket: nat, remote: Candidate, tid: nat)

  datatype Notice = Connected(socket: Option<nat>, remote: Candidate) | Exhausted

  /**
   * `sent` and `notices` record the requests and callbacks since checks were last started;
   * `nextPair` and `nextTid` number the pair objects and transaction ids ever made.
   */
  datatype Agent = Agent(
    locals: seq<Candidate>, remotes: seq<Candidate>, pairs: seq<Pair>, pending: map<PendingKey, nat>,
    started: bool, success: bool, activeSocket: Option<nat>, activeRemote: Option<Candidate>, current: nat,
    nextPair: nat, nextTid: nat, sent: seq<Request>, notices: seq<Notice>)

  /** What the socket answers to the n-th request, and what the sort makes of a list of pairs. */
  datatype Env = Env(sendOk: nat -> bool, sort: seq<Pair> -> seq<Pair>)

  ghost predicate Sorts(env: Env) {
    forall ps: seq<Pair> :: SortOf(env.sort(ps), ps)
  }

  function NewAgent(): Agent {
    Agent([], [], [], map[], false, false, None, None, 0, 0, 0, [], [])
  }

  // ---------------------------------------------------------------- requests, batches and timeouts

  function ForgetRequest(a: Agent, i: nat): Agent
    requires i < |a.pairs|
  {
    var p := a.pairs[i];
    if p.tid.Some? then
      a.(pending := if p.socket.Some? then a.pending - {PendingKey(p.socket.value, p.tid.value)} else a.pending,
         pairs := a.pairs[i := p.(tid := None)])
    else a
  }

  /** A request under a new transaction id, sent and entered as pending. */
  function FileRequest(b: Agent, i: nat, env: Env): (Agent, bool)
    requires i < |b.pairs| && b.pairs[i].socket.Some?
  {
    var tid := b.nextTid;
    var c := b.(nextTid := tid + 1);
    var p := c.pairs[i];
    if p.remote.addr.None? || !env.sendOk(tid) then (c, false)
    else
      (c.(pending := c.pending[PendingKey(p.socket.value, tid) := p.id],
          pairs := c.pairs[i := p.(tid := Some(tid))],
          sent := c.sent + [Request(p.socket.value, p.remote, tid)]), true)
  }

  function SendBindingRequest(a: Agent, i: nat, env: Env): (Agent, bool)
    requires i < |a.pairs|
  {
    if a.pairs[i].socket.None? then (a, false) else FileRequest(ForgetRequest(a, i), i, env)
  }

  /** Starting one pair of a batch: the state it gets before its request is sent. */
  function Engage(p: Pair, now: int): Pair {
    p.(retryCount := if p.state == Failed then 0 else p.retryCount, state := InProgress, lastSent := now)
  }

  function StartPair(a: Agent, i: nat, now: int, env: Env): (Agent, bool)
    requires i < |a.pairs|
  {
    var (b, ok) := SendBindingRequest(a.(pairs := a.pairs[i := Engage(a.pairs[i], now)]), i, env);
    (b.(pairs := if ok || i >= |b.pairs| then b.pairs else b.pairs[i := b.pairs[i].(state := Failed)],
        current := i + 1), ok)
  }

  function BatchFrom(a: Agent, i: nat, count: nat, max: nat, now: int, env: Env): (r: (Agent, nat))
    ensures |r.0.pairs| == |a.pairs|
    decreases |a.pairs| - i
  {
    if i >= |a.pairs| || count >= max then (a, count)
    else if a.pairs[i].state == Waiting || a.pairs[i].state == Failed then
      var (b, ok) := StartPair(a, i, now, env);
      BatchFrom(b, i + 1, if ok then count + 1 else count, max, now, env)
    else BatchFrom(a, i + 1, count, max, now, env)
  }

  function StartNextBatch(a: Agent, max: nat, now: int, env: Env): Agent {
    var (b, count) := BatchFrom(a, a.current, 0, max, now, env);
    if count == 0 && b.current >= |b.pairs| then b.(notices := b.notices + [Exhausted]) else b
  }

  function BumpRetry(a: Agent, i: nat, now: int): Agent
    requires i < |a.pairs|
  {
    a.(pairs := a.pairs[i := a.pairs[i].(retryCount := a.pairs[i].retryCount + 1, lastSent := now)])
  }

  function Retry(a: Agent, i: nat, now: int, env: Env): (r: Agent)
    requires i < |a.pairs|
    ensures |r.pairs| == |a.pairs|
  {
    SendBindingRequest(ForgetRequest(BumpRetry(a, i, now), i), i, env).0
  }

  function GiveUp(a: Agent, i: nat): Agent
    requires i < |a.pairs|
  {
    a.(pairs := a.pairs[i := a.pairs[i].(state := Failed)])
  }

  predicate TimedOut(p: Pair, now: int) {
    p.state == InProgress && now - p.lastSent > RETRY_TIMEOUT_MS
  }

  /** One pair of the sweep: retry, or give up; true if it is given up. */
  function SweepOne(a: Agent, i: nat, now: int, env: Env): (r: (Agent, bool))
    requires i < |a.pairs|
    ensures |r.0.pairs| == |a.pairs|
  {
    if !TimedOut(a.pairs[i], now) then (a, false)
    else if a.pairs[i].retryCount < MAX_RETRIES then (Retry(a, i, now, env), false)
    else (GiveUp(a, i), true)
  }

  /** The sweep over the pairs from `i` on. */
  function TimeoutsFrom(a: Agent, i: nat, gaveUp: bool, now: int, env: Env): (r: (Agent, bool))
    decreases |a.pairs| - i
  {
    if i >= |a.pairs| then (a, gaveUp)
    else
      var (b, gaveUpNow) := SweepOne(a, i, now, env);
      TimeoutsFrom(b, i + 1, gaveUp || gaveUpNow, now, env)
  }

  function CheckPairTimeouts(a: Agent, now: int, env: Env): Agent {
    var (b, gaveUp) := TimeoutsFrom(a, 0, false, now, env);
    if gaveUp then StartNextBatch(b, 2, now, env) else b
  }

  // ---------------------------------------------------------------- public calls

  function Process(a: Agent, now: int, env: Env): Agent {
    if !a.started || a.success then a else CheckPairTimeouts(a, now, env)
  }

  function AddNewPairs(a: Agent): (Agent, bool) {
    var grown := PairUp(a.pairs, a.locals, a.remotes, a.nextPair);
    if |grown| > |a.pairs| then
      (a.(pairs := StableSort(grown), current := 0, nextPair := a.nextPair + |grown|), true)
    else (a, false)
  }

  predicate Known(cs: seq<Candidate>, c: Candidate) {
    exists i :: 0 <= i < |cs| && cs[i].ip == c.ip && cs[i].port == c.port
  }

  function PairUpAndCheck(a: Agent, now: int, env: Env): Agent {
    if a.started && !a.success then
      var (b, added) := AddNewPairs(a);
      if added then StartNextBatch(b, 2, now, env) else b
    else a
  }

  function AddLocalCandidate(a: Agent, c: Candidate, now: int, env: Env): Agent {
    if Known(a.locals, c) then a else PairUpAndCheck(a.(locals := a.locals + [c]), now, env)
  }

  function AddRemoteCandidate(a: Agent, c: Candidate, now: int, env: Env): Agent {
    if Known(a.remotes, c) then a else PairUpAndCheck(a.(remotes := a.remotes + [c]), now, env)
  }

  function FormPairs(a: Agent, env: Env): Agent {
    var formed := PairUp([], a.locals, a.remotes, a.nextPair);
    a.(pairs := env.sort(formed), nextPair := a.nextPair + |formed|)
  }

  function StartConnectivityChecks(a: Agent, now: int, env: Env): (Agent, bool) {
    var reset := a.(success := false, current := 0, sent := [], notices := []);
    if a.locals == [] || a.remotes == [] then (reset, false)
    else (StartNextBatch(FormPairs(reset, env).(started := true), 4, now, env), true)
  }

  function Settled(ps: seq<Pair>): seq<Pair> {
    seq(|ps|, i requires 0 <= i < |ps| => if ps[i].state == InProgress then ps[i].(state := Succeeded) else ps[i])
  }

  function Select(a: Agent, socket: Option<nat>, remote: Candidate): Agent {
    a.(success := true, activeSocket := socket, activeRemote := Some(remote), pending := map[],
       pairs := Settled(a.pairs))
  }

  /** Where the pair object with an identity stands; |ps| if it is gone. */
  function IndexOf(ps: seq<Pair>, id: nat): (i: nat)
    ensures i <= |ps|
    ensures i < |ps| ==> ps[i].id == id
    ensures i == |ps| ==> forall p :: p in ps ==> p.id != id
  {
    if ps == [] then 0
    else
      var i := IndexOf(ps[..|ps| - 1], id);
      if i < |ps| - 1 then i else if ps[|ps| - 1].id == id then |ps| - 1 else |ps|
  }

  /** A STUN response: `found` says whether it carried a mapped address. */
  function HandleResponse(a: Agent, socket: nat, tid: nat, found: bool): Agent {
    var key := PendingKey(socket, tid);
    if key !in a.pending then a
    else
      var b := a.(pending := a.pending - {key});
      var i := IndexOf(a.pairs, a.pending[key]);
      if i == |a.pairs| then b
      else
        var p := a.pairs[i];
        var c := b.(pairs := b.pairs[i := p.(tid := None)]);
        if found && !a.success then
          Select(c, p.socket, p.remote).(notices := c.notices + [Connected(p.socket, p.remote)])
        else c
  }

  function SetPairSucceeded(a: Agent, socket: Option<nat>, remote: Candidate): Agent {
    if a.success then a else Select(a, socket, remote)
  }

  function Cancel(a: Agent): Agent {
    a.(locals := [], remotes := [], pairs := [], pending := map[], started := false, success := false,
       activeSocket := None)
  }

  // ---------------------------------------------------------------- the invariant

  ghost predicate HasState(a: Agent, state: PairState) {
    exists i :: 0 <= i < |a.pairs| && a.pairs[i].state == state
  }

  predicate NoneWaitingBefore(a: Agent, k: nat) {
    forall i :: 0 <= i < k && i < |a.pairs| ==> a.pairs[i].state != Waiting
  }

  ghost predicate PairOk(a: Agent, p: Pair) {
    && p.retryCount <= MAX_RETRIES && p.id < a.nextPair
    && (a.success ==> p.state != InProgress) && (!a.success ==> p.state != Succeeded)
    && (p.tid.Some? ==> p.tid.value < a.nextTid)
    && (p.tid.Some? && p.socket.Some? ==> Request(p.socket.value, p.remote, p.tid.value) in a.sent)
  }

  /** A live entry names the request its pair is waiting for. */
  ghost predicate PendingOk(a: Agent) {
    forall key :: key in a.pending ==>
      && key.tid < a.nextTid && a.pending[key] < a.nextPair
      && forall p :: p in a.pairs && p.id == a.pending[key] ==>
           p.socket == Some(key.socket) && p.tid == Some(key.tid)
  }

  ghost predicate CandidatesDistinct(cs: seq<Candidate>) {
    forall i, j :: 0 <= i < j < |cs| ==> cs[i].ip != cs[j].ip || cs[i].port != cs[j].port
  }

  ghost predicate Core(a: Agent) {
    && Distinct(a.pairs) && (forall p :: p in a.pairs ==> PairOk(a, p)) && PendingOk(a)
    && CandidatesDistinct(a.locals) && CandidatesDistinct(a.remotes)
    && (!a.started ==> a.pairs == [])
    && (a.started ==> a.locals != [] && a.remotes != [])
    && (a.success ==> a.pending == map[])
    && Descending(a.pairs)
    && AllFormed(a.pairs, a.locals, a.remotes)
    && (a.started && !a.success ==> AllKeys(a.pairs, a.locals, a.remotes))
  }

  ghost predicate NoticesOk(a: Agent) {
    && (forall i, j :: 0 <= i < j < |a.notices| ==> !(a.notices[i].Connected? && a.notices[j].Connected?))
    && ((exists i :: 0 <= i < |a.notices| && a.notices[i].Connected?) ==> a.success || !a.started)
  }

  /** Checks never stall: while a pair waits for its turn, another one is being checked. */
  ghost predicate NeverStalls(a: Agent) {
    a.started && !a.success ==> (HasState(a, Waiting) ==> HasState(a, InProgress))
  }

  ghost predicate Inv(a: Agent) {
    Core(a) && NoticesOk(a) && NeverStalls(a) && NoneWaitingBefore(a, a.current)
  }
}
