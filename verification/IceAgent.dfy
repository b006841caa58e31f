/** The agent as the program keeps it: lists updated in place, loops over pairs, one call at a time. */
module IceAgent {
  import opened Wrappers
  import opened IcePairs
  import opened IceChecks

  class Agent {
    var locals: seq<Candidate>
    var remotes: seq<Candidate>
    var pairs: seq<Pair>
    var pending: map<PendingKey, nat>
    var started: bool
    var success: bool
    var activeSocket: Option<nat>
    var activeRemote: Option<Candidate>
    var current: nat
    var nextPair: nat
    var nextTid: nat
    var sent: seq<Request>
    var notices: seq<Notice>

    ghost function Value(): IceChecks.Agent
      reads this
    {
      IceChecks.Agent(locals, remotes, pairs, pending, started, success, activeSocket, activeRemote, current,
                      nextPair, nextTid, sent, notices)
    }

    constructor ()
      ensures Value() == NewAgent()
    {
      locals, remotes, pairs, pending := [], [], [], map[];
      started, success, activeSocket, activeRemote, current := false, false, None, None, 0;
      nextPair, nextTid, sent, notices := 0, 0, [], [];
    }

    method SendBindingRequest(i: nat, env: Env) returns (ok: bool)
      requires i < |pairs|
      modifies this
      ensures (Value(), ok) == IceChecks.SendBindingRequest(old(Value()), i, env)
    {
      if pairs[i].socket.None? {
        return false;
      }
      ForgetRequest(i);
      var tid := nextTid;
      nextTid := nextTid + 1;
      if pairs[i].remote.addr.None? {
        return false;
      }
      if !env.sendOk(tid) {
        return false;
      }
      sent := sent + [Request(pairs[i].socket.value, pairs[i].remote, tid)];
      pending := pending[PendingKey(pairs[i].socket.value, tid) := pairs[i].id];
      pairs := pairs[i := pairs[i].(tid := Some(tid))];
      return true;
    }

    method ForgetRequest(i: nat)
      requires i < |pairs|
      modifies this
      ensures Value() == IceChecks.ForgetRequest(old(Value()), i)
    {
      if pairs[i].tid.Some? {
        if pairs[i].socket.Some? {
          pending := pending - {PendingKey(pairs[i].socket.value, pairs[i].tid.value)};
        }
        pairs := pairs[i := pairs[i].(tid := None)];
      }
    }

    method StartNextBatch(maxParallel: nat, now: int, env: Env)
      modifies this
      ensures Value() == IceChecks.StartNextBatch(old(Value()), maxParallel, now, env)
    {
      var count: nat := 0;
      var i: nat := current;
      while i < |pairs| && count < maxParallel
        invariant BatchFrom(Value(), i, count, maxParallel, now, env)
               == BatchFrom(old(Value()), old(current), 0, maxParallel, now, env)
        decreases |pairs| - i
      {
        if pairs[i].state == Waiting || pairs[i].state == Failed {
          var ok := StartPair(i, now, env);
          if ok {
            count := count + 1;
          }
        }
        i := i + 1;
      }
      if count == 0 && current >= |pairs| {
        notices := notices + [Exhausted];
      }
    }

    method StartPair(i: nat, now: int, env: Env) returns (ok: bool)
      requires i < |pairs|
      modifies this
      ensures (Value(), ok) == IceChecks.StartPair(old(Value()), i, now, env)
      ensures |pairs| == old(|pairs|)
    {
      var p := pairs[i];
      if p.state == Failed {
        p := p.(retryCount := 0);
      }
      pairs := pairs[i := p.(state := InProgress, lastSent := now)];
      ok := SendBindingRequest(i, env);
      if !ok {
        pairs := pairs[i := pairs[i].(state := Failed)];
      }
      current := i + 1;
    }

    method CheckPairTimeouts(now: int, env: Env)
      modifies this
      ensures Value() == IceChecks.CheckPairTimeouts(old(Value()), now, env)
    {
      var needMorePairs := false;
      var i: nat := 0;
      while i < |pairs|
        invariant TimeoutsFrom(Value(), i, needMorePairs, now, env) == TimeoutsFrom(old(Value()), 0, false, now, env)
        decreases |pairs| - i
      {
        var gaveUp := CheckOnePair(i, now, env);
        needMorePairs := needMorePairs || gaveUp;
        i := i + 1;
      }
      if needMorePairs {
        StartNextBatch(2, now, env);
      }
    }

    method CheckOnePair(i: nat, now: int, env: Env) returns (gaveUp: bool)
      requires i < |pairs|
      modifies this
      ensures (Value(), gaveUp) == SweepOne(old(Value()), i, now, env)
      ensures |pairs| == old(|pairs|)
    {
      var p := pairs[i];
      if p.state != InProgress || now - p.lastSent <= RETRY_TIMEOUT_MS {
        return false;
      }
      if p.retryCount < MAX_RETRIES {
        pairs := pairs[i := p.(retryCount := p.retryCount + 1, lastSent := now)];
        ForgetRequest(i);
        var _ := SendBindingRequest(i, env);
        return false;
      }
      pairs := pairs[i := p.(state := Failed)];
      return true;
    }

    method Process(now: int, env: Env)
      modifies this
      ensures Value() == IceChecks.Process(old(Value()), now, env)
    {
      if !started || success {
        return;
      }
      CheckPairTimeouts(now, env);
    }

    method PairWith(l: Candidate, r: Candidate, base: nat, known: set<string>) returns (existing: set<string>)
      requires known == Keys(pairs)
      modifies `pairs
      ensures pairs == AddPair(old(pairs), l, r, base) && existing == Keys(pairs)
    {
      existing := known;
      var key := PairKey(l, r);
      if key !in existing {
        var pair := NewPair(base + |pairs|, l, r);
        AppendKeys(pairs, pair);
        pairs := pairs + [pair];
        existing := existing + {key};
      }
    }

    /** The inner of the two loops over the candidate lists: the keys already there are skipped. */
    method PairRowFrom(l: Candidate, base: nat, known: set<string>) returns (existing: set<string>)
      requires known == Keys(pairs)
      modifies `pairs
      ensures pairs == PairRow(old(pairs), l, remotes, base) && existing == Keys(pairs)
    {
      existing := known;
      var j := 0;
      while j < |remotes|
        invariant j <= |remotes|
        invariant pairs == PairRow(old(pairs), l, remotes[..j], base)
        invariant existing == Keys(pairs)
      {
        PairRowStep(old(pairs), l, remotes, j, base);
        existing := PairWith(l, remotes[j], base, existing);
        j := j + 1;
      }
      assert remotes[..|remotes|] == remotes;
    }

    method PairUpFrom(base: nat)
      modifies `pairs
      ensures pairs == PairUp(old(pairs), locals, remotes, base)
    {
      var existing := Keys(pairs);
      var i := 0;
      while i < |locals|
        invariant i <= |locals|
        invariant pairs == PairUp(old(pairs), locals[..i], remotes, base)
        invariant existing == Keys(pairs)
      {
        PairUpStep(old(pairs), locals, i, remotes, base);
        existing := PairRowFrom(locals[i], base, existing);
        i := i + 1;
      }
      assert locals[..|locals|] == locals;
    }

    method AddNewPairsIncremental() returns (added: bool)
      modifies this
      ensures (Value(), added) == AddNewPairs(old(Value()))
    {
      hide IcePairs.PairUp, IcePairs.StableSort;
      var before := |pairs|;
      PairUpFrom(nextPair);
      PairUpGrows(old(pairs), locals, remotes, nextPair);
      added := |pairs| > before;
      if added {
        nextPair := nextPair + |pairs|;
        pairs := StableSort(pairs);
        current := 0;
      } else {
        assert pairs == old(pairs);
      }
    }

    method Contains(cs: seq<Candidate>, c: Candidate) returns (found: bool)
      ensures found == Known(cs, c)
    {
      for i := 0 to |cs|
        invariant !Known(cs[..i], c)
      {
        if cs[i].ip == c.ip && cs[i].port == c.port {
          return true;
        }
      }
      assert cs[..|cs|] == cs;
      return false;
    }

    method AddLocalCandidate(c: Candidate, now: int, env: Env)
      modifies this
      ensures Value() == IceChecks.AddLocalCandidate(old(Value()), c, now, env)
    {
      var known := Contains(locals, c);
      if known {
        return;
      }
      locals := locals + [c];
      if started && !success {
        var added := AddNewPairsIncremental();
        if added {
          StartNextBatch(2, now, env);
        }
      }
    }

    method AddRemoteCandidate(c: Candidate, now: int, env: Env)
      modifies this
      ensures Value() == IceChecks.AddRemoteCandidate(old(Value()), c, now, env)
    {
      var known := Contains(remotes, c);
      if known {
        return;
      }
      remotes := remotes + [c];
      var addedPairs := false;
      if started && !success {
        addedPairs := AddNewPairsIncremental();
      }
      if addedPairs {
        StartNextBatch(2, now, env);
      }
    }

    method FormPairs(env: Env)
      modifies this
      ensures Value() == IceChecks.FormPairs(old(Value()), env)
    {
      pairs := [];
      PairUpFrom(nextPair);
      nextPair := nextPair + |pairs|;
      pairs := env.sort(pairs);
    }

    method StartConnectivityChecks(now: int, env: Env) returns (ok: bool)
      modifies this
      ensures (Value(), ok) == IceChecks.StartConnectivityChecks(old(Value()), now, env)
    {
      success := false;
      current := 0;
      sent, notices := [], [];
      if locals == [] || remotes == [] {
        return false;
      }
      FormPairs(env);
      started := true;
      StartNextBatch(4, now, env);
      return true;
    }

    method SettlePairs()
      modifies `pairs
      ensures pairs == Settled(old(pairs))
    {
      for i := 0 to |pairs|
        invariant |pairs| == |old(pairs)|
        invariant forall k :: 0 <= k < i ==> pairs[k] == Settled(old(pairs))[k]
        invariant forall k :: i <= k < |pairs| ==> pairs[k] == old(pairs)[k]
      {
        if pairs[i].state == InProgress {
          pairs := pairs[i := pairs[i].(state := Succeeded)];
        }
      }
    }

    method Select(path: Option<nat>, remote: Candidate)
      modifies this
      ensures Value() == IceChecks.Select(old(Value()), path, remote)
    {
      success := true;
      activeRemote := Some(remote);
      activeSocket := path;
      pending := map[];
      SettlePairs();
    }

    method HandleStunResponse(socket: nat, tid: nat, found: bool)
      modifies this
      ensures Value() == HandleResponse(old(Value()), socket, tid, found)
    {
      var key := PendingKey(socket, tid);
      if key !in pending {
        return;
      }
      var i := IndexOf(pairs, pending[key]);
      pending := pending - {key};
      if i == |pairs| {
        return;
      }
      pairs := pairs[i := pairs[i].(tid := None)];
      if found && !success {
        var matched := pairs[i];
        Select(matched.socket, matched.remote);
        notices := notices + [Connected(matched.socket, matched.remote)];
      }
    }

    method SetPairSucceeded(path: Option<nat>, remote: Candidate)
      modifies this
      ensures Value() == IceChecks.SetPairSucceeded(old(Value()), path, remote)
    {
      if success {
        return;
      }
      Select(path, remote);
    }

    method Cancel()
      modifies this
      ensures Value() == IceChecks.Cancel(old(Value()))
    {
      locals, remotes, pairs, pending := [], [], [], map[];
      started, success, activeSocket := false, false, None;
    }
  }

  lemma PairRowStep(ps: seq<Pair>, l: Candidate, remotes: seq<Candidate>, j: nat, base: nat)
    requires j < |remotes|
    ensures PairRow(ps, l, remotes[..j + 1], base) == AddPair(PairRow(ps, l, remotes[..j], base), l, remotes[j], base)
  {
    assert remotes[..j + 1][..j] == remotes[..j];
  }

  lemma PairUpStep(ps: seq<Pair>, locals: seq<Candidate>, i: nat, remotes: seq<Candidate>, base: nat)
    requires i < |locals|
    ensures PairUp(ps, locals[..i + 1], remotes, base)
         == PairRow(PairUp(ps, locals[..i], remotes, base), locals[i], remotes, base)
  {
    assert locals[..i + 1][..i] == locals[..i];
  }

  lemma {:induction false} PairRowGrows(ps: seq<Pair>, l: Candidate, remotes: seq<Candidate>, base: nat)
    ensures ps <= PairRow(ps, l, remotes, base)
  {
    if remotes != [] {
      PairRowGrows(ps, l, remotes[..|remotes| - 1], base);
    }
  }

  lemma {:induction false} PairUpGrows(ps: seq<Pair>, locals: seq<Candidate>, remotes: seq<Candidate>, base: nat)
    ensures ps <= PairUp(ps, locals, remotes, base)
  {
    if locals != [] {
      PairUpGrows(ps, locals[..|locals| - 1], remotes, base);
      PairRowGrows(PairUp(ps, locals[..|locals| - 1], remotes, base), locals[|locals| - 1], remotes, base);
    }
  }
}
