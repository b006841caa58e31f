/**
 * What a receiver remembers of a transfer, and for how long: over every sequence of packets (any bytes at all), user
 * decisions, polls and stops. Each theorem names the source's periods and what the table entries say, not the sweep.
 */
module FileMemory {
  import opened Wrappers
  import opened Bytes
  import opened FilePackets
  import opened FileReceiver
  import opened FileEndpoint

  datatype Event =
    | Arrives(peer: string, body: seq<byte>, now: int, io: Io)
    | UserTakes(peer: string, id: nat, now: int, io: Io)
    | UserRefuses(peer: string, id: nat, now: int)
    | UserPolls(now: int)
    | Stops

  function Handled(r: Receiver, e: Event): (Receiver, Option<Packet>) {
    match e
    case Arrives(peer, body, now, io) =>
      var (post, response) := HandleIncoming(Endpoint(r, {}, {}), peer, body, now, io);
      (post.rx, response)
    case UserTakes(peer, id, now, io) => Accept(Cleanup(r, now), peer, id, now, io)
    case UserRefuses(peer, id, now) => FileReceiver.Decline(r, peer, id, now)
    case UserPolls(now) => (Pop(Cleanup(r, now)).0, None)
    case Stops => (Stop(r), None)
  }

  function After(r: Receiver, events: seq<Event>): Receiver {
    if events == [] then r else Handled(After(r, events[..|events| - 1]), events[|events| - 1]).0
  }

  // ---------------------------------------------------------------- what an event is about

  /** The events that look at the clock for entries to forget. */
  predicate Sweeps(e: Event) {
    match e
    case Arrives(_, body, _, _) => body != [] && body[0] != FILE_PACKET_ACK && body[0] != FILE_PACKET_REJECT
    case UserTakes(_, _, _, _) => true
    case UserPolls(_) => true
    case _ => false
  }

  /** Metadata or data of the transfer under `key` comes in. */
  predicate Hears(e: Event, key: string) {
    && e.Arrives? && Sweeps(e) && Decode(e.body).Some?
    && MakeIncomingFileKey(e.peer, Decode(e.body).value.transferId) == key
  }

  predicate Decides(e: Event, key: string) {
    (e.UserTakes? || e.UserRefuses?) && MakeIncomingFileKey(e.peer, e.id) == key
  }

  function Swept(r: Receiver, e: Event): Receiver {
    if Sweeps(e) then Cleanup(r, e.now) else r
  }

  lemma HeardIsHandled(r: Receiver, e: Event)
    requires e.Arrives? && Sweeps(e) && Decode(e.body).Some?
    ensures var p := Decode(e.body).value;
      && (p.Meta? || p.Data?) && Fits(p) && Acceptable(p)
      && Handled(r, e) == HandlePacket(Swept(r, e), e.peer, p, e.now, e.io)
  {
    hide Cleanup, HandlePacket;
    DecodeFits(e.body);
    KindOf(e.body);
  }

  lemma KindOf(body: seq<byte>)
    requires Decode(body).Some? && body[0] != FILE_PACKET_ACK && body[0] != FILE_PACKET_REJECT
    ensures Decode(body).value.Meta? || Decode(body).value.Data?
  {
  }

  lemma UnheardIsSwept(r: Receiver, e: Event)
    requires e.Arrives? && !(Sweeps(e) && Decode(e.body).Some?)
    ensures Handled(r, e) == (Swept(r, e), None)
  {
    hide Cleanup, HandlePacket, Decode;
  }

  // ---------------------------------------------------------------- what an event leaves alone

  /** Nothing is stored under the key that was not, and no request of it is queued that was not. */
  ghost predicate NothingNew(r: Receiver, s: Receiver, key: string) {
    && (forall f :: f in s.files && f.key == key ==> f in r.files)
    && (forall q :: q in s.queue && PromptKey(q) == key ==> q in r.queue)
  }

  lemma SweepAddsNothing(r: Receiver, now: int, key: string)
    ensures NothingNew(r, Cleanup(r, now), key)
    ensures key !in Cleanup(r, now).pending ==> forall q :: q in Cleanup(r, now).queue ==> PromptKey(q) != key
  {
    StillPendingHolds(r.queue, Cleanup(r, now).pending.Keys);
  }

  /** Whatever the user is asked about next, it is not this transfer. */
  ghost predicate NotPrompted(r: Receiver, now: int, key: string) {
    var out := Pop(Cleanup(r, now)).1;
    out.Some? ==> PromptKey(out.value) != key
  }

  lemma OtherPacketAddsNothing(r: Receiver, peer: string, p: Packet, now: int, io: Io, key: string)
    requires key != MakeIncomingFileKey(peer, p.transferId)
    ensures NothingNew(r, HandlePacket(r, peer, p, now, io).0, key)
  {
  }

  lemma SweepKeepsKeyInv(r: Receiver, e: Event)
    requires TablesInv(r)
    ensures TablesInv(Swept(r, e))
  {
    if Sweeps(e) {
      CleanupKeepsTables(r, e.now);
    }
  }

  /** An event that is not about the key does to its entry what the sweep does. */
  lemma ElsewhereLeaves(r: Receiver, e: Event, key: string)
    requires TablesInv(r) && !Hears(e, key) && !Decides(e, key) && !e.Stops?
    ensures SameAt(Swept(r, e), Handled(r, e).0, key)
    ensures NothingNew(Swept(r, e), Handled(r, e).0, key)
  {
    SweepKeepsKeyInv(r, e);
    match e
    case Arrives(peer, body, now, io) =>
      if Sweeps(e) && Decode(body).Some? {
        HeardIsHandled(r, e);
        OtherPacketLeaves(Swept(r, e), peer, Decode(body).value, now, io, key);
      } else {
        UnheardIsSwept(r, e);
      }
    case UserTakes(peer, id, now, io) =>
    case UserRefuses(peer, id, now) =>
    case UserPolls(now) =>
  }

  lemma OtherPacketLeaves(r: Receiver, peer: string, p: Packet, now: int, io: Io, key: string)
    requires TablesInv(r) && Fits(p) && Acceptable(p) && key != MakeIncomingFileKey(peer, p.transferId)
    ensures var post := HandlePacket(r, peer, p, now, io).0; SameAt(r, post, key) && NothingNew(r, post, key)
  {
    assert KeyInv(r, MakeIncomingFileKey(peer, p.transferId));
    HandlePacketTouches(r, peer, p, now, io);
    OtherPacketAddsNothing(r, peer, p, now, io, key);
  }

  lemma HandledKeepsTables(r: Receiver, e: Event)
    requires TablesInv(r)
    ensures TablesInv(Handled(r, e).0)
  {
    hide HandlePacket, TablesInv, Cleanup;
    SweepKeepsKeyInv(r, e);
    match e
    case Arrives(peer, body, now, io) =>
      if Sweeps(e) && Decode(body).Some? {
        HeardIsHandled(r, e);
        HandlePacketKeepsTables(Swept(r, e), peer, Decode(body).value, now, io);
      } else {
        UnheardIsSwept(r, e);
      }
    case UserTakes(peer, id, now, io) => AcceptKeepsTables(Swept(r, e), peer, id, now, io);
    case UserRefuses(peer, id, now) => DeclineKeepsTables(r, peer, id, now);
    case UserPolls(now) => PopKeepsTables(Swept(r, e));
    case Stops => StopKeepsTables(r);
  }

  lemma PopKeepsTables(r: Receiver)
    requires TablesInv(r)
    ensures TablesInv(Pop(r).0)
  {
    forall key ensures KeyInv(Pop(r).0, key) {
      assert KeyInv(r, key);
    }
  }

  lemma StopKeepsTables(r: Receiver)
    ensures TablesInv(Stop(r))
  {
  }

  lemma {:induction false} AfterKeepsTables(r: Receiver, events: seq<Event>)
    requires TablesInv(r)
    ensures TablesInv(After(r, events))
  {
    if events != [] {
      AfterKeepsTables(r, events[..|events| - 1]);
      HandledKeepsTables(After(r, events[..|events| - 1]), events[|events| - 1]);
    }
  }

  // ---------------------------------------------------------------- hearing of a transfer in time

  /** The packets that make an entry last longer. */
  datatype Renewal = AnyPacket | MetadataOnly | Nothing

  predicate Renews(e: Event, key: string, how: Renewal) {
    Hears(e, key) && (how.AnyPacket? || (how.MetadataOnly? && Decode(e.body).value.Meta?))
  }

  /** When the entry was last renewed, `at` if never. */
  function LastHeard(events: seq<Event>, key: string, at: int, how: Renewal): int {
    if events == [] then at
    else
      var last := events[|events| - 1];
      if Renews(last, key, how) then last.now else LastHeard(events[..|events| - 1], key, at, how)
  }

  /** The client is not stopped, and never looks for entries to forget more than `period` milliseconds after the entry
    * was renewed: true in particular if the packets that renew it come that close to each other. */
  predicate InTime(events: seq<Event>, key: string, at: int, how: Renewal, period: int) {
    if events == [] then true
    else
      var init, last := events[..|events| - 1], events[|events| - 1];
      InTime(init, key, at, how, period) && !last.Stops?
      && (Sweeps(last) ==> last.now - LastHeard(init, key, at, how) <= period)
  }

  lemma {:induction false} InTimeBefore(
      events: seq<Event>, key: string, at: int, how: Renewal, period: int, k: nat)
    requires InTime(events, key, at, how, period) && k < |events|
    ensures InTime(events[..k], key, at, how, period) && !events[k].Stops?
    ensures Sweeps(events[k]) ==> events[k].now - LastHeard(events[..k], key, at, how) <= period
  {
    var init := events[..|events| - 1];
    if k < |init| {
      InTimeBefore(init, key, at, how, period, k);
      assert init[..k] == events[..k];
    }
  }

  // ---------------------------------------------------------------- refused requests

  ghost predicate Refused(r: Receiver, key: string, at: int) {
    && key in r.rejected && r.rejected[key] == at
    && key !in r.incoming && key !in r.completed && key !in r.pending
  }

  lemma RefusalIsSwept(r: Receiver, e: Event, key: string, at: int)
    requires Refused(r, key, at) && (Sweeps(e) ==> e.now - at <= 45_000)
    ensures Refused(Swept(r, e), key, at) && NothingNew(r, Swept(r, e), key)
  {
    if Sweeps(e) {
      SweepAddsNothing(r, e.now, key);
    }
  }

  lemma RefusedIsRefusedAgain(r: Receiver, peer: string, p: Packet, now: int, io: Io, at: int)
    requires (p.Meta? || p.Data?) && Refused(r, MakeIncomingFileKey(peer, p.transferId), at)
    ensures
      var key := MakeIncomingFileKey(peer, p.transferId);
      var (post, response) := HandlePacket(r, peer, p, now, io);
      Refused(post, key, now) && response == Some(Reject(p.transferId)) && NothingNew(r, post, key)
  {
  }

  lemma RefusalStep(r: Receiver, e: Event, key: string, at: int)
    requires TablesInv(r) && Refused(r, key, at) && !e.Stops? && (Sweeps(e) ==> e.now - at <= 45_000)
    ensures Refused(Handled(r, e).0, key, if Hears(e, key) then e.now else at)
    ensures NothingNew(r, Handled(r, e).0, key)
    ensures Hears(e, key) ==> Handled(r, e).1 == Some(Reject(Decode(e.body).value.transferId))
  {
    hide HandlePacket, Cleanup, Decode;
    RefusalIsSwept(r, e, key, at);
    if Hears(e, key) {
      HeardIsHandled(r, e);
      RefusedIsRefusedAgain(Swept(r, e), e.peer, Decode(e.body).value, e.now, e.io, at);
    } else if !Decides(e, key) {
      ElsewhereLeaves(r, e, key);
    }
  }

  lemma {:induction false} RefusalStays(r: Receiver, events: seq<Event>, key: string, at: int)
    requires TablesInv(r) && Refused(r, key, at) && InTime(events, key, at, AnyPacket, 45_000)
    ensures Refused(After(r, events), key, LastHeard(events, key, at, AnyPacket))
    ensures NothingNew(r, After(r, events), key)
  {
    if events != [] {
      var init, last := events[..|events| - 1], events[|events| - 1];
      RefusalStays(r, init, key, at);
      AfterKeepsTables(r, init);
      RefusalStep(After(r, init), last, key, LastHeard(init, key, at, AnyPacket));
    }
  }

  lemma RefusalAnswers(r: Receiver, events: seq<Event>, peer: string, id: nat, at: int, k: nat)
    requires TablesInv(r) && Refused(r, MakeIncomingFileKey(peer, id), at) && k < |events|
    requires InTime(events, MakeIncomingFileKey(peer, id), at, AnyPacket, 45_000)
    ensures var key := MakeIncomingFileKey(peer, id);
      && (Hears(events[k], key) ==> Handled(After(r, events[..k]), events[k]).1 == Some(Reject(id)))
      && (events[k].UserPolls? ==> NotPrompted(After(r, events[..k]), events[k].now, key))
  {
    hide Handled, Decode;
    var key, pre := MakeIncomingFileKey(peer, id), After(r, events[..k]);
    var last := LastHeard(events[..k], key, at, AnyPacket);
    InTimeBefore(events, key, at, AnyPacket, 45_000, k);
    RefusalStays(r, events[..k], key, at);
    AfterKeepsTables(r, events[..k]);
    RefusalStep(pre, events[k], key, last);
    if Hears(events[k], key) {
      IncomingFileKeyInjective(events[k].peer, Decode(events[k].body).value.transferId, peer, id);
    }
    if events[k].UserPolls? {
      SweepAddsNothing(pre, events[k].now, key);
    }
  }

  lemma RefusalBegins(r: Receiver, peer: string, id: nat, at: int)
    requires TablesInv(r) && MakeIncomingFileKey(peer, id) in r.pending
    ensures
      var key := MakeIncomingFileKey(peer, id);
      var (post, response) := Handled(r, UserRefuses(peer, id, at));
      Refused(post, key, at) && response == Some(Reject(id)) && NothingNew(r, post, key)
  {
    assert KeyInv(r, MakeIncomingFileKey(peer, id));
  }

  /**
   * A request the user has refused is answered with a rejection, each time one of its packets comes in time; it is not
   * asked again, not entered and not stored.
   */
  lemma RefusalIsRemembered(before: seq<Event>, approval: bool, peer: string, id: nat, at: int, later: seq<Event>)
    requires MakeIncomingFileKey(peer, id) in After(NewReceiver(approval), before).pending
    requires InTime(later, MakeIncomingFileKey(peer, id), at, AnyPacket, 45_000)
    ensures
      var key := MakeIncomingFileKey(peer, id);
      var pre := After(NewReceiver(approval), before);
      var (refused, response) := Handled(pre, UserRefuses(peer, id, at));
      && response == Some(Reject(id))
      && Refused(After(refused, later), key, LastHeard(later, key, at, AnyPacket))
      && NothingNew(pre, After(refused, later), key)
      && (forall k :: 0 <= k < |later| && Hears(later[k], key) ==>
            Handled(After(refused, later[..k]), later[k]).1 == Some(Reject(id)))
      && (forall k :: 0 <= k < |later| && later[k].UserPolls? ==>
            NotPrompted(After(refused, later[..k]), later[k].now, key))
  {
    hide Refused, Handled, Hears, NotPrompted;
    var key := MakeIncomingFileKey(peer, id);
    var pre := After(NewReceiver(approval), before);
    var refused := Handled(pre, UserRefuses(peer, id, at)).0;
    AfterKeepsTables(NewReceiver(approval), before);
    RefusalBegins(pre, peer, id, at);
    HandledKeepsTables(pre, UserRefuses(peer, id, at));
    RefusalStays(refused, later, key, at);
    forall k | 0 <= k < |later|
      ensures Hears(later[k], key) ==> Handled(After(refused, later[..k]), later[k]).1 == Some(Reject(id))
      ensures later[k].UserPolls? ==> NotPrompted(After(refused, later[..k]), later[k].now, key)
    {
      RefusalAnswers(refused, later, peer, id, at, k);
    }
  }

  /** After longer silence the request is like a new one. */
  lemma SilenceEndsRefusal(r: Receiver, e: Event, key: string, at: int)
    requires TablesInv(r) && Refused(r, key, at) && Hears(e, key) && Decode(e.body).value.Meta?
    requires e.now - at > 45_000
    ensures Requested(r, e, key)
  {
    NewRequest(r, e, key);
  }

  // ---------------------------------------------------------------- new requests

  function PromptOf(peer: string, p: Packet, now: int): Prompt
    requires p.Meta?
  {
    Prompt(peer, p.transferId, p.fileName, p.chunkCount, p.totalSize, now, now)
  }

  function NewTransfer(p: Prompt, now: int): Transfer {
    Transfer(p.peerId, p.fileName, p.chunkCount, 0, p.totalSize, 0, [], now)
  }

  /** The metadata asks the user, who finds it behind the requests that are waiting; or, if no approval is needed and
    * the file can be opened, the transfer begins and is acknowledged. */
  ghost predicate Requested(r: Receiver, e: Event, key: string)
    requires Hears(e, key) && Decode(e.body).value.Meta?
  {
    var p := Decode(e.body).value;
    var (post, response) := Handled(r, e);
    if r.approvalRequired then
      && key in post.pending && post.pending[key] == PromptOf(e.peer, p, e.now) && response == None
      && post.queue != [] && post.queue[|post.queue| - 1] == PromptOf(e.peer, p, e.now)
      && key !in post.rejected && key !in post.incoming
    else if e.io.openOk then
      && key in post.incoming && post.incoming[key] == NewTransfer(PromptOf(e.peer, p, e.now), e.now)
      && response == Some(Ack(p.transferId, FILE_META_CHUNK_INDEX)) && key !in post.rejected
    else response == None && key !in post.incoming && key !in post.rejected
  }

  lemma NewRequest(r: Receiver, e: Event, key: string)
    requires Hears(e, key) && Decode(e.body).value.Meta?
    requires key !in r.incoming && key !in r.completed && (r.approvalRequired ==> key !in r.pending)
    requires key in r.rejected ==> e.now - r.rejected[key] > 45_000
    ensures Requested(r, e, key)
  {
    HeardIsHandled(r, e);
  }

  // ---------------------------------------------------------------- requests that wait for the user

  ghost predicate Asked(r: Receiver, key: string, prompt: Prompt) {
    && key in r.pending && r.pending[key] == prompt
    && key !in r.incoming && key !in r.completed && key !in r.rejected
  }

  /** A queued request that is still there afterwards, or the one a poll has handed out. */
  ghost predicate QueuedOrPolled(r: Receiver, e: Event, q: Prompt) {
    q in Handled(r, e).0.queue || (e.UserPolls? && Pop(Cleanup(r, e.now)).1 == Some(q))
  }

  lemma AskedIsSwept(r: Receiver, e: Event, key: string, prompt: Prompt)
    requires Asked(r, key, prompt) && (Sweeps(e) ==> e.now - prompt.lastUpdate <= 60_000)
    ensures Asked(Swept(r, e), key, prompt)
    ensures forall q :: q in r.queue && PromptKey(q) == key ==> q in Swept(r, e).queue
  {
    if Sweeps(e) {
      StillPendingHolds(r.queue, Cleanup(r, e.now).pending.Keys);
    }
  }

  lemma AskedIsNotAnswered(r: Receiver, peer: string, p: Packet, now: int, io: Io, prompt: Prompt)
    requires (p.Meta? || p.Data?) && r.approvalRequired && Asked(r, MakeIncomingFileKey(peer, p.transferId), prompt)
    ensures
      var key := MakeIncomingFileKey(peer, p.transferId);
      var (post, response) := HandlePacket(r, peer, p, now, io);
      && Asked(post, key, if p.Meta? then prompt.(lastUpdate := now) else prompt)
      && response == None && post.queue == r.queue
  {
  }

  lemma QueueGrows(r: Receiver, peer: string, p: Packet, now: int, io: Io, q: Prompt)
    requires q in r.queue
    ensures q in HandlePacket(r, peer, p, now, io).0.queue
  {
  }

  lemma QueueSurvives(r: Receiver, e: Event, q: Prompt)
    requires q in Swept(r, e).queue && !e.Stops?
    ensures QueuedOrPolled(r, e, q)
  {
    hide HandlePacket, Cleanup;
    match e
    case Arrives(peer, body, now, io) =>
      if Sweeps(e) && Decode(body).Some? {
        HeardIsHandled(r, e);
        QueueGrows(Swept(r, e), peer, Decode(body).value, now, io, q);
      } else {
        UnheardIsSwept(r, e);
      }
    case UserPolls(now) =>
      var queue := Swept(r, e).queue;
      assert queue == [queue[0]] + queue[1..];
    case _ =>
  }

  lemma AskedStep(r: Receiver, e: Event, key: string, prompt: Prompt)
    requires TablesInv(r) && Asked(r, key, prompt) && !e.Stops? && !Decides(e, key)
    requires Sweeps(e) ==> e.now - prompt.lastUpdate <= 60_000
    ensures Asked(Handled(r, e).0, key, if Renews(e, key, MetadataOnly) then prompt.(lastUpdate := e.now) else prompt)
    ensures Hears(e, key) ==> Handled(r, e).1 == None
    ensures forall q :: q in r.queue && PromptKey(q) == key ==> QueuedOrPolled(r, e, q)
  {
    hide HandlePacket, Cleanup, Decode, QueuedOrPolled;
    AskedIsSwept(r, e, key, prompt);
    forall q | q in r.queue && PromptKey(q) == key ensures QueuedOrPolled(r, e, q) {
      QueueSurvives(r, e, q);
    }
    if Hears(e, key) {
      HeardIsHandled(r, e);
      assert KeyInv(r, key);
      ApprovalStays(r, e);
      AskedIsNotAnswered(Swept(r, e), e.peer, Decode(e.body).value, e.now, e.io, prompt);
    } else {
      ElsewhereLeaves(r, e, key);
    }
  }

  lemma ApprovalStays(r: Receiver, e: Event)
    ensures Swept(r, e).approvalRequired == r.approvalRequired
  {
  }

  ghost predicate NoDecision(events: seq<Event>, key: string) {
    forall k :: 0 <= k < |events| ==> !Decides(events[k], key)
  }

  /** The k-th event is a poll that hands out `q`. */
  ghost predicate HandedOut(r: Receiver, events: seq<Event>, k: nat, q: Prompt) {
    k < |events| && events[k].UserPolls? && Pop(Cleanup(After(r, events[..k]), events[k].now)).1 == Some(q)
  }

  /** A pending request waits for the user as long as its metadata comes in time: it changes nothing but its refresh
    * time, nothing is answered, and it stays in the queue until a poll hands it out. */
  lemma {:induction false} RequestWaits(r: Receiver, events: seq<Event>, key: string, prompt: Prompt, q: Prompt)
    requires TablesInv(r) && Asked(r, key, prompt) && NoDecision(events, key)
    requires InTime(events, key, prompt.lastUpdate, MetadataOnly, 60_000)
    requires q in r.queue && PromptKey(q) == key
    ensures Asked(After(r, events), key,
                  prompt.(lastUpdate := LastHeard(events, key, prompt.lastUpdate, MetadataOnly)))
    ensures q in After(r, events).queue || exists k :: HandedOut(r, events, k, q)
  {
    hide Asked, Cleanup, Pop, Handled, Renews;
    if events != [] {
      var init, last := events[..|events| - 1], events[|events| - 1];
      var now := prompt.(lastUpdate := LastHeard(init, key, prompt.lastUpdate, MetadataOnly));
      RequestWaits(r, init, key, prompt, q);
      AfterKeepsTables(r, init);
      AskedStep(After(r, init), last, key, now);
      if q in After(r, init).queue {
        assert QueuedOrPolled(After(r, init), last, q);
        assert q !in After(r, events).queue ==> HandedOut(r, events, |init|, q);
      } else {
        var k: nat :| HandedOut(r, init, k, q);
        assert init[..k] == events[..k];
        assert HandedOut(r, events, k, q);
      }
    }
  }

  /** A pending request the user takes in time begins as it was announced, and is acknowledged; if the file cannot be
    * opened, it waits on. */
  lemma TakenRequestBegins(r: Receiver, peer: string, id: nat, now: int, io: Io)
    requires TablesInv(r) && MakeIncomingFileKey(peer, id) in r.pending
    requires now - r.pending[MakeIncomingFileKey(peer, id)].lastUpdate <= 60_000
    ensures
      var key := MakeIncomingFileKey(peer, id);
      var (post, response) := Handled(r, UserTakes(peer, id, now, io));
      if io.openOk then
        && key in post.incoming && post.incoming[key] == NewTransfer(r.pending[key], now) && key !in post.pending
        && response == Some(Ack(id, FILE_META_CHUNK_INDEX))
      else Asked(post, key, r.pending[key]) && response == None
  {
    assert KeyInv(r, MakeIncomingFileKey(peer, id));
  }

  // ---------------------------------------------------------------- running transfers

  ghost predicate Running(r: Receiver, key: string, at: int) {
    && key in r.incoming && r.incoming[key].lastUpdate == at
    && key !in r.pending && key !in r.completed && key !in r.rejected
  }

  predicate DiskWorks(e: Event) {
    e.Arrives? ==> e.io.writeOk && e.io.renameOk
  }

  lemma RunningIsSwept(r: Receiver, e: Event, key: string, at: int)
    requires Running(r, key, at) && (Sweeps(e) ==> e.now - at <= 20_000)
    ensures Running(Swept(r, e), key, at) && Swept(r, e).incoming[key] == r.incoming[key]
  {
  }

  /** While a transfer runs, its metadata and every chunk it has are acknowledged again. */
  lemma RunningAnswers(r: Receiver, peer: string, p: Packet, now: int, io: Io, at: int)
    requires (p.Meta? || p.Data?) && Running(r, MakeIncomingFileKey(peer, p.transferId), at)
    requires io.writeOk && io.renameOk
    ensures
      var key := MakeIncomingFileKey(peer, p.transferId);
      var (post, response) := HandlePacket(r, peer, p, now, io);
      && (Running(post, key, now) || key in post.completed)
      && (p.Meta? ==> response == Some(Ack(p.transferId, FILE_META_CHUNK_INDEX)))
      && (p.Data? && p.chunkIndex < r.incoming[key].chunkCount && p.chunkIndex < r.incoming[key].nextChunkIndex ==>
            response == Some(Ack(p.transferId, p.chunkIndex)))
  {
  }

  /** The awaited chunk on a disk that fails: the transfer is given up, and nothing is answered or stored. */
  lemma DiskErrorEndsTransfer(r: Receiver, e: Event, key: string, at: int)
    requires TablesInv(r) && Running(r, key, at) && Hears(e, key) && e.now - at <= 20_000
    requires var p, x := Decode(e.body).value, r.incoming[key];
      && p.Data? && p.chunkIndex == x.nextChunkIndex < x.chunkCount
      && |p.payload| == ChunkSize(x.totalSize, p.chunkIndex)
      && (!e.io.writeOk || (!e.io.renameOk && p.chunkIndex + 1 == x.chunkCount && 1024 * x.chunkCount >= x.totalSize))
    ensures var (post, response) := Handled(r, e);
      && response == None && post.files == r.files
      && key !in post.incoming && key !in post.completed && key !in post.pending && key !in post.rejected
  {
    assert KeyInv(r, key);
    HeardIsHandled(r, e);
    RunningIsSwept(r, e, key, at);
  }

  lemma RunningStep(r: Receiver, e: Event, key: string, at: int)
    requires TablesInv(r) && Running(r, key, at) && !e.Stops? && DiskWorks(e)
    requires Sweeps(e) ==> e.now - at <= 20_000
    ensures Running(Handled(r, e).0, key, if Hears(e, key) then e.now else at) || key in Handled(r, e).0.completed
  {
    hide HandlePacket, Cleanup, Decode;
    RunningIsSwept(r, e, key, at);
    if Hears(e, key) {
      HeardIsHandled(r, e);
      RunningAnswers(Swept(r, e), e.peer, Decode(e.body).value, e.now, e.io, at);
    } else if !Decides(e, key) {
      ElsewhereLeaves(r, e, key);
    }
  }

  /** A transfer whose packets come in time is not lost while the disk works: it runs on until it is complete. */
  lemma {:induction false} TransferIsKept(r: Receiver, events: seq<Event>, key: string, at: int)
    requires TablesInv(r) && Running(r, key, at) && InTime(events, key, at, AnyPacket, 20_000)
    requires forall k :: 0 <= k < |events| ==> DiskWorks(events[k])
    ensures Running(After(r, events), key, LastHeard(events, key, at, AnyPacket))
            || exists k :: 0 <= k <= |events| && key in After(r, events[..k]).completed
  {
    hide Running, DiskWorks, Handled;
    if events != [] {
      var init, last := events[..|events| - 1], events[|events| - 1];
      TransferIsKept(r, init, key, at);
      AfterKeepsTables(r, init);
      if Running(After(r, init), key, LastHeard(init, key, at, AnyPacket)) {
        RunningStep(After(r, init), last, key, LastHeard(init, key, at, AnyPacket));
        assert events[..|events|] == events;
      } else {
        var k :| 0 <= k <= |init| && key in After(r, init[..k]).completed;
        assert init[..k] == events[..k];
      }
    }
  }

  // ---------------------------------------------------------------- finished transfers

  ghost predicate Done(r: Receiver, key: string, chunks: nat, at: int) {
    && key in r.completed && r.completed[key] == Completed(chunks, at)
    && key !in r.incoming && key !in r.pending && key !in r.rejected
  }

  lemma DoneIsSwept(r: Receiver, e: Event, key: string, chunks: nat, at: int)
    requires Done(r, key, chunks, at) && (Sweeps(e) ==> e.now - at <= 30_000)
    ensures Done(Swept(r, e), key, chunks, at)
  {
  }

  lemma DoneAnswers(r: Receiver, peer: string, p: Packet, now: int, io: Io, chunks: nat, at: int)
    requires (p.Meta? || p.Data?) && Done(r, MakeIncomingFileKey(peer, p.transferId), chunks, at)
    ensures
      var (post, response) := HandlePacket(r, peer, p, now, io);
      && post == r
      && response == if p.Meta? then Some(Ack(p.transferId, FILE_META_CHUNK_INDEX))
                     else if p.chunkIndex < chunks then Some(Ack(p.transferId, p.chunkIndex)) else None
  {
  }

  lemma DoneStep(r: Receiver, e: Event, key: string, chunks: nat, at: int)
    requires TablesInv(r) && Done(r, key, chunks, at) && !e.Stops? && (Sweeps(e) ==> e.now - at <= 30_000)
    ensures Done(Handled(r, e).0, key, chunks, at)
    ensures Hears(e, key) ==> var p := Decode(e.body).value;
      Handled(r, e).1 == if p.Meta? then Some(Ack(p.transferId, FILE_META_CHUNK_INDEX))
                         else if p.chunkIndex < chunks then Some(Ack(p.transferId, p.chunkIndex)) else None
  {
    hide HandlePacket, Cleanup, Decode;
    DoneIsSwept(r, e, key, chunks, at);
    if Hears(e, key) {
      HeardIsHandled(r, e);
      DoneAnswers(Swept(r, e), e.peer, Decode(e.body).value, e.now, e.io, chunks, at);
    } else if !Decides(e, key) {
      ElsewhereLeaves(r, e, key);
    }
  }

  /** For thirty seconds a finished transfer is remembered, and its repeated packets are acknowledged. */
  lemma {:induction false} FinishedIsRemembered(r: Receiver, events: seq<Event>, key: string, chunks: nat, at: int)
    requires TablesInv(r) && Done(r, key, chunks, at) && InTime(events, key, at, Nothing, 30_000)
    ensures Done(After(r, events), key, chunks, at)
  {
    if events != [] {
      hide Handled;
      var init, last := events[..|events| - 1], events[|events| - 1];
      FinishedIsRemembered(r, init, key, chunks, at);
      AfterKeepsTables(r, init);
      NeverRenewed(init, key, at);
      DoneStep(After(r, init), last, key, chunks, at);
    }
  }

  lemma {:induction false} NeverRenewed(events: seq<Event>, key: string, at: int)
    ensures LastHeard(events, key, at, Nothing) == at
  {
    if events != [] {
      NeverRenewed(events[..|events| - 1], key, at);
    }
  }

  // ---------------------------------------------------------------- forgetting

  /** The four periods. A poll forgets exactly the entries that are older, and keeps the others as they are. */
  lemma PollForgets(r: Receiver, now: int, key: string)
    ensures var post := Handled(r, UserPolls(now)).0;
      && (key in post.incoming <==> key in r.incoming && now - r.incoming[key].lastUpdate <= 20_000)
      && (key in post.completed <==> key in r.completed && now - r.completed[key].completedAt <= 30_000)
      && (key in post.pending <==> key in r.pending && now - r.pending[key].lastUpdate <= 60_000)
      && (key in post.rejected <==> key in r.rejected && now - r.rejected[key] <= 45_000)
      && (key in post.incoming ==> post.incoming[key] == r.incoming[key])
      && (key in post.completed ==> post.completed[key] == r.completed[key])
      && (key in post.pending ==> post.pending[key] == r.pending[key])
      && (key in post.rejected ==> post.rejected[key] == r.rejected[key])
      && post.files == r.files && post.approvalRequired == r.approvalRequired
  {
  }

  /** A stop forgets every transfer and keeps the files; afterwards any metadata is a new request. */
  lemma StopForgets(before: seq<Event>, approval: bool, e: Event, key: string)
    requires Hears(e, key) && Decode(e.body).value.Meta?
    ensures var r := After(NewReceiver(approval), before);
      var post := Handled(r, Stops).0;
      post.queue == [] && post.files == r.files && Requested(post, e, key)
  {
    NewRequest(Handled(After(NewReceiver(approval), before), Stops).0, e, key);
  }
}
