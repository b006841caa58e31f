/**
 * Progress of a file transfer: one attempt whose packet and answer get through advances the sender, whatever
 * else happens in the network meanwhile, and a sender whose every packet has such an attempt succeeds.
 */
module FileDelivery {
  import opened Wrappers
  import opened Bytes
  import opened Datagrams
  import opened FilePackets
  import opened FileReceiver
  import opened FileEndpoint
  import opened FileNetwork
  import opened FileSafety
  import FS = FileSender

  const WORKING: Io := Io(true, true, true, 0)

  // ---------------------------------------------------------------- deliveries that are answered

  /** The receiver still holds the transfer at or one past the sender's chunk, unless it was lost. */
  lemma ReceiverKeepsUp(s: System, p: string, i: nat)
    requires Inv(s) && HasSend(s, p, i) && SendOf(s, p, i).phase.item.Chunk?
    requires Mark(SendOf(s, p, i).dest, MakeIncomingFileKey(p, i)) !in s.log.lost
    ensures
      var send := SendOf(s, p, i);
      var key := MakeIncomingFileKey(p, i);
      var k := send.phase.item.index;
      && send.dest in s.clients
      && var rx := s.clients[send.dest].files.rx;
         && key !in rx.rejected
         && (|| (key in rx.completed && k < rx.completed[key].chunkCount)
             || (key !in rx.completed && key in rx.incoming
                 && k <= rx.incoming[key].nextChunkIndex <= k + 1 && k < rx.incoming[key].chunkCount))
         && (key in rx.incoming ==> rx.incoming[key].totalSize == |send.file|)
  {
    var send := SendOf(s, p, i);
    var key := MakeIncomingFileKey(p, i);
    OwnerOfKey(p, i);
    assert SenderOk(s, p, i) && BegunOk(s, Mark(send.dest, key));
    var rx := s.clients[send.dest].files.rx;
    assert ReceiverOk(s, send.dest) && FaithfulAt(s, send.dest, rx, key) && KeyInv(rx, key);
    if send.phase.item.index > 0 {
      assert AcceptedOk(s, ChunkMark(send.dest, key, send.phase.item.index - 1));
    }
  }

  /** Deliveries while nothing fails: the current chunk is acknowledged, whatever arrived before. */
  lemma CurrentChunkIsAcked(rx: Receiver, peer: string, p: Packet, now: int)
    requires p.Data?
    requires
      var key := MakeIncomingFileKey(peer, p.transferId);
      && key !in rx.rejected
      && (|| (key in rx.completed && p.chunkIndex < rx.completed[key].chunkCount)
          || (key !in rx.completed && key in rx.incoming
              && p.chunkIndex <= rx.incoming[key].nextChunkIndex && p.chunkIndex < rx.incoming[key].chunkCount))
      && (key in rx.incoming ==> |p.payload| == ChunkSize(rx.incoming[key].totalSize, p.chunkIndex))
    ensures HandlePacket(rx, peer, p, now, WORKING).1 == Some(Ack(p.transferId, p.chunkIndex))
  {
  }

  /** The metadata is welcome: already held, or nothing stands between it and being entered. */
  predicate Welcome(rx: Receiver, key: string) {
    key !in rx.rejected && (Held(rx, key) || !rx.approvalRequired)
  }

  lemma WelcomeMetaIsAcked(rx: Receiver, peer: string, p: Packet, now: int)
    requires p.Meta? && Welcome(rx, MakeIncomingFileKey(peer, p.transferId))
    ensures HandlePacket(rx, peer, p, now, WORKING).1 == Some(Ack(p.transferId, FILE_META_CHUNK_INDEX))
  {
  }

  function CurrentPacket(s: System, p: string, i: nat): Envelope
    requires HasSend(s, p, i)
  {
    var send := SendOf(s, p, i);
    Envelope(p, send.dest, FS.PacketFor(send, send.phase.item))
  }

  function CurrentAck(s: System, p: string, i: nat): Envelope
    requires HasSend(s, p, i)
  {
    var send := SendOf(s, p, i);
    Envelope(send.dest, p, Ack(i, FS.AckIndex(send.phase.item)))
  }

  /** Delivering `e` at `now` to a peer that is there and lets the transfer go on. */
  ghost predicate Received(s: System, p: string, i: nat, step: Step) {
    && HasSend(s, p, i) && SendOf(s, p, i).dest in s.clients
    && step.Deliver? && step.envelope == CurrentPacket(s, p, i) && step.io == WORKING
    && s.clients[SendOf(s, p, i).dest].clock <= step.now
    && (SendOf(s, p, i).phase.item.Metadata? ==>
          && |SendOf(s, p, i).fileName| <= MAX_FILE_NAME_BYTES
          && Welcome(Cleanup(s.clients[SendOf(s, p, i).dest].files.rx, step.now), MakeIncomingFileKey(p, i)))
  }

  lemma DeliverIsDeliverTo(s: System, e: Envelope, now: int, io: Io)
    requires Inv(s) && e in s.wire && e.dst in s.clients && s.clients[e.dst].clock <= now
    ensures Fits(e.packet) && Apply(s, Deliver(e, now, io)) == DeliverTo(s, e, Body(e.packet), now, io)
  {
    assert PacketOk(s, e);
    FilePacketIsNotStun(e.packet);
  }

  lemma RequestResponds(s: System, e: Envelope, now: int, io: Io)
    requires e.dst in s.clients && Fits(e.packet) && Acceptable(e.packet) && (e.packet.Meta? || e.packet.Data?)
    ensures
      var swept := Sweep(s, e.dst, now);
      var (post, response) := HandlePacket(Cleanup(s.clients[e.dst].files.rx, now), e.src, e.packet, now, io);
      DeliverTo(s, e, Body(e.packet), now, io) == Respond(swept, e.dst, e.src, post, response)
  {
    HandleIncomingEncoded(s.clients[e.dst].files, e.src, e.packet, now, io);
  }

  /** The current packet finds a table that answers it with the acknowledgement the sender waits for. */
  lemma CurrentPacketIsAcked(s: System, p: string, i: nat, now: int)
    requires Inv(s) && HasSend(s, p, i) && SendOf(s, p, i).dest in s.clients
    requires Mark(SendOf(s, p, i).dest, MakeIncomingFileKey(p, i)) !in s.log.lost
    requires SendOf(s, p, i).phase.item.Metadata? ==>
      Welcome(s.clients[SendOf(s, p, i).dest].files.rx, MakeIncomingFileKey(p, i))
    ensures
      var e := CurrentPacket(s, p, i);
      HandlePacket(s.clients[e.dst].files.rx, p, e.packet, now, WORKING).1 == Some(CurrentAck(s, p, i).packet)
  {
    var send := SendOf(s, p, i);
    var e := CurrentPacket(s, p, i);
    assert SenderOk(s, p, i);
    if send.phase.item.Chunk? {
      ChunksRebuildFile(send.file, send.phase.item.index);
      ReceiverKeepsUp(s, p, i);
      CurrentChunkIsAcked(s.clients[e.dst].files.rx, p, e.packet, now);
    } else {
      WelcomeMetaIsAcked(s.clients[e.dst].files.rx, p, e.packet, now);
    }
  }

  lemma RespondedIsOnWire(s: System, r: string, peer: string, post: Receiver, response: Option<Packet>)
    requires r in s.clients && response.Some?
    ensures Envelope(r, peer, response.value) in Respond(s, r, peer, post, response).wire
    ensures s.log.lost <= Respond(s, r, peer, post, response).log.lost
  {
  }

  /** One delivery of the sender's current packet puts its acknowledgement on the wire. */
  lemma ReceivedIsAnswered(s: System, p: string, i: nat, step: Step)
    requires Inv(s) && Received(s, p, i, step) && step.envelope in s.wire
    requires Mark(SendOf(s, p, i).dest, MakeIncomingFileKey(p, i)) !in Apply(s, step).log.lost
    ensures CurrentAck(s, p, i) in Apply(s, step).wire
  {
    var e, now := step.envelope, step.now;
    assert SenderOk(s, p, i);
    DeliverIsDeliverTo(s, e, now, WORKING);
    RequestResponds(s, e, now, WORKING);
    SweepKeepsInv(s, e.dst, now);
    SweptSendIsSame(s, e.dst, now, p, i);
    var swept := Sweep(s, e.dst, now);
    var (post, response) := HandlePacket(Cleanup(s.clients[e.dst].files.rx, now), e.src, e.packet, now, WORKING);
    if response.Some? {
      RespondedIsOnWire(swept, e.dst, e.src, post, response);
    }
    assert swept.log.lost <= Respond(swept, e.dst, e.src, post, response).log.lost;
    CurrentPacketIsAcked(swept, p, i, now);
  }

  lemma SweptSendIsSame(s: System, r: string, now: int, p: string, i: nat)
    requires r in s.clients && HasSend(s, p, i)
    ensures HasSend(Sweep(s, r, now), p, i) && SendOf(Sweep(s, r, now), p, i) == SendOf(s, p, i)
    ensures Sweep(s, r, now).clients[r].files.rx == Cleanup(s.clients[r].files.rx, now)
  {
  }

  // ---------------------------------------------------------------- what other steps leave alone

  /** Every step but the worker's own and a stop of its client. */
  predicate Foreign(step: Step, p: string, i: nat) {
    !(step.Advance? && step.client == p && step.id == i) && !(step.StopClient? && step.client == p)
  }

  ghost predicate Waiting(s: System, p: string, i: nat, send: FS.Send) {
    HasSend(s, p, i) && SendOf(s, p, i) == send && s.clients[p].running
  }

  predicate HasAck(s: System, p: string, i: nat, k: nat) {
    p in s.clients && MakeFileAckKey(i, k) in s.clients[p].files.acks
  }

  predicate HasReject(s: System, p: string, i: nat) {
    p in s.clients && i in s.clients[p].files.rejects
  }

  /** The sending state of `p` is untouched, apart from answers that came in. */
  ghost predicate Untouched(s: System, t: System, p: string) {
    && p in s.clients && p in t.clients && s.wire <= t.wire && s.log.lost <= t.log.lost
    && t.clients[p].sends == s.clients[p].sends && t.clients[p].running == s.clients[p].running
    && s.clients[p].files.acks <= t.clients[p].files.acks
    && s.clients[p].files.rejects <= t.clients[p].files.rejects
  }

  lemma ReceiverStepsLeave(s: System, r: string, now: int, peer: string, post: Receiver, response: Option<Packet>,
                           p: string)
    requires r in s.clients && p in s.clients
    ensures Untouched(s, Tick(s, r, now), p)
    ensures Untouched(s, SetReceiver(s, r, post), p)
    ensures Untouched(s, Respond(s, r, peer, post, response), p)
  {
  }

  lemma SweepLeaves(s: System, r: string, now: int, p: string)
    requires r in s.clients && p in s.clients
    ensures Untouched(s, Sweep(s, r, now), p)
  {
  }

  lemma DeliverToLeaves(s: System, e: Envelope, body: seq<byte>, now: int, io: Io, p: string)
    requires e.dst in s.clients && p in s.clients
    ensures Untouched(s, DeliverTo(s, e, body, now, io), p)
  {
  }

  lemma UserAcceptsLeaves(s: System, r: string, peer: string, id: nat, now: int, io: Io, p: string)
    requires p in s.clients
    ensures Untouched(s, Apply(s, UserAccepts(r, peer, id, now, io)), p)
  {
    if r in s.clients {
      SweepLeaves(s, r, now, p);
      var swept := Sweep(s, r, now);
      var (post, response) := Accept(swept.clients[r].files.rx, peer, id, now, io);
      var m := Mark(r, MakeIncomingFileKey(peer, id));
      ReceiverStepsLeave(if response.Some? then Approve(swept, m) else swept, r, now, peer, post, response, p);
    }
  }

  lemma UserDeclinesLeaves(s: System, r: string, peer: string, id: nat, now: int, p: string)
    requires p in s.clients
    ensures Untouched(s, Apply(s, UserDeclines(r, peer, id, now)), p)
  {
  }

  lemma UserPollsLeaves(s: System, r: string, now: int, p: string)
    requires p in s.clients
    ensures Untouched(s, Apply(s, UserPolls(r, now)), p)
  {
  }

  /** A wait takes away at most its own acknowledgement and its own rejection. */
  lemma WaitTakesOnlyItsOwn(c: Client, send: FS.Send, readOk: bool, sendOk: bool, i: nat, k: nat)
    requires send.transferId != i && k < TWO32 && FS.AckIndex(send.phase.item) < TWO32
    ensures
      var files := NextEvent(c, send, readOk, sendOk).0;
      && (MakeFileAckKey(i, k) in c.files.acks ==> MakeFileAckKey(i, k) in files.acks)
      && (i in c.files.rejects ==> i in files.rejects)
  {
  }

  /** What a step of one worker changes of the other ones. */
  lemma AdvanceShape(s: System, q: string, j: nat, readOk: bool, sendOk: bool)
    requires HasSend(s, q, j)
    ensures
      var t := Apply(s, FileNetwork.Advance(q, j, readOk, sendOk));
      && s.wire <= t.wire && t.log == s.log && t.clients.Keys == s.clients.Keys
      && (forall c :: c in s.clients && c != q ==> t.clients[c] == s.clients[c])
      && t.clients[q].running == s.clients[q].running
      && t.clients[q].files == NextEvent(s.clients[q], SendOf(s, q, j), readOk, sendOk).0
      && (forall i :: i in s.clients[q].sends && i != j ==>
            i in t.clients[q].sends && t.clients[q].sends[i] == s.clients[q].sends[i])
  {
    hide NextEvent, FS.Step, FS.Emitted;
  }

  lemma ForeignAdvanceLeaves(s: System, q: string, j: nat, readOk: bool, sendOk: bool, p: string, i: nat, k: nat)
    requires Inv(s) && HasSend(s, p, i) && HasSend(s, q, j) && (q != p || j != i) && k < TWO32
    ensures
      var t := Apply(s, FileNetwork.Advance(q, j, readOk, sendOk));
      && s.wire <= t.wire && t.log == s.log
      && HasSend(t, p, i) && SendOf(t, p, i) == SendOf(s, p, i) && t.clients[p].running == s.clients[p].running
      && (HasAck(s, p, i, k) ==> HasAck(t, p, i, k)) && (HasReject(s, p, i) ==> HasReject(t, p, i))
  {
    assert SenderOk(s, q, j);
    hide FileNetwork.Inv, Apply, NextEvent, MakeFileAckKey;
    AdvanceShape(s, q, j, readOk, sendOk);
    if q == p {
      WaitTakesOnlyItsOwn(s.clients[q], SendOf(s, q, j), readOk, sendOk, i, k);
    }
  }

  /** Foreign steps leave the worker and its client running, keep its acknowledgements and the wire. */
  lemma ForeignStepLeaves(s: System, step: Step, p: string, i: nat, send: FS.Send, k: nat)
    requires Inv(s) && Waiting(s, p, i, send) && Foreign(step, p, i) && k < TWO32
    ensures Waiting(Apply(s, step), p, i, send)
    ensures s.wire <= Apply(s, step).wire && s.log.lost <= Apply(s, step).log.lost
    ensures HasAck(s, p, i, k) ==> HasAck(Apply(s, step), p, i, k)
    ensures HasReject(s, p, i) ==> HasReject(Apply(s, step), p, i)
  {
    match step
    case Deliver(e, now, io) =>
      if e in s.wire && e.dst in s.clients && s.clients[e.dst].clock <= now {
        DeliverIsDeliverTo(s, e, now, io);
        DeliverToLeaves(s, e, Body(e.packet), now, io, p);
      }
    case Advance(q, j, readOk, sendOk) =>
      if HasSend(s, q, j) {
        ForeignAdvanceLeaves(s, q, j, readOk, sendOk, p, i, k);
      }
    case UserAccepts(r, peer, id, now, io) => UserAcceptsLeaves(s, r, peer, id, now, io, p);
    case UserDeclines(r, peer, id, now) => UserDeclinesLeaves(s, r, peer, id, now, p);
    case UserPolls(r, now) => UserPollsLeaves(s, r, now, p);
    case StopClient(r) => StopLeaves(s, r, p);
    case StartSend(q, dest, name, file) => StartSendLeaves(s, q, dest, name, file, p, i);
  }

  lemma StopLeaves(s: System, r: string, p: string)
    requires p in s.clients && r != p
    ensures Untouched(s, Apply(s, StopClient(r)), p)
  {
  }

  lemma StartSendLeaves(s: System, q: string, dest: string, name: seq<byte>, file: seq<byte>, p: string, i: nat)
    requires HasSend(s, p, i)
    ensures
      var t := Apply(s, StartSend(q, dest, name, file));
      && t.wire == s.wire && t.log == s.log
      && HasSend(t, p, i) && SendOf(t, p, i) == SendOf(s, p, i) && t.clients[p].running == s.clients[p].running
      && t.clients[p].files == s.clients[p].files
  {
  }

  lemma {:induction false} ForeignStepsLeave(s: System, steps: seq<Step>, p: string, i: nat, send: FS.Send, k: nat)
    requires Inv(s) && Waiting(s, p, i, send) && k < TWO32
    requires forall j :: 0 <= j < |steps| ==> Foreign(steps[j], p, i)
    ensures var t := Execute(s, steps);
      && Inv(t) && Waiting(t, p, i, send) && s.wire <= t.wire && s.log.lost <= t.log.lost
      && (HasAck(s, p, i, k) ==> HasAck(t, p, i, k)) && (HasReject(s, p, i) ==> HasReject(t, p, i))
  {
    if steps != [] {
      var init, last := steps[..|steps| - 1], steps[|steps| - 1];
      ForeignStepsLeave(s, init, p, i, send, k);
      StepKeepsInv(Execute(s, init), last);
      ForeignStepLeaves(Execute(s, init), last, p, i, send, k);
    }
  }

  lemma {:induction false} ExecuteSplits(s: System, steps: seq<Step>, j: nat)
    requires j <= |steps|
    ensures Execute(s, steps) == Execute(Execute(s, steps[..j]), steps[j..])
  {
    if j < |steps| {
      var init := steps[..|steps| - 1];
      ExecuteSplits(s, init, j);
      assert init[..j] == steps[..j] && steps[j..][..|steps| - j - 1] == init[j..];
    } else {
      assert steps[..j] == steps && steps[j..] == [];
    }
  }

  // ---------------------------------------------------------------- rounds

  /** One attempt: the worker sends, anything foreign happens, the worker's wait ends. */
  datatype Round = Round(sendOk: bool, between: seq<Step>)

  function WorkerStep(s: System, p: string, i: nat, sendOk: bool): System {
    Apply(s, FileNetwork.Advance(p, i, true, sendOk))
  }

  /** Between two rounds the worker stands at the head of a retry loop, or has finished. */
  function Settle(s: System, p: string, i: nat): System {
    if HasSend(s, p, i) && SendOf(s, p, i).phase.Start? then WorkerStep(s, p, i, false) else s
  }

  function AfterSend(s: System, p: string, i: nat, round: Round): System {
    Execute(WorkerStep(s, p, i, round.sendOk), round.between)
  }

  /** The end of a round, from the state in which the wait (if any) ends. */
  function EndRound(u: System, p: string, i: nat, sendOk: bool): System {
    Settle(if sendOk then WorkerStep(u, p, i, false) else u, p, i)
  }

  /** A worker that is not trying any more takes no further rounds. */
  function PlayRound(s: System, p: string, i: nat, round: Round): System {
    if HasSend(s, p, i) && SendOf(s, p, i).phase.Trying? then
      EndRound(AfterSend(s, p, i, round), p, i, round.sendOk)
    else s
  }

  function PlayRounds(s: System, p: string, i: nat, rounds: seq<Round>): System {
    if rounds == [] then s else PlayRound(PlayRounds(s, p, i, rounds[..|rounds| - 1]), p, i, rounds[|rounds| - 1])
  }

  /** The packet of this attempt is delivered and welcome, and later its acknowledgement is delivered. */
  ghost predicate GetsThrough(s: System, p: string, i: nat, round: Round) {
    && round.sendOk
    && exists a, b :: 0 <= a < b < |round.between|
         && Received(Execute(WorkerStep(s, p, i, true), round.between[..a]), p, i, round.between[a])
         && AnswerDelivered(Execute(WorkerStep(s, p, i, true), round.between[..b]), p, i, round.between[b])
  }

  ghost predicate AnswerDelivered(s: System, p: string, i: nat, step: Step) {
    && HasSend(s, p, i)
    && step.Deliver? && step.envelope == CurrentAck(s, p, i) && s.clients[p].clock <= step.now
  }

  /** The worker is about to make one of its allowed attempts. */
  ghost predicate Trying(s: System, p: string, i: nat) {
    && Inv(s) && HasSend(s, p, i) && s.clients[p].running
    && SendOf(s, p, i).phase.Trying? && SendOf(s, p, i).phase.used < FS.Retries(SendOf(s, p, i).phase.item)
  }

  ghost predicate NotLost(s: System, p: string, i: nat) {
    HasSend(s, p, i) && Mark(SendOf(s, p, i).dest, MakeIncomingFileKey(p, i)) !in s.log.lost
  }

  /** Nothing in the round stops the client, acts for the worker, or has the peer's rejection come in. */
  ghost predicate Undisturbed(s: System, p: string, i: nat, round: Round) {
    && (forall j :: 0 <= j < |round.between| ==> Foreign(round.between[j], p, i))
    && (p in AfterSend(s, p, i, round).clients ==> i !in AfterSend(s, p, i, round).clients[p].files.rejects)
  }

  /** What one step of the worker does to the network when it is not waiting. */
  lemma BusyStep(s: System, p: string, i: nat, readOk: bool, sendOk: bool)
    requires HasSend(s, p, i) && !SendOf(s, p, i).phase.Awaiting?
    ensures
      var t := Apply(s, FileNetwork.Advance(p, i, readOk, sendOk));
      var event := FS.Event(s.clients[p].running, readOk, sendOk, Timeout);
      && HasSend(t, p, i) && SendOf(t, p, i) == FS.Step(SendOf(s, p, i), event)
      && t.clients[p].running == s.clients[p].running && t.log == s.log
      && (FS.Emitted(SendOf(s, p, i), event).Some? ==>
            Envelope(p, SendOf(s, p, i).dest, FS.Emitted(SendOf(s, p, i), event).value) in t.wire)
  {
  }

  lemma WorkerSendsOn(s: System, p: string, i: nat, sendOk: bool)
    requires HasSend(s, p, i) && s.clients[p].running && SendOf(s, p, i).phase.Trying?
    requires SendOf(s, p, i).phase.used < FS.Retries(SendOf(s, p, i).phase.item)
    ensures var t := WorkerStep(s, p, i, sendOk);
      && HasSend(t, p, i) && t.clients[p].running && t.log == s.log
      && var send := SendOf(s, p, i); var used := send.phase.used + 1;
         && SendOf(t, p, i) == send.(attempts := send.attempts + 1,
              phase := if sendOk then FS.Awaiting(send.phase.item, used) else FS.Trying(send.phase.item, used))
         && (sendOk ==> CurrentPacket(t, p, i) in t.wire)
  {
  }

  lemma WorkerSends(s: System, p: string, i: nat, sendOk: bool)
    requires Trying(s, p, i)
    ensures var t := WorkerStep(s, p, i, sendOk);
      && Inv(t) && HasSend(t, p, i) && t.clients[p].running && t.log == s.log
      && var send := SendOf(s, p, i); var used := send.phase.used + 1;
         && SendOf(t, p, i) == send.(attempts := send.attempts + 1,
              phase := if sendOk then FS.Awaiting(send.phase.item, used) else FS.Trying(send.phase.item, used))
         && (sendOk ==> CurrentPacket(t, p, i) in t.wire)
  {
    hide FileNetwork.Inv;
    WorkerSendsOn(s, p, i, sendOk);
    AdvanceKeepsInv(s, p, i, true, sendOk);
  }

  lemma WaiterStepsOn(s: System, p: string, i: nat)
    requires HasSend(s, p, i) && s.clients[p].running && SendOf(s, p, i).phase.Awaiting?
    requires i !in s.clients[p].files.rejects && SenderOk(s, p, i)
    ensures var t := WorkerStep(s, p, i, false);
      var send := SendOf(s, p, i);
      && HasSend(t, p, i) && t.clients[p].running && t.log == s.log
      && SendOf(t, p, i) == send.(phase :=
           if HasAck(s, p, i, FS.AckIndex(send.phase.item)) then FS.AfterAck(send, send.phase.item, true)
           else FS.Trying(send.phase.item, send.phase.used))
  {
  }

  /** The wait of a worker whose acknowledgement has come in. */
  lemma AckedWaitAdvances(s: System, p: string, i: nat)
    requires Inv(s) && HasSend(s, p, i) && s.clients[p].running && SendOf(s, p, i).phase.Awaiting?
    requires i !in s.clients[p].files.rejects
    ensures var t := WorkerStep(s, p, i, false);
      var send := SendOf(s, p, i);
      && Inv(t) && HasSend(t, p, i) && t.clients[p].running && t.log == s.log
      && SendOf(t, p, i) == send.(phase :=
           if HasAck(s, p, i, FS.AckIndex(send.phase.item)) then FS.AfterAck(send, send.phase.item, true)
           else FS.Trying(send.phase.item, send.phase.used))
  {
    assert SenderOk(s, p, i);
    hide FileNetwork.Inv, SenderOk;
    AdvanceKeepsInv(s, p, i, true, false);
    WaiterStepsOn(s, p, i);
  }

  lemma SettleStarts(s: System, p: string, i: nat)
    requires Inv(s) && HasSend(s, p, i) && s.clients[p].running
    ensures var t := Settle(s, p, i); var send := SendOf(s, p, i);
      && Inv(t) && HasSend(t, p, i) && t.clients[p].running && t.log == s.log
      && SendOf(t, p, i) ==
           if send.phase.Start? then send.(phase := FS.Trying(send.phase.item, 0)) else send
  {
    if SendOf(s, p, i).phase.Start? {
      AdvanceKeepsInv(s, p, i, true, false);
    }
  }

  /** From any point of a foreign stretch to its end, the worker stays as it is and what it needs stays. */
  lemma Later(s: System, steps: seq<Step>, j: nat, p: string, i: nat, send: FS.Send, k: nat)
    requires Inv(s) && Waiting(s, p, i, send) && k < TWO32 && j <= |steps|
    requires forall l :: 0 <= l < |steps| ==> Foreign(steps[l], p, i)
    ensures var u := Execute(s, steps[..j]); var t := Execute(s, steps);
      && Inv(u) && Waiting(u, p, i, send) && s.wire <= u.wire
      && Inv(t) && Waiting(t, p, i, send)
      && u.wire <= t.wire && u.log.lost <= t.log.lost && (HasAck(u, p, i, k) ==> HasAck(t, p, i, k))
  {
    hide FileNetwork.Inv;
    ForeignStepsLeave(s, steps[..j], p, i, send, k);
    ExecuteSplits(s, steps, j);
    ForeignStepsLeave(Execute(s, steps[..j]), steps[j..], p, i, send, k);
  }

  lemma ExecuteNext(s: System, steps: seq<Step>, j: nat)
    requires j < |steps|
    ensures Execute(s, steps[..j + 1]) == Apply(Execute(s, steps[..j]), steps[j])
  {
    assert steps[..j + 1][..j] == steps[..j];
  }

  lemma AnswerOutlasts(u: System, v: System, t: System, step: Step, p: string, i: nat, send: FS.Send)
    requires Inv(u) && Waiting(u, p, i, send) && CurrentPacket(u, p, i) in u.wire && Received(u, p, i, step)
    requires v == Apply(u, step) && v.wire <= t.wire && v.log.lost <= t.log.lost
    requires Waiting(t, p, i, send) && NotLost(t, p, i)
    ensures CurrentAck(u, p, i) in t.wire
  {
    ReceivedIsAnswered(u, p, i, step);
  }

  /** After the packet's delivery its acknowledgement is on the wire, from then on. */
  lemma AnswerStaysOnWire(s: System, steps: seq<Step>, a: nat, p: string, i: nat, send: FS.Send, k: nat)
    requires Inv(s) && Waiting(s, p, i, send) && k < TWO32 && CurrentPacket(s, p, i) in s.wire
    requires forall l :: 0 <= l < |steps| ==> Foreign(steps[l], p, i)
    requires a < |steps| && Received(Execute(s, steps[..a]), p, i, steps[a])
    requires NotLost(Execute(s, steps), p, i)
    ensures CurrentAck(s, p, i) in Execute(s, steps).wire
  {
    Later(s, steps, a, p, i, send, k);
    Later(s, steps, a + 1, p, i, send, k);
    ExecuteNext(s, steps, a);
    AnswerOutlasts(Execute(s, steps[..a]), Execute(s, steps[..a + 1]), Execute(s, steps), steps[a], p, i, send);
  }

  /** The acknowledgement, once on the wire and delivered, is there when the wait ends. */
  lemma AckStays(s: System, steps: seq<Step>, b: nat, p: string, i: nat, send: FS.Send)
    requires Inv(s) && Waiting(s, p, i, send) && FS.AckIndex(send.phase.item) < TWO32
    requires forall l :: 0 <= l < |steps| ==> Foreign(steps[l], p, i)
    requires b < |steps| && AnswerDelivered(Execute(s, steps[..b]), p, i, steps[b])
    requires CurrentAck(s, p, i) in Execute(s, steps[..b]).wire
    ensures HasAck(Execute(s, steps), p, i, FS.AckIndex(send.phase.item))
  {
    var k := FS.AckIndex(send.phase.item);
    Later(s, steps, b, p, i, send, k);
    Later(s, steps, b + 1, p, i, send, k);
    ExecuteNext(s, steps, b);
    AckComesIn(Execute(s, steps[..b]), steps[b], p, i);
  }

  lemma NotLostEarlier(s: System, steps: seq<Step>, b: nat, p: string, i: nat, send: FS.Send)
    requires Inv(s) && Waiting(s, p, i, send) && b <= |steps| && NotLost(Execute(s, steps), p, i)
    requires forall l :: 0 <= l < |steps| ==> Foreign(steps[l], p, i)
    ensures NotLost(Execute(s, steps[..b]), p, i)
  {
    Later(s, steps, b, p, i, send, 0);
  }

  lemma AnswerOnWireBefore(s: System, steps: seq<Step>, a: nat, b: nat, p: string, i: nat, send: FS.Send)
    requires Inv(s) && Waiting(s, p, i, send) && FS.AckIndex(send.phase.item) < TWO32
    requires CurrentPacket(s, p, i) in s.wire && NotLost(Execute(s, steps), p, i)
    requires forall l :: 0 <= l < |steps| ==> Foreign(steps[l], p, i)
    requires a < b < |steps| && Received(Execute(s, steps[..a]), p, i, steps[a])
    ensures CurrentAck(s, p, i) in Execute(s, steps[..b]).wire
  {
    hide FileNetwork.Inv;
    var before := steps[..b];
    assert before[..a] == steps[..a] && before[a] == steps[a];
    NotLostEarlier(s, steps, b, p, i, send);
    AnswerStaysOnWire(s, before, a, p, i, send, FS.AckIndex(send.phase.item));
  }

  lemma AttemptBringsAck(s: System, steps: seq<Step>, a: nat, b: nat, p: string, i: nat, send: FS.Send)
    requires Inv(s) && Waiting(s, p, i, send) && FS.AckIndex(send.phase.item) < TWO32
    requires CurrentPacket(s, p, i) in s.wire && NotLost(Execute(s, steps), p, i)
    requires forall l :: 0 <= l < |steps| ==> Foreign(steps[l], p, i)
    requires a < b < |steps|
    requires Received(Execute(s, steps[..a]), p, i, steps[a])
    requires AnswerDelivered(Execute(s, steps[..b]), p, i, steps[b])
    ensures HasAck(Execute(s, steps), p, i, FS.AckIndex(send.phase.item))
  {
    AnswerOnWireBefore(s, steps, a, b, p, i, send);
    AckStays(s, steps, b, p, i, send);
  }

  lemma AckIndexFits(s: System, p: string, i: nat)
    requires Inv(s) && HasSend(s, p, i)
    ensures FS.AckIndex(SendOf(s, p, i).phase.item) < TWO32
  {
  }

  /** The answer of an attempt that gets through is there when the worker's wait ends. */
  lemma GettingThroughBringsAck(s: System, p: string, i: nat, round: Round)
    requires Trying(s, p, i) && Undisturbed(s, p, i, round) && GetsThrough(s, p, i, round)
    requires NotLost(AfterSend(s, p, i, round), p, i)
    ensures HasAck(AfterSend(s, p, i, round), p, i, FS.AckIndex(SendOf(s, p, i).phase.item))
  {
    WorkerSends(s, p, i, true);
    var t := WorkerStep(s, p, i, true);
    var steps := round.between;
    var a, b :| 0 <= a < b < |steps|
      && Received(Execute(t, steps[..a]), p, i, steps[a])
      && AnswerDelivered(Execute(t, steps[..b]), p, i, steps[b]);
    AckIndexFits(s, p, i);
    AttemptBringsAck(t, steps, a, b, p, i, SendOf(t, p, i));
  }

  lemma AckComesIn(s: System, step: Step, p: string, i: nat)
    requires Inv(s) && AnswerDelivered(s, p, i, step) && step.envelope in s.wire
    ensures HasAck(Apply(s, step), p, i, FS.AckIndex(SendOf(s, p, i).phase.item))
  {
    DeliverIsDeliverTo(s, step.envelope, step.now, step.io);
    HandleIncomingEncoded(s.clients[p].files, step.envelope.src, step.envelope.packet, step.now, step.io);
  }

  // ---------------------------------------------------------------- whole transfers

  /** What a round does to the worker: used up one attempt, or moved on to the next item. */
  ghost predicate RoundResult(before: FS.Send, after: FS.Send, advanced: bool)
    requires before.phase.Trying?
  {
    && after.dest == before.dest && after.file == before.file
    && var item := before.phase.item;
       if !advanced then after.phase == FS.Trying(item, before.phase.used + 1)
       else
         var next := FS.AfterAck(before, item, true);
         after.phase == if next.Start? then FS.Trying(next.item, 0) else next
  }

  /** The worker advances in a round exactly when its acknowledgement is there at the end of its wait. */
  ghost predicate RoundAdvances(s: System, p: string, i: nat, round: Round)
    requires HasSend(s, p, i)
  {
    round.sendOk && HasAck(AfterSend(s, p, i, round), p, i, FS.AckIndex(SendOf(s, p, i).phase.item))
  }

  lemma SendingRound(s: System, p: string, i: nat, round: Round)
    requires Trying(s, p, i) && Undisturbed(s, p, i, round)
    ensures var u := AfterSend(s, p, i, round);
      && Inv(u) && HasSend(u, p, i) && u.clients[p].running && s.log.lost <= u.log.lost
      && HasSend(WorkerStep(s, p, i, round.sendOk), p, i)
      && SendOf(u, p, i) == SendOf(WorkerStep(s, p, i, round.sendOk), p, i)
  {
    WorkerSends(s, p, i, round.sendOk);
    AckIndexFits(s, p, i);
    var t := WorkerStep(s, p, i, round.sendOk);
    ForeignStepsLeave(t, round.between, p, i, SendOf(t, p, i), FS.AckIndex(SendOf(s, p, i).phase.item));
  }

  lemma EndOfSentRound(u: System, p: string, i: nat)
    requires Inv(u) && HasSend(u, p, i) && u.clients[p].running && SendOf(u, p, i).phase.Awaiting?
    requires i !in u.clients[p].files.rejects
    ensures var t := EndRound(u, p, i, true); var send := SendOf(u, p, i);
      && Inv(t) && HasSend(t, p, i) && t.clients[p].running && t.log == u.log
      && SendOf(t, p, i).dest == send.dest && SendOf(t, p, i).file == send.file
      && SendOf(t, p, i).phase ==
           if !HasAck(u, p, i, FS.AckIndex(send.phase.item)) then FS.Trying(send.phase.item, send.phase.used)
           else
             var next := FS.AfterAck(send, send.phase.item, true);
             if next.Start? then FS.Trying(next.item, 0) else next
  {
    AckedWaitAdvances(u, p, i);
    SettleStarts(WorkerStep(u, p, i, false), p, i);
  }

  /** The worker's state after the sending step of a round. */
  lemma SentItem(s: System, p: string, i: nat, sendOk: bool)
    requires Trying(s, p, i)
    ensures var t := WorkerStep(s, p, i, sendOk);
      && HasSend(t, p, i)
      && var send := SendOf(s, p, i); var used := send.phase.used + 1;
         && SendOf(t, p, i).dest == send.dest && SendOf(t, p, i).file == send.file
         && SendOf(t, p, i).phase ==
              if sendOk then FS.Awaiting(send.phase.item, used) else FS.Trying(send.phase.item, used)
  {
    WorkerSends(s, p, i, sendOk);
  }

  lemma AfterSendState(s: System, p: string, i: nat, round: Round)
    requires Trying(s, p, i) && Undisturbed(s, p, i, round)
    ensures var u := AfterSend(s, p, i, round);
      && Inv(u) && HasSend(u, p, i) && u.clients[p].running && s.log.lost <= u.log.lost
      && var send := SendOf(s, p, i); var used := send.phase.used + 1;
         && SendOf(u, p, i).dest == send.dest && SendOf(u, p, i).file == send.file
         && SendOf(u, p, i).phase ==
              if round.sendOk then FS.Awaiting(send.phase.item, used) else FS.Trying(send.phase.item, used)
  {
    SentItem(s, p, i, round.sendOk);
    SendingRound(s, p, i, round);
  }

  /** What a round ends with, given the state in which its wait ends. */
  ghost predicate RoundEnds(s: System, u: System, t: System, p: string, i: nat, sendOk: bool)
    requires HasSend(s, p, i) && SendOf(s, p, i).phase.Trying?
  {
    && Inv(t) && HasSend(t, p, i) && t.clients[p].running && HasSend(u, p, i)
    && s.log.lost <= t.log.lost && u.log.lost == t.log.lost
    && SendOf(u, p, i).dest == SendOf(t, p, i).dest
    && RoundResult(SendOf(s, p, i), SendOf(t, p, i),
                   sendOk && HasAck(u, p, i, FS.AckIndex(SendOf(s, p, i).phase.item)))
  }

  lemma RoundEndsWell(s: System, u: System, p: string, i: nat, sendOk: bool)
    requires HasSend(s, p, i) && SendOf(s, p, i).phase.Trying?
    requires Inv(u) && HasSend(u, p, i) && u.clients[p].running && s.log.lost <= u.log.lost
    requires i !in u.clients[p].files.rejects
    requires SendOf(u, p, i).dest == SendOf(s, p, i).dest && SendOf(u, p, i).file == SendOf(s, p, i).file
    requires
      var send := SendOf(s, p, i); var used := send.phase.used + 1;
      SendOf(u, p, i).phase == if sendOk then FS.Awaiting(send.phase.item, used) else FS.Trying(send.phase.item, used)
    ensures RoundEnds(s, u, EndRound(u, p, i, sendOk), p, i, sendOk)
  {
    hide FileNetwork.Inv;
    var t := EndRound(u, p, i, sendOk);
    if sendOk {
      EndOfSentRound(u, p, i);
      assert RoundResult(SendOf(s, p, i), SendOf(t, p, i),
                         HasAck(u, p, i, FS.AckIndex(SendOf(s, p, i).phase.item)));
    } else {
      assert t == u;
    }
  }

  lemma RoundOutcome(s: System, p: string, i: nat, round: Round)
    requires Trying(s, p, i) && Undisturbed(s, p, i, round)
    ensures RoundEnds(s, AfterSend(s, p, i, round), PlayRound(s, p, i, round), p, i, round.sendOk)
  {
    AfterSendState(s, p, i, round);
    RoundEndsWell(s, AfterSend(s, p, i, round), p, i, round.sendOk);
  }

  lemma NotLostAfterSend(s: System, p: string, i: nat, round: Round)
    requires Trying(s, p, i) && Undisturbed(s, p, i, round) && NotLost(PlayRound(s, p, i, round), p, i)
    ensures NotLost(AfterSend(s, p, i, round), p, i)
  {
    RoundOutcome(s, p, i, round);
  }

  /**
   * One attempt that gets through advances the sender, whatever else is delivered, sent, answered,
   * accepted or stopped elsewhere in between.
   */
  lemma GettingThroughAdvances(s: System, p: string, i: nat, round: Round)
    requires Trying(s, p, i) && Undisturbed(s, p, i, round) && GetsThrough(s, p, i, round)
    requires NotLost(PlayRound(s, p, i, round), p, i)
    ensures RoundAdvances(s, p, i, round)
    ensures RoundResult(SendOf(s, p, i), SendOf(PlayRound(s, p, i, round), p, i), true)
  {
    NotLostAfterSend(s, p, i, round);
    GettingThroughBringsAck(s, p, i, round);
    RoundOutcome(s, p, i, round);
  }

  /** The worker stands at an attempt it may still make, or has reported success. */
  ghost predicate OnTrack(s: System, p: string, i: nat) {
    && Inv(s) && HasSend(s, p, i)
    && (Trying(s, p, i) || (SendOf(s, p, i).phase.Finished? && SendOf(s, p, i).phase.result == FS.Sent))
  }

  /**
   * The condition on a run of rounds: none is disturbed, and the last attempt a packet is allowed,
   * if it comes to that, gets through.
   */
  ghost predicate Fair(s: System, p: string, i: nat, round: Round) {
    && Undisturbed(s, p, i, round)
    && (HasSend(s, p, i) && SendOf(s, p, i).phase.Trying?
        && SendOf(s, p, i).phase.used + 1 == FS.Retries(SendOf(s, p, i).phase.item) ==>
          GetsThrough(s, p, i, round))
  }

  ghost predicate AllFair(s: System, p: string, i: nat, rounds: seq<Round>) {
    forall j :: 0 <= j < |rounds| ==> Fair(PlayRounds(s, p, i, rounds[..j]), p, i, rounds[j])
  }

  lemma FairRoundStaysOnTrack(s: System, p: string, i: nat, round: Round)
    requires Trying(s, p, i) && Fair(s, p, i, round) && NotLost(PlayRound(s, p, i, round), p, i)
    ensures var t := PlayRound(s, p, i, round);
      && OnTrack(t, p, i) && s.log.lost <= t.log.lost
      && (Trying(t, p, i) ==> FS.Budget(SendOf(t, p, i)) < FS.Budget(SendOf(s, p, i)))
  {
    hide FileNetwork.Inv;
    var t := PlayRound(s, p, i, round);
    RoundOutcome(s, p, i, round);
    if SendOf(s, p, i).phase.used + 1 == FS.Retries(SendOf(s, p, i).phase.item) {
      GettingThroughAdvances(s, p, i, round);
    }
    SendIsSane(s, p, i);
    SendIsSane(t, p, i);
  }

  lemma SendIsSane(s: System, p: string, i: nat)
    requires Inv(s) && HasSend(s, p, i)
    ensures FS.SendInv(SendOf(s, p, i))
  {
    assert SenderOk(s, p, i);
  }

  /** A transfer keeps its destination, and a loss is never forgotten. */
  ghost predicate Persists(s: System, t: System, p: string, i: nat) {
    && HasSend(s, p, i) && HasSend(t, p, i) && SendOf(t, p, i).dest == SendOf(s, p, i).dest
    && s.log.lost <= t.log.lost
  }

  lemma StopPersists(s: System, r: string, p: string, i: nat)
    requires HasSend(s, p, i)
    ensures Persists(s, Apply(s, StopClient(r)), p, i)
  {
  }

  lemma AdvancePersists(s: System, q: string, j: nat, readOk: bool, sendOk: bool, p: string, i: nat)
    requires HasSend(s, p, i)
    ensures Persists(s, Apply(s, FileNetwork.Advance(q, j, readOk, sendOk)), p, i)
  {
  }

  lemma StepPersists(s: System, step: Step, p: string, i: nat)
    requires HasSend(s, p, i)
    ensures Persists(s, Apply(s, step), p, i)
  {
    match step
    case Deliver(e, now, io) =>
      if e.dst in s.clients && Fits(e.packet) && Classify(Encode(e.packet)).File? {
        DeliverToLeaves(s, e, Classify(Encode(e.packet)).payload, now, io, p);
      }
    case Advance(q, j, readOk, sendOk) => AdvancePersists(s, q, j, readOk, sendOk, p, i);
    case UserAccepts(r, peer, id, now, io) => UserAcceptsLeaves(s, r, peer, id, now, io, p);
    case UserDeclines(r, peer, id, now) => UserDeclinesLeaves(s, r, peer, id, now, p);
    case UserPolls(r, now) => UserPollsLeaves(s, r, now, p);
    case StopClient(r) => StopPersists(s, r, p, i);
    case StartSend(q, dest, name, file) => StartSendLeaves(s, q, dest, name, file, p, i);
  }

  lemma {:induction false} StepsPersist(s: System, steps: seq<Step>, p: string, i: nat)
    requires HasSend(s, p, i)
    ensures Persists(s, Execute(s, steps), p, i)
  {
    if steps != [] {
      StepsPersist(s, steps[..|steps| - 1], p, i);
      StepPersists(Execute(s, steps[..|steps| - 1]), steps[|steps| - 1], p, i);
    }
  }

  lemma RoundPersists(s: System, p: string, i: nat, round: Round)
    requires HasSend(s, p, i)
    ensures Persists(s, PlayRound(s, p, i, round), p, i)
  {
    AdvancePersists(s, p, i, true, round.sendOk, p, i);
    StepsPersist(WorkerStep(s, p, i, round.sendOk), round.between, p, i);
    var u := AfterSend(s, p, i, round);
    AdvancePersists(u, p, i, true, false, p, i);
    var v := if round.sendOk then WorkerStep(u, p, i, false) else u;
    AdvancePersists(v, p, i, true, false, p, i);
  }

  lemma {:induction false} RoundsPersist(s: System, p: string, i: nat, rounds: seq<Round>)
    requires HasSend(s, p, i)
    ensures Persists(s, PlayRounds(s, p, i, rounds), p, i)
  {
    if rounds != [] {
      RoundsPersist(s, p, i, rounds[..|rounds| - 1]);
      RoundPersists(PlayRounds(s, p, i, rounds[..|rounds| - 1]), p, i, rounds[|rounds| - 1]);
    }
  }

  /** Along fair rounds in which the receiver never loses the transfer, the worker stays on track. */
  lemma {:induction false} FairRoundsStayOnTrack(s: System, p: string, i: nat, rounds: seq<Round>)
    requires Trying(s, p, i) && AllFair(s, p, i, rounds) && NotLost(PlayRounds(s, p, i, rounds), p, i)
    ensures var t := PlayRounds(s, p, i, rounds);
      && OnTrack(t, p, i)
      && (Trying(t, p, i) ==> FS.Budget(SendOf(t, p, i)) <= FS.Budget(SendOf(s, p, i)) - |rounds|)
  {
    hide FileNetwork.Inv;
    if rounds != [] {
      var init, last := rounds[..|rounds| - 1], rounds[|rounds| - 1];
      var u := PlayRounds(s, p, i, init);
      assert forall j :: 0 <= j < |init| ==> init[..j] == rounds[..j];
      RoundsPersist(s, p, i, init);
      RoundPersists(u, p, i, last);
      FairRoundsStayOnTrack(s, p, i, init);
      if Trying(u, p, i) {
        assert Fair(PlayRounds(s, p, i, rounds[..|init|]), p, i, rounds[|init|]);
        FairRoundStaysOnTrack(u, p, i, last);
      }
    }
  }

  /**
   * A sender succeeds whenever every packet has an attempt that gets through (its last allowed one at
   * the latest), no wait ends in a rejection, and the receiver never loses the transfer: after at most
   * as many rounds as it has attempts it reports success, and the receiver has stored the file, whole
   * if no close lost bytes.
   */
  lemma FairTransferSucceeds(s: System, p: string, i: nat, rounds: seq<Round>)
    requires Trying(s, p, i) && AllFair(s, p, i, rounds) && NotLost(PlayRounds(s, p, i, rounds), p, i)
    requires |rounds| >= META_LIMIT + CHUNK_LIMIT * FS.Chunks(SendOf(s, p, i))
    ensures var t := PlayRounds(s, p, i, rounds);
      && HasSend(t, p, i) && SendOf(t, p, i).phase.Finished? && SendOf(t, p, i).phase.result == FS.Sent
      && SendOf(t, p, i).dest in t.clients
      && var key, file, files := MakeIncomingFileKey(p, i), SendOf(t, p, i).file,
             t.clients[SendOf(t, p, i).dest].files.rx.files;
         && HasFile(files, key, file)
         && (ClosedCleanly(files, key) ==> StoredFile(key, file, 0) in files)
  {
    FairRoundsStayOnTrack(s, p, i, rounds);
    SendIsSane(s, p, i);
    var t := PlayRounds(s, p, i, rounds);
    SendIsSane(t, p, i);
    SuccessIsStored(t, p, i);
  }

  const META_LIMIT: nat := FS.META_RETRIES
  const CHUNK_LIMIT: nat := FS.CHUNK_RETRIES

  lemma SuccessIsStored(t: System, p: string, i: nat)
    requires Inv(t) && HasSend(t, p, i) && SendOf(t, p, i).phase.Finished? && SendOf(t, p, i).phase.result == FS.Sent
    ensures var send := SendOf(t, p, i);
      && send.dest in t.clients
      && var key, files := MakeIncomingFileKey(p, i), t.clients[send.dest].files.rx.files;
         && HasFile(files, key, send.file)
         && (ClosedCleanly(files, key) ==> StoredFile(key, send.file, 0) in files)
  {
    var send := SendOf(t, p, i);
    OwnerOfKey(p, i);
    assert SenderOk(t, p, i);
    assert AcceptedOk(t, ChunkMark(send.dest, MakeIncomingFileKey(p, i), FS.Chunks(send) - 1));
  }

  // ---------------------------------------------------------------- the conditions can be met

  /** The packet is delivered at once, and then its answer. */
  function QuietRound(s: System, p: string, i: nat, now: int): Round
    requires HasSend(s, p, i)
  {
    Round(true, [Deliver(CurrentPacket(s, p, i), now, WORKING), Deliver(CurrentAck(s, p, i), now, WORKING)])
  }

  ghost predicate ClocksUpTo(s: System, now: int) {
    forall c :: c in s.clients ==> s.clients[c].clock <= now
  }

  lemma SendingChangesNoReceiver(s: System, p: string, i: nat)
    requires Trying(s, p, i)
    ensures var t := WorkerStep(s, p, i, true);
      && HasSend(t, p, i) && CurrentPacket(t, p, i) == CurrentPacket(s, p, i)
      && CurrentAck(t, p, i) == CurrentAck(s, p, i)
      && t.clients.Keys == s.clients.Keys
      && forall c :: c in s.clients ==>
           t.clients[c].files.rx == s.clients[c].files.rx && t.clients[c].clock == s.clients[c].clock
  {
    BusyStep(s, p, i, true, true);
  }

  lemma DeliveryKeepsClocks(s: System, e: Envelope, now: int)
    requires ClocksUpTo(s, now)
    ensures ClocksUpTo(Apply(s, Deliver(e, now, WORKING)), now)
  {
    hide HandleIncoming, Cleanup, CarriesAnswer, Classify, Encode, Fits;
  }

  /** In every state of a worker with attempts left and a receiver that welcomes the transfer, such a round gets
    * through: the conditions of the theorems above can be met at every point of every transfer. */
  lemma QuietRoundGetsThrough(s: System, p: string, i: nat, now: int)
    requires Trying(s, p, i) && SendOf(s, p, i).dest in s.clients && ClocksUpTo(s, now)
    requires SendOf(s, p, i).phase.item.Metadata? ==>
      && |SendOf(s, p, i).fileName| <= MAX_FILE_NAME_BYTES
      && Welcome(Cleanup(s.clients[SendOf(s, p, i).dest].files.rx, now), MakeIncomingFileKey(p, i))
    ensures GetsThrough(s, p, i, QuietRound(s, p, i, now))
  {
    assert HasSend(s, p, i);
    hide Trying, GetsThrough, Received, AnswerDelivered, WorkerStep, Apply, Welcome, FileNetwork.Inv;
    var t := WorkerStep(s, p, i, true);
    AttemptIsUnderWay(s, p, i, now);
    FirstReceived(s, p, i, now);
    FirstDeliveryLeaves(t, p, i, CurrentPacket(s, p, i), now);
    BothThrough(s, p, i, QuietRound(s, p, i, now));
  }

  lemma AttemptIsUnderWay(s: System, p: string, i: nat, now: int)
    requires Trying(s, p, i) && ClocksUpTo(s, now)
    ensures var t := WorkerStep(s, p, i, true);
      && Inv(t) && HasSend(t, p, i) && t.clients[p].running && ClocksUpTo(t, now)
      && CurrentAck(t, p, i) == CurrentAck(s, p, i)
  {
    hide FileNetwork.Inv, WorkerStep;
    WorkerSends(s, p, i, true);
    SendingChangesNoReceiver(s, p, i);
  }

  lemma FirstReceived(s: System, p: string, i: nat, now: int)
    requires Trying(s, p, i) && SendOf(s, p, i).dest in s.clients && ClocksUpTo(s, now)
    requires SendOf(s, p, i).phase.item.Metadata? ==>
      && |SendOf(s, p, i).fileName| <= MAX_FILE_NAME_BYTES
      && Welcome(Cleanup(s.clients[SendOf(s, p, i).dest].files.rx, now), MakeIncomingFileKey(p, i))
    ensures Received(WorkerStep(s, p, i, true), p, i, Deliver(CurrentPacket(s, p, i), now, WORKING))
  {
    hide FileNetwork.Inv, WorkerStep, Welcome;
    WorkerSends(s, p, i, true);
    SendingChangesNoReceiver(s, p, i);
  }

  lemma BothThrough(s: System, p: string, i: nat, round: Round)
    requires HasSend(s, p, i) && round.sendOk && |round.between| == 2
    requires var t := WorkerStep(s, p, i, true);
      && Received(t, p, i, round.between[0])
      && AnswerDelivered(Apply(t, round.between[0]), p, i, round.between[1])
    ensures GetsThrough(s, p, i, round)
  {
    hide Received, AnswerDelivered, WorkerStep, Apply;
    TwoSteps(WorkerStep(s, p, i, true), round.between);
  }

  lemma FirstDeliveryLeaves(t: System, p: string, i: nat, e: Envelope, now: int)
    requires Inv(t) && HasSend(t, p, i) && t.clients[p].running && ClocksUpTo(t, now)
    ensures AnswerDelivered(Apply(t, Deliver(e, now, WORKING)), p, i, Deliver(CurrentAck(t, p, i), now, WORKING))
  {
    DeliveryKeepsClocks(t, e, now);
    ForeignStepLeaves(t, Deliver(e, now, WORKING), p, i, SendOf(t, p, i), 0);
  }

  lemma TwoSteps(t: System, steps: seq<Step>)
    requires |steps| == 2
    ensures Execute(t, steps[..0]) == t && Execute(t, steps[..1]) == Apply(t, steps[0])
  {
    assert steps[..1][..0] == [] && steps[..0] == [];
  }
}
