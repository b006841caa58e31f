/**
 * How a wait of a sender ends, and what becomes of a rejection: it ends the transfer it names, and no other. Also: what
 * happens to a receiver in the network is a sequence of the events that `FileMemory` speaks about.
 */
module FileOutcomes {
  import opened Wrappers
  import opened Bytes
  import opened Datagrams
  import opened FilePackets
  import opened FileReceiver
  import opened FileEndpoint
  import opened FileNetwork
  import opened FileSafety
  import opened FileDelivery
  import FS = FileSender
  import FM = FileMemory

  // ---------------------------------------------------------------- the end of a wait

  /** What the sender does when its wait ends, by what has come in: a stop goes before a rejection, a rejection before
    * an acknowledgement, and without any of them the attempt is over. */
  function NextPhase(send: FS.Send, running: bool, rejected: bool, acked: bool): FS.Phase
    requires send.phase.Awaiting?
  {
    var item := send.phase.item;
    if !running then FS.Finished(item, FS.Failed)
    else if rejected then FS.Finished(item, FS.Declined)
    else if !acked then FS.Trying(item, send.phase.used)
    else if item.Metadata? then FS.Start(FS.Chunk(0))
    else if 1024 * (item.index + 1) < |send.file| then FS.Start(FS.Chunk(item.index + 1))
    else FS.Finished(item, FS.Sent)
  }

  lemma LastChunk(send: FS.Send, index: nat)
    ensures index + 1 < FS.Chunks(send) <==> 1024 * (index + 1) < |send.file|
  {
  }

  lemma PhaseAfterWait(send: FS.Send, event: FS.Event, rejected: bool, acked: bool)
    requires send.phase.Awaiting?
    requires event.wait == if !event.running then Stopped else if rejected then Rejected else if acked then Acked
                           else Timeout
    ensures FS.Step(send, event) == send.(phase := NextPhase(send, event.running, rejected, acked))
  {
    hide FS.Chunks;
    if send.phase.item.Chunk? {
      LastChunk(send, send.phase.item.index);
    }
  }

  lemma AdvanceSteps(s: System, p: string, i: nat, readOk: bool, sendOk: bool)
    requires HasSend(s, p, i)
    ensures var t := Apply(s, FileNetwork.Advance(p, i, readOk, sendOk));
      && HasSend(t, p, i)
      && SendOf(t, p, i) == FS.Step(SendOf(s, p, i), NextEvent(s.clients[p], SendOf(s, p, i), readOk, sendOk).1)
  {
    hide NextEvent, FS.Step, FS.Emitted;
  }

  lemma WaitIsNextEvent(c: Client, send: FS.Send, readOk: bool, sendOk: bool)
    requires send.phase.Awaiting?
    ensures
      var (files, wait) := WaitForAck(c.files, send.transferId, FS.AckIndex(send.phase.item), c.running);
      NextEvent(c, send, readOk, sendOk) == (files, FS.Event(c.running, readOk, sendOk, wait))
  {
    hide WaitForAck;
  }

  lemma TransferIdOf(s: System, p: string, i: nat)
    requires Inv(s) && HasSend(s, p, i)
    ensures SendOf(s, p, i).transferId == i < TWO32
    ensures SendOf(s, p, i).phase.item.Chunk? ==> SendOf(s, p, i).phase.item.index < TWO32
  {
    assert SenderOk(s, p, i);
  }

  /** The wait of any worker in any reachable state; the rejections and acknowledgements of other transfers stay. */
  lemma WaitEnds(s: System, p: string, i: nat, readOk: bool, sendOk: bool)
    requires Inv(s) && HasSend(s, p, i) && SendOf(s, p, i).phase.Awaiting?
    ensures
      var t := Apply(s, FileNetwork.Advance(p, i, readOk, sendOk));
      var c, send := s.clients[p], SendOf(s, p, i);
      var k := if send.phase.item.Metadata? then 0xFFFF_FFFF else send.phase.item.index;
      && HasSend(t, p, i)
      && SendOf(t, p, i) == send.(phase := NextPhase(send, c.running, HasReject(s, p, i), HasAck(s, p, i, k)))
      && !HasAck(t, p, i, k) && !HasReject(t, p, i)
      && (forall j: nat :: j != i ==> (HasReject(t, p, j) <==> HasReject(s, p, j)))
      && (forall j: nat, l: nat :: (j != i || l != k) && j < TWO32 && l < TWO32 ==>
            (HasAck(t, p, j, l) <==> HasAck(s, p, j, l)))
  {
    hide FileNetwork.Inv, Apply, WaitForAck, NextEvent, FS.Step, NextPhase, MakeFileAckKey;
    var c, send := s.clients[p], SendOf(s, p, i);
    TransferIdOf(s, p, i);
    AdvanceSteps(s, p, i, readOk, sendOk);
    AdvanceShape(s, p, i, readOk, sendOk);
    WaitIsNextEvent(c, send, readOk, sendOk);
    var k := FS.AckIndex(send.phase.item);
    WaitTakesItsOwn(c.files, i, k, c.running);
    PhaseAfterWait(send, NextEvent(c, send, readOk, sendOk).1, HasReject(s, p, i), HasAck(s, p, i, k));
  }

  lemma WaitTakesItsOwn(e: Endpoint, i: nat, k: nat, running: bool)
    requires i < TWO32 && k < TWO32
    ensures
      var (post, result) := WaitForAck(e, i, k, running);
      && post.rx == e.rx
      && result == (if !running then Stopped else if i in e.rejects then Rejected
                    else if MakeFileAckKey(i, k) in e.acks then Acked else Timeout)
      && MakeFileAckKey(i, k) !in post.acks && i !in post.rejects
      && (forall j: nat :: j != i ==> (j in post.rejects <==> j in e.rejects))
      && (forall j: nat, l: nat :: (j != i || l != k) && j < TWO32 && l < TWO32 ==>
            (MakeFileAckKey(j, l) in post.acks <==> MakeFileAckKey(j, l) in e.acks))
  {
    forall j: nat, l: nat | (j != i || l != k) && j < TWO32 && l < TWO32
      ensures MakeFileAckKey(j, l) != MakeFileAckKey(i, k)
    {
      if MakeFileAckKey(j, l) == MakeFileAckKey(i, k) {
        FileAckKeyInjective(j, l, i, k);
      }
    }
  }

  // ---------------------------------------------------------------- a rejection ends the send

  lemma RejectionComesIn(s: System, e: Envelope, now: int, io: Io)
    requires Inv(s) && e in s.wire && e.dst in s.clients && s.clients[e.dst].clock <= now && e.packet.Reject?
    ensures HasReject(Apply(s, Deliver(e, now, io)), e.dst, e.packet.transferId)
  {
    hide FileNetwork.Inv, Apply;
    DeliverIsDeliverTo(s, e, now, io);
    DecodeBody(e.packet);
  }

  /**
   * The peer's rejection, delivered to a running client whose worker waits, ends that send as declined at the worker's
   * next step: whatever else happens in between, and whether or not an acknowledgement has come in as well.
   */
  lemma RejectionEndsSend(
      start: System, before: seq<Step>, rejection: Envelope, now: int, io: Io, between: seq<Step>, readOk: bool,
      sendOk: bool)
    requires Initial(start) && rejection.packet.Reject?
    requires
      var s, p, i := Execute(start, before), rejection.dst, rejection.packet.transferId;
      && rejection in s.wire && HasSend(s, p, i) && s.clients[p].running && s.clients[p].clock <= now
      && SendOf(s, p, i).phase.Awaiting?
      && forall j :: 0 <= j < |between| ==> Foreign(between[j], p, i)
    ensures
      var s, p, i := Execute(start, before), rejection.dst, rejection.packet.transferId;
      var u := Execute(Apply(s, Deliver(rejection, now, io)), between);
      var t := Apply(u, FileNetwork.Advance(p, i, readOk, sendOk));
      && HasSend(t, p, i)
      && SendOf(t, p, i) == SendOf(s, p, i).(phase := FS.Finished(SendOf(s, p, i).phase.item, FS.Declined))
      && !HasReject(t, p, i)
  {
    var s, p, i := Execute(start, before), rejection.dst, rejection.packet.transferId;
    var send, deliver := SendOf(s, p, i), Deliver(rejection, now, io);
    assert Foreign(deliver, p, i);
    hide FileNetwork.Inv, Apply, Foreign, NextPhase;
    ReachableInv(start, before);
    ForeignStepLeaves(s, deliver, p, i, send, 0);
    StepKeepsInv(s, deliver);
    RejectionComesIn(s, rejection, now, io);
    ForeignStepsLeave(Apply(s, deliver), between, p, i, send, 0);
    var u := Execute(Apply(s, deliver), between);
    WaitEnds(u, p, i, readOk, sendOk);
    RejectedNext(send, HasAck(u, p, i, if send.phase.item.Metadata? then 0xFFFF_FFFF else send.phase.item.index));
  }

  lemma RejectedNext(send: FS.Send, acked: bool)
    requires send.phase.Awaiting?
    ensures NextPhase(send, true, true, acked) == FS.Finished(send.phase.item, FS.Declined)
  {
  }

  /** The user's refusal of a pending request puts that rejection on the wire. */
  lemma RefusalIsSent(start: System, before: seq<Step>, r: string, p: string, i: nat, now: int)
    requires Initial(start)
    requires
      var s := Execute(start, before);
      r in s.clients && s.clients[r].clock <= now && MakeIncomingFileKey(p, i) in s.clients[r].files.rx.pending
    ensures Envelope(r, p, Reject(i)) in Apply(Execute(start, before), UserDeclines(r, p, i, now)).wire
  {
    hide Execute, Observe;
  }

  // ---------------------------------------------------------------- the receiver's events

  /** What a step of the network is for the receiver of `r`. */
  function EventOf(s: System, step: Step, r: string): Option<FM.Event>
    requires r in s.clients
  {
    var clock := s.clients[r].clock;
    match step
    case Deliver(e, now, io) =>
      if e in s.wire && e.dst == r && clock <= now && Fits(e.packet) && Classify(Encode(e.packet)).File? then
        Some(FM.Arrives(e.src, Classify(Encode(e.packet)).payload, now, io))
      else None
    case UserAccepts(client, peer, id, now, io) =>
      if client == r && clock <= now then Some(FM.UserTakes(peer, id, now, io)) else None
    case UserDeclines(client, peer, id, now) =>
      if client == r && clock <= now then Some(FM.UserRefuses(peer, id, now)) else None
    case UserPolls(client, now) => if client == r && clock <= now then Some(FM.UserPolls(now)) else None
    case StopClient(client) => if client == r then Some(FM.Stops) else None
    case _ => None
  }

  lemma TablesDecide(e: Endpoint, peer: string, body: seq<byte>, now: int, io: Io)
    ensures HandleIncoming(e, peer, body, now, io).0.rx
         == HandleIncoming(Endpoint(e.rx, {}, {}), peer, body, now, io).0.rx
    ensures CarriesAnswer(body) ==> HandleIncoming(e, peer, body, now, io).0.rx == e.rx
  {
    hide Cleanup, HandlePacket, Decode;
  }

  lemma DeliveryIsEvent(s: System, e: Envelope, body: seq<byte>, now: int, io: Io, r: string)
    requires r in s.clients && e.dst in s.clients
    ensures var t := DeliverTo(s, e, body, now, io);
      && r in t.clients
      && t.clients[r].files.rx == if e.dst == r
           then HandleIncoming(Endpoint(s.clients[r].files.rx, {}, {}), e.src, body, now, io).0.rx
           else s.clients[r].files.rx
  {
    hide HandleIncoming, Cleanup, Observe;
    TablesDecide(s.clients[e.dst].files, e.src, body, now, io);
  }

  lemma AdvanceLeavesTables(s: System, p: string, i: nat, readOk: bool, sendOk: bool, r: string)
    requires HasSend(s, p, i) && r in s.clients
    ensures var t := Apply(s, FileNetwork.Advance(p, i, readOk, sendOk));
      r in t.clients && t.clients[r].files.rx == s.clients[r].files.rx
  {
    AdvanceShape(s, p, i, readOk, sendOk);
  }

  lemma StepIsEvent(s: System, step: Step, r: string)
    requires r in s.clients
    ensures var t, event := Apply(s, step), EventOf(s, step, r);
      && r in t.clients
      && t.clients[r].files.rx == if event.Some? then FM.Handled(s.clients[r].files.rx, event.value).0
                                  else s.clients[r].files.rx
  {
    hide HandleIncoming, Cleanup, Observe, Classify, Encode, FS.Step, FS.Emitted, NextEvent, DeliverTo;
    match step
    case StartSend(client, dest, name, file) =>
    case Advance(client, id, readOk, sendOk) =>
      if HasSend(s, client, id) {
        AdvanceLeavesTables(s, client, id, readOk, sendOk, r);
      }
    case Deliver(e, now, io) =>
      if e in s.wire && e.dst in s.clients && s.clients[e.dst].clock <= now && Fits(e.packet)
         && Classify(Encode(e.packet)).File? {
        DeliveryIsEvent(s, e, Classify(Encode(e.packet)).payload, now, io, r);
      }
    case UserAccepts(client, peer, id, now, io) =>
    case UserDeclines(client, peer, id, now) =>
    case UserPolls(client, now) =>
    case StopClient(client) =>
  }

  /** The receiver of a client after any run of the network is what some sequence of events makes of it. */
  lemma {:induction false} RunIsEvents(s: System, steps: seq<Step>, r: string) returns (events: seq<FM.Event>)
    requires r in s.clients
    ensures r in Execute(s, steps).clients
    ensures Execute(s, steps).clients[r].files.rx == FM.After(s.clients[r].files.rx, events)
  {
    hide Apply, FM.Handled, EventOf;
    events := [];
    if steps != [] {
      var init, last := steps[..|steps| - 1], steps[|steps| - 1];
      events := RunIsEvents(s, init, r);
      StepIsEvent(Execute(s, init), last, r);
      var event := EventOf(Execute(s, init), last, r);
      if event.Some? {
        assert (events + [event.value])[..|events|] == events;
        events := events + [event.value];
      }
    }
  }
}
