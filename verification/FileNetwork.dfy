/**
 * Any number of clients sending files to each other over a network that may lose, duplicate and
 * reorder packets: the wire is the growing set of packets ever sent, and any of them may be delivered
 * at any time, any number of times, or never.
 */
module FileNetwork {
  import opened Wrappers
  import opened Bytes
  import opened Datagrams
  import opened FilePackets
  import opened FileReceiver
  import opened FileEndpoint
  import FS = FileSender

  datatype Client = Client(files: Endpoint, sends: map<nat, FS.Send>, nextId: nat, running: bool, clock: int)

  datatype Envelope = Envelope(src: string, dst: string, packet: Packet)

  datatype Mark = Mark(client: string, key: string)
  datatype ChunkMark = ChunkMark(client: string, key: string, index: nat)

  /** What has ever happened at the receivers, read off the changes of their tables. */
  datatype History = History(
    begun: set<Mark>,          // a transfer was entered as incoming
    accepted: set<ChunkMark>,  // a chunk was accepted
    lost: set<Mark>,           // a transfer left the tables other than by completing
    approved: set<Mark>)       // the user accepted the pending request

  datatype System = System(clients: map<string, Client>, wire: set<Envelope>, log: History)

  datatype Step =
    | StartSend(client: string, dest: string, fileName: seq<byte>, file: seq<byte>)
    | Advance(client: string, id: nat, readOk: bool, sendOk: bool)
    | Deliver(envelope: Envelope, now: int, io: Io)
    | UserAccepts(client: string, peer: string, id: nat, now: int, io: Io)
    | UserDeclines(client: string, peer: string, id: nat, now: int)
    | UserPolls(client: string, now: int)
    | StopClient(client: string)

  // ---------------------------------------------------------------- steps

  predicate Held(r: Receiver, key: string) {
    key in r.incoming || key in r.completed
  }

  predicate Advanced(pre: Receiver, post: Receiver, key: string) {
    && key in pre.incoming
    && (key in post.completed
        || (key in post.incoming && post.incoming[key].nextChunkIndex == pre.incoming[key].nextChunkIndex + 1))
  }

  function Observe(h: History, r: string, pre: Receiver, post: Receiver): History {
    h.(begun := h.begun + set key | key in post.incoming && key !in pre.incoming :: Mark(r, key),
       accepted := h.accepted + set key | key in pre.incoming && Advanced(pre, post, key)
                     :: ChunkMark(r, key, pre.incoming[key].nextChunkIndex),
       lost := h.lost + set key | key in pre.incoming.Keys + pre.completed.Keys && !Held(post, key) :: Mark(r, key))
  }

  function SetReceiver(s: System, r: string, post: Receiver): System
    requires r in s.clients
  {
    var c := s.clients[r];
    s.(clients := s.clients[r := c.(files := c.files.(rx := post))], log := Observe(s.log, r, c.files.rx, post))
  }

  function Put(s: System, src: string, dst: string, packet: Option<Packet>): System {
    if packet.Some? then s.(wire := s.wire + {Envelope(src, dst, packet.value)}) else s
  }

  function Tick(s: System, r: string, now: int): System
    requires r in s.clients
  {
    s.(clients := s.clients[r := s.clients[r].(clock := now)])
  }

  /** The expiry sweep, then one change of the tables and its answer to the peer. */
  function Respond(s: System, r: string, peer: string, post: Receiver, response: Option<Packet>): System
    requires r in s.clients
  {
    Put(SetReceiver(s, r, post), r, peer, response)
  }

  function Sweep(s: System, r: string, now: int): System
    requires r in s.clients
  {
    SetReceiver(Tick(s, r, now), r, Cleanup(s.clients[r].files.rx, now))
  }

  /** The record that the user accepted a request that was pending. */
  function Approve(s: System, m: Mark): System {
    s.(log := s.log.(approved := s.log.approved + {m}))
  }

  function TakePrompt(s: System, r: string): System
    requires r in s.clients
  {
    SetReceiver(s, r, Pop(s.clients[r].files.rx).0)
  }

  predicate CarriesAnswer(body: seq<byte>) {
    body != [] && (body[0] == FILE_PACKET_ACK || body[0] == FILE_PACKET_REJECT)
  }

  function DeliverTo(s: System, e: Envelope, body: seq<byte>, now: int, io: Io): System
    requires e.dst in s.clients
  {
    var c := s.clients[e.dst];
    var (post, response) := HandleIncoming(c.files, e.src, body, now, io);
    if CarriesAnswer(body) then s.(clients := s.clients[e.dst := c.(files := post)])
    else Respond(Sweep(s, e.dst, now), e.dst, e.src, post.rx, response)
  }

  /** The sender's next event: what the shared sets say when it is waiting. */
  function NextEvent(c: Client, send: FS.Send, readOk: bool, sendOk: bool): (Endpoint, FS.Event) {
    if send.phase.Awaiting? then
      var (files, wait) := WaitForAck(c.files, send.transferId, FS.AckIndex(send.phase.item), c.running);
      (files, FS.Event(c.running, readOk, sendOk, wait))
    else (c.files, FS.Event(c.running, readOk, sendOk, Timeout))
  }

  /** A step that is not enabled changes nothing. */
  function Apply(s: System, step: Step): System {
    match step
    case StartSend(client, dest, name, file) =>
      if client in s.clients && |file| <= MAX_FILE_TRANSFER_BYTES && |name| < TWO16
         && s.clients[client].nextId < TWO32 && s.clients[client].nextId !in s.clients[client].sends then
        var c := s.clients[client];
        s.(clients := s.clients[client := c.(
             sends := c.sends[c.nextId := FS.NewSend(dest, c.nextId, name, file)],
             nextId := (c.nextId + 1) % TWO32)])
      else s
    case Advance(client, id, readOk, sendOk) =>
      if client in s.clients && id in s.clients[client].sends then
        var c := s.clients[client];
        var send := c.sends[id];
        var (files, event) := NextEvent(c, send, readOk, sendOk);
        Put(s.(clients := s.clients[client := c.(files := files, sends := c.sends[id := FS.Step(send, event)])]),
            client, send.dest, FS.Emitted(send, event))
      else s
    case Deliver(e, now, io) =>
      if e in s.wire && e.dst in s.clients && s.clients[e.dst].clock <= now && Fits(e.packet)
         && Classify(Encode(e.packet)).File? then
        DeliverTo(s, e, Classify(Encode(e.packet)).payload, now, io)
      else s
    case UserAccepts(client, peer, id, now, io) =>
      if client in s.clients && s.clients[client].clock <= now then
        var swept := Sweep(s, client, now);
        var (post, response) := Accept(swept.clients[client].files.rx, peer, id, now, io);
        Respond(if response.Some? then Approve(swept, Mark(client, MakeIncomingFileKey(peer, id))) else swept,
                client, peer, post, response)
      else s
    case UserDeclines(client, peer, id, now) =>
      if client in s.clients && s.clients[client].clock <= now then
        var (post, response) := FileReceiver.Decline(s.clients[client].files.rx, peer, id, now);
        Respond(Tick(s, client, now), client, peer, post, response)
      else s
    case UserPolls(client, now) =>
      if client in s.clients && s.clients[client].clock <= now then
        TakePrompt(Sweep(s, client, now), client)
      else s
    case StopClient(client) =>
      if client in s.clients then
        var t := SetReceiver(s, client, Stop(s.clients[client].files.rx));
        var c := t.clients[client];
        t.(clients := t.clients[client := c.(running := false, files := c.files.(acks := {}, rejects := {}))])
      else s
  }

  function Execute(s: System, steps: seq<Step>): System {
    if steps == [] then s else Apply(Execute(s, steps[..|steps| - 1]), steps[|steps| - 1])
  }

  predicate Initial(s: System) {
    && s.wire == {} && s.log == History({}, {}, {}, {})
    && forall c :: c in s.clients ==>
         && s.clients[c].files == Endpoint(NewReceiver(s.clients[c].files.rx.approvalRequired), {}, {})
         && s.clients[c].sends == map[] && s.clients[c].nextId == 1 && s.clients[c].running
  }

  // ---------------------------------------------------------------- who a key belongs to

  ghost predicate IsKey(key: string) {
    exists p: string, t: nat :: key == MakeIncomingFileKey(p, t)
  }

  ghost function Owner(key: string): (string, nat)
    requires IsKey(key)
  {
    var p: string, t: nat :| key == MakeIncomingFileKey(p, t);
    (p, t)
  }

  lemma OwnerOfKey(p: string, t: nat)
    ensures IsKey(MakeIncomingFileKey(p, t)) && Owner(MakeIncomingFileKey(p, t)) == (p, t)
  {
    var (q, u) := Owner(MakeIncomingFileKey(p, t));
    IncomingFileKeyInjective(p, t, q, u);
  }

  predicate HasSend(s: System, p: string, t: nat) {
    p in s.clients && t in s.clients[p].sends
  }

  function SendOf(s: System, p: string, t: nat): FS.Send
    requires HasSend(s, p, t)
  {
    s.clients[p].sends[t]
  }

  /** The key names a transfer that some client really directed at `r`. */
  ghost predicate Known(s: System, r: string, key: string) {
    && IsKey(key)
    && HasSend(s, Owner(key).0, Owner(key).1)
    && SendOf(s, Owner(key).0, Owner(key).1).dest == r
  }

  ghost function Source(s: System, r: string, key: string): FS.Send
    requires Known(s, r, key)
  {
    SendOf(s, Owner(key).0, Owner(key).1)
  }

  /** How many chunks the sender has started on; the receiver can never be further. */
  function Reached(send: FS.Send): nat {
    if send.phase.item.Metadata? then 0 else send.phase.item.index + 1
  }

  // ---------------------------------------------------------------- the invariant

  /** An acknowledgement to `p` for its transfer `t` is backed by what the receiver did. */
  ghost predicate AckBacked(s: System, p: string, t: nat, k: nat) {
    && HasSend(s, p, t)
    && var key, dest := MakeIncomingFileKey(p, t), SendOf(s, p, t).dest;
       if k == FILE_META_CHUNK_INDEX then Mark(dest, key) in s.log.begun
       else ChunkMark(dest, key, k) in s.log.accepted
  }

  ghost predicate PacketOk(s: System, e: Envelope) {
    && Fits(e.packet) && WithinSenderLimits(e.packet)
    && match e.packet
       case Meta(t, n, size, _) =>
         && HasSend(s, e.src, t) && SendOf(s, e.src, t).dest == e.dst
         && n == FS.Chunks(SendOf(s, e.src, t)) && size == |SendOf(s, e.src, t).file|
       case Data(t, k, payload) =>
         && HasSend(s, e.src, t) && SendOf(s, e.src, t).dest == e.dst
         && k < Reached(SendOf(s, e.src, t)) && payload == ChunkOf(SendOf(s, e.src, t).file, k)
       case Ack(t, k) => AckBacked(s, e.dst, t, k) && SendOf(s, e.dst, t).dest == e.src
       case Reject(t) => HasSend(s, e.dst, t) && SendOf(s, e.dst, t).dest == e.src
  }

  /** The tables of `r` speak of real transfers and hold a prefix of the sender's own file. */
  ghost predicate FaithfulAt(s: System, r: string, rx: Receiver, key: string) {
    && (key in rx.incoming ==>
          && Known(s, r, key)
          && rx.incoming[key].chunkCount == FS.Chunks(Source(s, r, key))
          && rx.incoming[key].totalSize == |Source(s, r, key).file|
          && rx.incoming[key].nextChunkIndex <= Reached(Source(s, r, key))
          && rx.incoming[key].data == Prefix(Source(s, r, key).file, rx.incoming[key].nextChunkIndex))
    && (key in rx.completed ==>
          && Known(s, r, key)
          && rx.completed[key].chunkCount == FS.Chunks(Source(s, r, key))
          && HasFile(rx.files, key, Source(s, r, key).file))
    && (key in rx.pending ==>
          && Known(s, r, key)
          && rx.pending[key].chunkCount == FS.Chunks(Source(s, r, key))
          && rx.pending[key].totalSize == |Source(s, r, key).file|)
  }

  ghost predicate Faithful(s: System, r: string, rx: Receiver) {
    && (forall key :: FaithfulAt(s, r, rx, key))
    && (forall f :: f in rx.files ==> Known(s, r, f.key) && f.content == Flushed(Source(s, r, f.key).file, f.lost))
  }

  /** What the tables hold has been recorded, and approved where approval is required. */
  ghost predicate LoggedAt(h: History, r: string, rx: Receiver, key: string) {
    && (Held(rx, key) ==> Mark(r, key) in h.begun)
    && (key in rx.incoming ==>
          forall k: nat :: k < rx.incoming[key].nextChunkIndex ==> ChunkMark(r, key, k) in h.accepted)
    && (key in rx.completed ==>
          forall k: nat :: k < rx.completed[key].chunkCount ==> ChunkMark(r, key, k) in h.accepted)
    && (Held(rx, key) && rx.approvalRequired ==> Mark(r, key) in h.approved)
  }

  ghost predicate FilesApproved(h: History, r: string, rx: Receiver) {
    rx.approvalRequired ==> forall f :: f in rx.files ==> Mark(r, f.key) in h.approved
  }

  ghost predicate ReceiverOk(s: System, r: string)
    requires r in s.clients
  {
    var rx := s.clients[r].files.rx;
    && TablesInv(rx) && QueueInv(rx, s.clients[r].clock) && Faithful(s, r, rx)
    && (forall key :: LoggedAt(s.log, r, rx, key)) && FilesApproved(s.log, r, rx)
  }

  ghost predicate SenderOk(s: System, p: string, t: nat)
    requires HasSend(s, p, t)
  {
    var send := SendOf(s, p, t);
    var key := MakeIncomingFileKey(p, t);
    && FS.SendInv(send)
    && t < TWO32 && send.transferId == t && |send.file| <= MAX_FILE_TRANSFER_BYTES && |send.fileName| < TWO16
    && (send.phase.item.Chunk? ==>
          && Mark(send.dest, key) in s.log.begun
          && forall k: nat :: k < send.phase.item.index ==> ChunkMark(send.dest, key, k) in s.log.accepted)
    && (send.phase.Finished? && send.phase.result == FS.Sent ==>
          ChunkMark(send.dest, key, FS.Chunks(send) - 1) in s.log.accepted)
  }

  /** As long as the receiver has not lost the transfer it still holds what it once accepted. */
  ghost predicate Retains(s: System, r: string, key: string, n: nat)
    requires r in s.clients
  {
    var rx := s.clients[r].files.rx;
    Mark(r, key) !in s.log.lost ==>
      key in rx.completed || (key in rx.incoming && rx.incoming[key].nextChunkIndex >= n)
  }

  ghost predicate AcceptedOk(s: System, m: ChunkMark) {
    && m.client in s.clients && Known(s, m.client, m.key)
    && m.index < FS.Chunks(Source(s, m.client, m.key))
    && Retains(s, m.client, m.key, m.index + 1)
    && (m.index + 1 == FS.Chunks(Source(s, m.client, m.key)) ==>
          HasFile(s.clients[m.client].files.rx.files, m.key, Source(s, m.client, m.key).file))
  }

  ghost predicate BegunOk(s: System, m: Mark) {
    m.client in s.clients && Known(s, m.client, m.key) && Retains(s, m.client, m.key, 0)
  }

  ghost predicate AnswersOk(s: System, p: string)
    requires p in s.clients
  {
    && (forall a :: a in s.clients[p].files.acks ==> AckBacked(s, p, a / TWO32, a % TWO32))
    && (forall t :: t in s.clients[p].files.rejects ==> HasSend(s, p, t))
  }

  ghost predicate WireInv(s: System) {
    forall e :: e in s.wire ==> PacketOk(s, e)
  }

  ghost predicate ClientsInv(s: System) {
    forall r :: r in s.clients ==> ReceiverOk(s, r) && AnswersOk(s, r)
  }

  ghost predicate SendsInv(s: System) {
    forall p, t :: HasSend(s, p, t) ==> SenderOk(s, p, t)
  }

  ghost predicate HistoryInv(s: System) {
    && (forall m :: m in s.log.accepted ==> AcceptedOk(s, m))
    && (forall m :: m in s.log.begun ==> BegunOk(s, m))
  }

  ghost predicate Inv(s: System) {
    WireInv(s) && ClientsInv(s) && SendsInv(s) && HistoryInv(s)
  }
}
