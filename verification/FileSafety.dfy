/** Every step of the file-transfer network keeps its invariant, and what that means for whole runs. */
module FileSafety {
  import opened Wrappers
  import opened Bytes
  import opened Datagrams
  import opened FilePackets
  import opened FileReceiver
  import opened FileEndpoint
  import opened FileNetwork
  import FS = FileSender

  // ---------------------------------------------------------------- facts that only grow

  ghost predicate SameTransfer(a: FS.Send, b: FS.Send) {
    && a.dest == b.dest && a.transferId == b.transferId && a.file == b.file && a.fileName == b.fileName
    && Reached(a) <= Reached(b)
  }

  /** Clients, transfers, files and history persist, and senders only move forward. */
  ghost predicate Grows(s: System, t: System) {
    && s.clients.Keys == t.clients.Keys
    && (forall p, i :: HasSend(s, p, i) ==> HasSend(t, p, i) && SameTransfer(SendOf(s, p, i), SendOf(t, p, i)))
    && s.log.begun <= t.log.begun && s.log.accepted <= t.log.accepted
    && s.log.lost <= t.log.lost && s.log.approved <= t.log.approved
    && (forall r :: r in s.clients ==> s.clients[r].files.rx.files <= t.clients[r].files.rx.files)
  }

  lemma PacketsPersist(s: System, t: System)
    requires Grows(s, t) && forall e :: e in s.wire ==> PacketOk(s, e)
    ensures forall e :: e in s.wire ==> PacketOk(t, e)
  {
  }

  lemma FaithfulPersists(s: System, t: System, r: string, rx: Receiver)
    requires Grows(s, t) && Faithful(s, r, rx)
    ensures Faithful(t, r, rx)
  {
    forall key ensures FaithfulAt(t, r, rx, key) {
      assert FaithfulAt(s, r, rx, key);
    }
  }

  lemma SenderPersists(s: System, t: System, p: string, i: nat)
    requires Grows(s, t) && HasSend(s, p, i) && SenderOk(s, p, i) && SendOf(s, p, i) == SendOf(t, p, i)
    ensures SenderOk(t, p, i)
  {
  }

  /** A receiver whose tables did not change stays in order. */
  lemma ReceiverPersists(s: System, t: System, r: string)
    requires Grows(s, t) && r in s.clients && ReceiverOk(s, r)
    requires t.clients[r].files.rx == s.clients[r].files.rx && t.clients[r].clock == s.clients[r].clock
    ensures ReceiverOk(t, r)
  {
    var rx := s.clients[r].files.rx;
    FaithfulPersists(s, t, r, rx);
    forall key ensures LoggedAt(t.log, r, rx, key) {
      assert LoggedAt(s.log, r, rx, key);
    }
  }

  lemma AnswersPersist(s: System, t: System, p: string)
    requires Grows(s, t) && p in s.clients && AnswersOk(s, p)
    requires t.clients[p].files.acks <= s.clients[p].files.acks
    requires t.clients[p].files.rejects <= s.clients[p].files.rejects
    ensures AnswersOk(t, p)
  {
  }

  /** Marks stay justified where the receiver's tables did not change. */
  lemma MarkPersists(s: System, t: System, m: Mark)
    requires Grows(s, t) && BegunOk(s, m) && t.clients[m.client].files.rx == s.clients[m.client].files.rx
    ensures BegunOk(t, m)
  {
  }

  lemma ChunkMarkPersists(s: System, t: System, m: ChunkMark)
    requires Grows(s, t) && AcceptedOk(s, m) && t.clients[m.client].files.rx == s.clients[m.client].files.rx
    ensures AcceptedOk(t, m)
  {
  }

  /** Everything but clocks, answers, approvals and the wire is as before. */
  ghost predicate SameTables(s: System, t: System) {
    && Grows(s, t)
    && t.log == s.log.(approved := t.log.approved)
    && (forall r :: r in s.clients ==>
          t.clients[r].files.rx == s.clients[r].files.rx && t.clients[r].sends == s.clients[r].sends)
  }

  lemma EditKeepsTables(s: System, r: string, c: Client)
    requires r in s.clients
    requires c.files.rx == s.clients[r].files.rx && c.sends == s.clients[r].sends
    ensures SameTables(s, s.(clients := s.clients[r := c]))
  {
  }

  lemma SendsAndHistoryPersist(s: System, t: System)
    requires SameTables(s, t) && SendsInv(s) && HistoryInv(s)
    ensures SendsInv(t) && HistoryInv(t)
  {
    forall p, i | HasSend(t, p, i) ensures SenderOk(t, p, i) {
      assert HasSend(s, p, i);
      SenderPersists(s, t, p, i);
    }
    forall m | m in t.log.accepted ensures AcceptedOk(t, m) {
      ChunkMarkPersists(s, t, m);
    }
    forall m | m in t.log.begun ensures BegunOk(t, m) {
      MarkPersists(s, t, m);
    }
  }

  /** No receiver's tables or clock changed, and no answer came in. */
  ghost predicate SameReceivers(s: System, t: System) {
    && Grows(s, t)
    && t.log == s.log.(approved := t.log.approved)
    && forall r :: r in s.clients ==>
         && t.clients[r].files.rx == s.clients[r].files.rx && t.clients[r].clock == s.clients[r].clock
         && t.clients[r].files.acks <= s.clients[r].files.acks
         && t.clients[r].files.rejects <= s.clients[r].files.rejects
  }

  lemma ClientsPersist(s: System, t: System)
    requires SameReceivers(s, t) && ClientsInv(s)
    ensures ClientsInv(t)
  {
    forall q | q in t.clients ensures ReceiverOk(t, q) && AnswersOk(t, q) {
      assert ReceiverOk(s, q) && AnswersOk(s, q);
      AnswersPersist(s, t, q);
      ReceiverPersists(s, t, q);
    }
  }

  lemma HistoryPersists(s: System, t: System)
    requires SameReceivers(s, t) && HistoryInv(s)
    ensures HistoryInv(t)
  {
  }

  // ---------------------------------------------------------------- one change of a receiver's tables

  /** The shape of every change: chunks are accepted one at a time and nothing goes backwards unnoticed. */
  ghost predicate ForwardAt(pre: Receiver, post: Receiver, key: string) {
    && (key in post.incoming && key in pre.incoming ==>
          && pre.incoming[key].nextChunkIndex <= post.incoming[key].nextChunkIndex
               <= pre.incoming[key].nextChunkIndex + 1)
    && (key in post.incoming && key !in pre.incoming ==>
          key !in pre.completed && post.incoming[key].nextChunkIndex == 0)
    && (key in post.completed && key in pre.completed ==> post.completed[key] == pre.completed[key])
    && (key in post.completed && key !in pre.completed ==>
          && key in pre.incoming
          && pre.incoming[key].nextChunkIndex + 1 == pre.incoming[key].chunkCount == post.completed[key].chunkCount)
  }

  ghost predicate Forward(pre: Receiver, post: Receiver) {
    && post.approvalRequired == pre.approvalRequired && pre.files <= post.files
    && (forall key :: ForwardAt(pre, post, key))
    && (forall f :: f in post.files && f !in pre.files ==> f.key in pre.incoming)
  }

  ghost predicate NewOnesApproved(h: History, r: string, pre: Receiver, post: Receiver) {
    post.approvalRequired ==>
      forall key :: key in post.incoming && key !in pre.incoming ==> Mark(r, key) in h.approved
  }

  lemma ChangeIsLogged(s: System, r: string, post: Receiver, key: string)
    requires r in s.clients && ReceiverOk(s, r)
    requires Forward(s.clients[r].files.rx, post) && NewOnesApproved(s.log, r, s.clients[r].files.rx, post)
    ensures LoggedAt(SetReceiver(s, r, post).log, r, post, key)
  {
    var pre := s.clients[r].files.rx;
    var h := SetReceiver(s, r, post).log;
    assert ForwardAt(pre, post, key) && LoggedAt(s.log, r, pre, key);
    if key in pre.incoming && Advanced(pre, post, key) {
      assert ChunkMark(r, key, pre.incoming[key].nextChunkIndex) in h.accepted;
    }
  }

  lemma ChangeKeepsReceiver(s: System, r: string, post: Receiver)
    requires r in s.clients && ReceiverOk(s, r)
    requires Forward(s.clients[r].files.rx, post) && NewOnesApproved(s.log, r, s.clients[r].files.rx, post)
    requires TablesInv(post) && QueueInv(post, s.clients[r].clock) && Faithful(s, r, post)
    ensures ReceiverOk(SetReceiver(s, r, post), r)
  {
    var t := SetReceiver(s, r, post);
    var pre := s.clients[r].files.rx;
    assert Grows(s, t);
    FaithfulPersists(s, t, r, post);
    forall key ensures LoggedAt(t.log, r, post, key) {
      ChangeIsLogged(s, r, post, key);
    }
    forall f | f in post.files && post.approvalRequired ensures Mark(r, f.key) in t.log.approved {
      assert LoggedAt(s.log, r, pre, f.key);
    }
  }

  lemma ChangeKeepsChunkMark(s: System, r: string, post: Receiver, m: ChunkMark)
    requires r in s.clients && Forward(s.clients[r].files.rx, post)
    requires TablesInv(post) && Faithful(s, r, post)
    requires ReceiverOk(s, r)
    requires m in SetReceiver(s, r, post).log.accepted
    requires m in s.log.accepted ==> AcceptedOk(s, m)
    ensures AcceptedOk(SetReceiver(s, r, post), m)
  {
    var t := SetReceiver(s, r, post);
    var pre := s.clients[r].files.rx;
    assert Grows(s, t);
    if m.client != r {
      ChunkMarkPersists(s, t, m);
      return;
    }
    assert ForwardAt(pre, post, m.key) && FaithfulAt(s, r, pre, m.key) && FaithfulAt(s, r, post, m.key);
    assert KeyInv(pre, m.key) && KeyInv(post, m.key);
    if m in s.log.accepted {
      if Mark(r, m.key) !in t.log.lost {
        assert Held(pre, m.key) ==> Held(post, m.key);
      }
    }
  }

  lemma ChangeKeepsMark(s: System, r: string, post: Receiver, m: Mark)
    requires r in s.clients && Forward(s.clients[r].files.rx, post) && Faithful(s, r, post)
    requires m in SetReceiver(s, r, post).log.begun
    requires m in s.log.begun ==> BegunOk(s, m)
    ensures BegunOk(SetReceiver(s, r, post), m)
  {
    var t := SetReceiver(s, r, post);
    var pre := s.clients[r].files.rx;
    assert Grows(s, t);
    if m.client != r {
      MarkPersists(s, t, m);
      return;
    }
    assert ForwardAt(pre, post, m.key) && FaithfulAt(s, r, post, m.key);
    if m in s.log.begun && Mark(r, m.key) !in t.log.lost {
      assert Held(pre, m.key) ==> Held(post, m.key);
    }
  }

  ghost predicate SoundChange(s: System, r: string, post: Receiver) {
    && r in s.clients
    && Forward(s.clients[r].files.rx, post) && NewOnesApproved(s.log, r, s.clients[r].files.rx, post)
    && TablesInv(post) && QueueInv(post, s.clients[r].clock) && Faithful(s, r, post)
  }

  lemma ChangeGrows(s: System, r: string, post: Receiver)
    requires r in s.clients && s.clients[r].files.rx.files <= post.files
    ensures Grows(s, SetReceiver(s, r, post))
  {
  }

  lemma ChangeKeepsClients(s: System, r: string, post: Receiver)
    requires ClientsInv(s) && SoundChange(s, r, post)
    ensures ClientsInv(SetReceiver(s, r, post))
  {
    var t := SetReceiver(s, r, post);
    ChangeGrows(s, r, post);
    forall q | q in t.clients ensures ReceiverOk(t, q) && AnswersOk(t, q) {
      assert ReceiverOk(s, q) && AnswersOk(s, q);
      AnswersPersist(s, t, q);
      if q == r {
        ChangeKeepsReceiver(s, r, post);
      } else {
        ReceiverPersists(s, t, q);
      }
    }
  }

  lemma ChangeKeepsSends(s: System, r: string, post: Receiver)
    requires SendsInv(s) && r in s.clients && s.clients[r].files.rx.files <= post.files
    ensures SendsInv(SetReceiver(s, r, post))
  {
    var t := SetReceiver(s, r, post);
    ChangeGrows(s, r, post);
    forall p, i | HasSend(t, p, i) ensures SenderOk(t, p, i) {
      assert HasSend(s, p, i);
      SenderPersists(s, t, p, i);
    }
  }

  lemma ChangeKeepsHistory(s: System, r: string, post: Receiver)
    requires HistoryInv(s) && ClientsInv(s) && SoundChange(s, r, post)
    ensures HistoryInv(SetReceiver(s, r, post))
  {
    var t := SetReceiver(s, r, post);
    forall m | m in t.log.accepted ensures AcceptedOk(t, m) {
      ChangeKeepsChunkMark(s, r, post, m);
    }
    forall m | m in t.log.begun ensures BegunOk(t, m) {
      ChangeKeepsMark(s, r, post, m);
    }
  }

  /** The one place where receiver changes meet the invariant. */
  lemma ChangeKeepsInv(s: System, r: string, post: Receiver)
    requires Inv(s) && SoundChange(s, r, post)
    ensures Inv(SetReceiver(s, r, post)) && Grows(s, SetReceiver(s, r, post))
  {
    ChangeGrows(s, r, post);
    PacketsPersist(s, SetReceiver(s, r, post));
    ChangeKeepsClients(s, r, post);
    ChangeKeepsSends(s, r, post);
    ChangeKeepsHistory(s, r, post);
  }

  // ---------------------------------------------------------------- what the handlers do is sound

  ghost predicate AnswerOk(s: System, r: string, peer: string, post: Receiver, response: Option<Packet>)
    requires r in s.clients
  {
    response.Some? ==> PacketOk(SetReceiver(s, r, post), Envelope(r, peer, response.value))
  }

  lemma TickedReceiverOk(s: System, r: string, now: int)
    requires r in s.clients && ReceiverOk(s, r) && s.clients[r].clock <= now
    ensures ReceiverOk(Tick(s, r, now), r)
  {
    var t := Tick(s, r, now);
    EditKeepsTables(s, r, s.clients[r].(clock := now));
    var rx := s.clients[r].files.rx;
    FaithfulPersists(s, t, r, rx);
    assert OldestFirst(rx.queue, now);
    forall key ensures LoggedAt(t.log, r, rx, key) {
      assert LoggedAt(s.log, r, rx, key);
    }
  }

  lemma TickKeepsInv(s: System, r: string, now: int)
    requires Inv(s) && r in s.clients && s.clients[r].clock <= now
    ensures Inv(Tick(s, r, now)) && Grows(s, Tick(s, r, now))
  {
    var t := Tick(s, r, now);
    EditKeepsTables(s, r, s.clients[r].(clock := now));
    PacketsPersist(s, t);
    SendsAndHistoryPersist(s, t);
    TickedReceiverOk(s, r, now);
    forall q | q in t.clients ensures ReceiverOk(t, q) && AnswersOk(t, q) {
      assert ReceiverOk(s, q) && AnswersOk(s, q);
      AnswersPersist(s, t, q);
      if q != r {
        ReceiverPersists(s, t, q);
      }
    }
  }

  lemma CleanupSound(s: System, r: string, now: int)
    requires r in s.clients && ReceiverOk(s, r) && s.clients[r].clock == now
    ensures SoundChange(s, r, Cleanup(s.clients[r].files.rx, now))
    ensures Swept(Cleanup(s.clients[r].files.rx, now))
  {
    var rx := s.clients[r].files.rx;
    var post := Cleanup(rx, now);
    CleanupKeepsTables(rx, now);
    CleanupSweeps(rx, now, now);
    forall key ensures ForwardAt(rx, post, key) && FaithfulAt(s, r, post, key) {
      assert FaithfulAt(s, r, rx, key);
    }
  }

  lemma SweepKeepsInv(s: System, r: string, now: int)
    requires Inv(s) && r in s.clients && s.clients[r].clock <= now
    ensures Inv(Sweep(s, r, now)) && Grows(s, Sweep(s, r, now))
    ensures Swept(Sweep(s, r, now).clients[r].files.rx) && Sweep(s, r, now).clients[r].clock == now
  {
    TickKeepsInv(s, r, now);
    var t := Tick(s, r, now);
    assert ReceiverOk(t, r);
    CleanupSound(t, r, now);
    ChangeKeepsInv(t, r, Cleanup(s.clients[r].files.rx, now));
  }

  lemma HandleMetaSound(s: System, r: string, peer: string, p: Packet, now: int, io: Io)
    requires r in s.clients && ReceiverOk(s, r) && Swept(s.clients[r].files.rx) && s.clients[r].clock == now
    requires p.Meta? && Acceptable(p) && PacketOk(s, Envelope(peer, r, p))
    ensures SoundChange(s, r, HandleMeta(s.clients[r].files.rx, peer, p, now, io).0)
  {
    var rx := s.clients[r].files.rx;
    var key := MakeIncomingFileKey(peer, p.transferId);
    var post := HandleMeta(rx, peer, p, now, io).0;
    HandlePacketKeepsTables(rx, peer, p, now, io);
    HandlePacketKeepsQueue(rx, peer, p, now, io);
    assert KeyInv(rx, key);
    HandleMetaTouches(rx, peer, p, now, io);
    OwnerOfKey(peer, p.transferId);
    forall other ensures ForwardAt(rx, post, other) && FaithfulAt(s, r, post, other) {
      assert FaithfulAt(s, r, rx, other);
      if other != key {
        assert SameAt(rx, post, other);
      }
    }
  }

  lemma HandleMetaAnswerOk(s: System, r: string, peer: string, p: Packet, now: int, io: Io)
    requires r in s.clients && ReceiverOk(s, r)
    requires p.Meta? && PacketOk(s, Envelope(peer, r, p))
    ensures
      var (post, response) := HandleMeta(s.clients[r].files.rx, peer, p, now, io);
      AnswerOk(s, r, peer, post, response)
  {
    var rx := s.clients[r].files.rx;
    var key := MakeIncomingFileKey(peer, p.transferId);
    var (post, response) := HandleMeta(rx, peer, p, now, io);
    assert LoggedAt(s.log, r, rx, key);
    ChangeGrows(s, r, post);
    if response.Some? && response.value.Ack? {
      assert Mark(r, key) in SetReceiver(s, r, post).log.begun;
    }
  }

  /** The chunk that is accepted is the sender's own next chunk. */
  lemma AcceptChunkSound(s: System, r: string, peer: string, p: Packet, now: int, io: Io)
    requires r in s.clients && ReceiverOk(s, r)
    requires p.Data? && PacketOk(s, Envelope(peer, r, p))
    requires MakeIncomingFileKey(peer, p.transferId) in s.clients[r].files.rx.incoming
    requires
      var x := s.clients[r].files.rx.incoming[MakeIncomingFileKey(peer, p.transferId)];
      p.chunkIndex == x.nextChunkIndex < x.chunkCount
    ensures
      var rx := s.clients[r].files.rx;
      var key := MakeIncomingFileKey(peer, p.transferId);
      var post := AcceptChunk(rx, key, rx.incoming[key], p.transferId, p.payload, now, io).0;
      && ForwardAt(rx, post, key) && FaithfulAt(s, r, post, key)
      && (forall f :: f in post.files && f !in rx.files ==>
            f.key == key && Known(s, r, key) && f.content == Flushed(Source(s, r, key).file, f.lost))
  {
    var rx := s.clients[r].files.rx;
    var key := MakeIncomingFileKey(peer, p.transferId);
    var x := rx.incoming[key];
    OwnerOfKey(peer, p.transferId);
    assert FaithfulAt(s, r, rx, key) && KeyInv(rx, key);
    ChunksRebuildFile(Source(s, r, key).file, p.chunkIndex);
  }

  lemma RefreshSound(s: System, r: string, key: string, post: Receiver, now: int)
    requires r in s.clients && ReceiverOk(s, r) && Refreshed(s.clients[r].files.rx, post, key, now)
    ensures SoundChange(s, r, post)
  {
    var rx := s.clients[r].files.rx;
    forall other ensures KeyInv(post, other) && ForwardAt(rx, post, other) && FaithfulAt(s, r, post, other) {
      assert KeyInv(rx, other) && FaithfulAt(s, r, rx, other);
    }
  }

  lemma TakeChunkSound(s: System, r: string, peer: string, p: Packet, now: int, io: Io)
    requires r in s.clients && ReceiverOk(s, r)
    requires p.Data? && PacketOk(s, Envelope(peer, r, p))
    requires TakesChunk(s.clients[r].files.rx, MakeIncomingFileKey(peer, p.transferId), p)
    ensures SoundChange(s, r, HandleData(s.clients[r].files.rx, peer, p, now, io).0)
  {
    var rx := s.clients[r].files.rx;
    var key := MakeIncomingFileKey(peer, p.transferId);
    var post := AcceptChunk(rx, key, rx.incoming[key], p.transferId, p.payload, now, io).0;
    assert KeyInv(rx, key);
    AcceptChunkTouches(rx, key, p.transferId, p.payload, now, io);
    AcceptChunkSound(s, r, peer, p, now, io);
    TouchKeepsTables(rx, post, key);
    forall other ensures ForwardAt(rx, post, other) && FaithfulAt(s, r, post, other) {
      assert FaithfulAt(s, r, rx, other);
      if other != key {
        assert SameAt(rx, post, other);
      }
    }
  }

  lemma HandleDataSound(s: System, r: string, peer: string, p: Packet, now: int, io: Io)
    requires r in s.clients && ReceiverOk(s, r)
    requires p.Data? && PacketOk(s, Envelope(peer, r, p))
    ensures SoundChange(s, r, HandleData(s.clients[r].files.rx, peer, p, now, io).0)
  {
    var rx := s.clients[r].files.rx;
    var key := MakeIncomingFileKey(peer, p.transferId);
    if TakesChunk(rx, key, p) {
      TakeChunkSound(s, r, peer, p, now, io);
    } else {
      OtherDataOnlyRefreshes(rx, peer, p, now, io);
      RefreshSound(s, r, key, HandleData(rx, peer, p, now, io).0, now);
    }
  }

  lemma HandleDataAnswerOk(s: System, r: string, peer: string, p: Packet, now: int, io: Io)
    requires r in s.clients && ReceiverOk(s, r)
    requires p.Data? && PacketOk(s, Envelope(peer, r, p))
    ensures
      var (post, response) := HandleData(s.clients[r].files.rx, peer, p, now, io);
      AnswerOk(s, r, peer, post, response)
  {
    var rx := s.clients[r].files.rx;
    var key := MakeIncomingFileKey(peer, p.transferId);
    var (post, response) := HandleData(rx, peer, p, now, io);
    assert LoggedAt(s.log, r, rx, key) && KeyInv(rx, key);
    ChangeGrowsLog(s, r, post);
    if TakesChunk(rx, key, p) {
      if response.Some? {
        assert Advanced(rx, post, key);
        assert ChunkMark(r, key, p.chunkIndex) in SetReceiver(s, r, post).log.accepted;
      }
    } else {
      OtherDataOnlyRefreshes(rx, peer, p, now, io);
    }
  }

  lemma ChangeGrowsLog(s: System, r: string, post: Receiver)
    requires r in s.clients
    ensures s.log.accepted <= SetReceiver(s, r, post).log.accepted
    ensures forall p, t :: HasSend(s, p, t) ==>
      HasSend(SetReceiver(s, r, post), p, t) && SendOf(SetReceiver(s, r, post), p, t) == SendOf(s, p, t)
  {
  }

  lemma AcceptSound(s: System, r: string, peer: string, i: nat, now: int, io: Io)
    requires r in s.clients && ReceiverOk(s, r) && s.clients[r].clock == now && SendsInv(s)
    requires Accept(s.clients[r].files.rx, peer, i, now, io).1.Some? ==>
      Mark(r, MakeIncomingFileKey(peer, i)) in s.log.approved
    ensures
      var (post, response) := Accept(s.clients[r].files.rx, peer, i, now, io);
      SoundChange(s, r, post) && AnswerOk(s, r, peer, post, response)
  {
    var rx := s.clients[r].files.rx;
    var key := MakeIncomingFileKey(peer, i);
    var (post, response) := Accept(rx, peer, i, now, io);
    AcceptKeepsTables(rx, peer, i, now, io);
    AcceptKeepsQueue(rx, peer, i, now, io, now);
    OwnerOfKey(peer, i);
    assert FaithfulAt(s, r, rx, key) && KeyInv(rx, key);
    forall other ensures ForwardAt(rx, post, other) && FaithfulAt(s, r, post, other) {
      assert FaithfulAt(s, r, rx, other);
    }
    if response.Some? {
      assert Mark(r, key) in SetReceiver(s, r, post).log.begun;
      assert HasSend(s, peer, i) && SenderOk(s, peer, i);
      ChangeGrowsLog(s, r, post);
    }
  }

  lemma DeclineSound(s: System, r: string, peer: string, i: nat, now: int)
    requires r in s.clients && ReceiverOk(s, r) && SendsInv(s)
    ensures
      var (post, response) := FileReceiver.Decline(s.clients[r].files.rx, peer, i, now);
      SoundChange(s, r, post) && AnswerOk(s, r, peer, post, response)
  {
    var rx := s.clients[r].files.rx;
    var key := MakeIncomingFileKey(peer, i);
    var (post, response) := FileReceiver.Decline(rx, peer, i, now);
    DeclineKeepsTables(rx, peer, i, now);
    DeclineKeepsQueue(rx, peer, i, now, s.clients[r].clock);
    OwnerOfKey(peer, i);
    assert FaithfulAt(s, r, rx, key);
    forall other ensures ForwardAt(rx, post, other) && FaithfulAt(s, r, post, other) {
      assert FaithfulAt(s, r, rx, other);
    }
    if response.Some? {
      assert HasSend(s, peer, i) && SenderOk(s, peer, i);
      ChangeGrowsLog(s, r, post);
    }
  }

  lemma PopSound(s: System, r: string)
    requires r in s.clients && ReceiverOk(s, r)
    ensures SoundChange(s, r, Pop(s.clients[r].files.rx).0)
  {
    var rx := s.clients[r].files.rx;
    var post := Pop(rx).0;
    forall key ensures KeyInv(post, key) && ForwardAt(rx, post, key) && FaithfulAt(s, r, post, key) {
      assert KeyInv(rx, key) && FaithfulAt(s, r, rx, key);
    }
    assert forall i :: 0 <= i < |post.queue| ==> post.queue[i] == rx.queue[i + 1];
  }

  lemma StopSound(s: System, r: string)
    requires r in s.clients && ReceiverOk(s, r)
    ensures SoundChange(s, r, Stop(s.clients[r].files.rx))
  {
  }

  // ---------------------------------------------------------------- steps keep the invariant

  lemma PutKeepsInv(s: System, src: string, dst: string, packet: Option<Packet>)
    requires Inv(s) && (packet.Some? ==> PacketOk(s, Envelope(src, dst, packet.value)))
    ensures Inv(Put(s, src, dst, packet))
  {
    var t := Put(s, src, dst, packet);
    assert Grows(s, t);
    PacketsPersist(s, t);
    if packet.Some? {
      assert PacketOk(t, Envelope(src, dst, packet.value));
    }
    SameClientsKeepInv(s, t);
  }

  /** Only the wire and approvals may differ. */
  lemma SameClientsKeepInv(s: System, t: System)
    requires Inv(s) && Grows(s, t) && t.clients == s.clients && WireInv(t)
    requires t.log == s.log.(approved := t.log.approved)
    ensures Inv(t)
  {
    forall q | q in t.clients ensures ReceiverOk(t, q) && AnswersOk(t, q) {
      assert ReceiverOk(s, q) && AnswersOk(s, q);
      AnswersPersist(s, t, q);
      ReceiverPersists(s, t, q);
    }
    SendsAndHistoryPersist(s, t);
  }

  lemma RespondKeepsInv(s: System, r: string, peer: string, post: Receiver, response: Option<Packet>)
    requires Inv(s) && SoundChange(s, r, post) && AnswerOk(s, r, peer, post, response)
    ensures Inv(Respond(s, r, peer, post, response))
  {
    ChangeKeepsInv(s, r, post);
    PutKeepsInv(SetReceiver(s, r, post), r, peer, response);
  }

  function AddAnswer(files: Endpoint, p: Packet): Endpoint {
    match p
    case Ack(t, k) => files.(acks := files.acks + {MakeFileAckKey(t, k)})
    case Reject(t) => files.(rejects := files.rejects + {t})
    case _ => files
  }

  function SetAnswers(s: System, r: string, files: Endpoint): System
    requires r in s.clients
  {
    s.(clients := s.clients[r := s.clients[r].(files := files)])
  }

  lemma EditAnswersKeepsInv(s: System, r: string, files: Endpoint)
    requires Inv(s) && r in s.clients && files.rx == s.clients[r].files.rx
    requires AnswersOk(SetAnswers(s, r, files), r)
    ensures Inv(SetAnswers(s, r, files)) && Grows(s, SetAnswers(s, r, files))
  {
    var t := SetAnswers(s, r, files);
    EditKeepsTables(s, r, s.clients[r].(files := files));
    PacketsPersist(s, t);
    SendsAndHistoryPersist(s, t);
    forall q | q in t.clients ensures ReceiverOk(t, q) && AnswersOk(t, q) {
      assert ReceiverOk(s, q) && AnswersOk(s, q);
      ReceiverPersists(s, t, q);
      if q != r {
        AnswersPersist(s, t, q);
      }
    }
  }

  lemma DeliverAnswerKeepsInv(s: System, e: Envelope)
    requires Inv(s) && e.dst in s.clients && PacketOk(s, e) && (e.packet.Ack? || e.packet.Reject?)
    ensures Inv(SetAnswers(s, e.dst, AddAnswer(s.clients[e.dst].files, e.packet)))
  {
    var files := AddAnswer(s.clients[e.dst].files, e.packet);
    var t := SetAnswers(s, e.dst, files);
    EditKeepsTables(s, e.dst, s.clients[e.dst].(files := files));
    assert AnswersOk(s, e.dst);
    AddAnswerOk(s, t, e);
    EditAnswersKeepsInv(s, e.dst, files);
  }

  lemma AddAnswerOk(s: System, t: System, e: Envelope)
    requires Grows(s, t) && e.dst in s.clients && AnswersOk(s, e.dst) && PacketOk(s, e)
    requires t.clients[e.dst].files == AddAnswer(s.clients[e.dst].files, e.packet)
    ensures AnswersOk(t, e.dst)
  {
  }

  /** A delivered request is swept for, handled and answered. */
  lemma DeliverRequestKeepsInv(s: System, e: Envelope, now: int, io: Io)
    requires Inv(s) && e.dst in s.clients && s.clients[e.dst].clock <= now
    requires PacketOk(s, e) && (e.packet.Meta? || e.packet.Data?) && Acceptable(e.packet)
    ensures
      var swept := Sweep(s, e.dst, now);
      var (post, response) := HandlePacket(swept.clients[e.dst].files.rx, e.src, e.packet, now, io);
      Inv(Respond(swept, e.dst, e.src, post, response))
  {
    SweepKeepsInv(s, e.dst, now);
    var swept := Sweep(s, e.dst, now);
    assert ReceiverOk(swept, e.dst);
    assert e in s.wire ==> PacketOk(s, e);
    PacketPersists(s, swept, e);
    var (post, response) := HandlePacket(swept.clients[e.dst].files.rx, e.src, e.packet, now, io);
    if e.packet.Meta? {
      HandleMetaSound(swept, e.dst, e.src, e.packet, now, io);
      HandleMetaAnswerOk(swept, e.dst, e.src, e.packet, now, io);
    } else {
      HandleDataSound(swept, e.dst, e.src, e.packet, now, io);
      HandleDataAnswerOk(swept, e.dst, e.src, e.packet, now, io);
    }
    RespondKeepsInv(swept, e.dst, e.src, post, response);
  }

  lemma PacketPersists(s: System, t: System, e: Envelope)
    requires Grows(s, t) && PacketOk(s, e)
    ensures PacketOk(t, e)
  {
  }

  /** The byte-level handler does on an encoded packet what the packet-level functions say. */
  lemma HandleIncomingEncoded(files: Endpoint, peer: string, p: Packet, now: int, io: Io)
    requires Fits(p)
    ensures CarriesAnswer(Body(p)) <==> p.Ack? || p.Reject?
    ensures p.Ack? || p.Reject? ==> HandleIncoming(files, peer, Body(p), now, io) == (AddAnswer(files, p), None)
    ensures (p.Meta? || p.Data?) && Acceptable(p) ==>
      var (post, response) := HandlePacket(Cleanup(files.rx, now), peer, p, now, io);
      HandleIncoming(files, peer, Body(p), now, io) == (files.(rx := post), response)
    ensures !Acceptable(p) ==>
      HandleIncoming(files, peer, Body(p), now, io) == (files.(rx := Cleanup(files.rx, now)), None)
  {
    DecodeBody(p);
  }

  lemma DeliverToKeepsInv(s: System, e: Envelope, now: int, io: Io)
    requires Inv(s) && e.dst in s.clients && s.clients[e.dst].clock <= now && PacketOk(s, e)
    ensures Inv(DeliverTo(s, e, Body(e.packet), now, io))
  {
    HandleIncomingEncoded(s.clients[e.dst].files, e.src, e.packet, now, io);
    if e.packet.Ack? || e.packet.Reject? {
      DeliverAnswerKeepsInv(s, e);
    } else if Acceptable(e.packet) {
      DeliverRequestKeepsInv(s, e, now, io);
    } else {
      SweepKeepsInv(s, e.dst, now);
      var swept := Sweep(s, e.dst, now);
      assert ReceiverOk(swept, e.dst);
      RefreshSound(swept, e.dst, "", swept.clients[e.dst].files.rx, now);
      RespondKeepsInv(swept, e.dst, e.src, swept.clients[e.dst].files.rx, None);
    }
  }

  // ---------------------------------------------------------------- the sending side

  /** The worker's step is justified by the answers the client has received. */
  lemma WaitIsBacked(s: System, p: string, i: nat, readOk: bool, sendOk: bool)
    requires Inv(s) && HasSend(s, p, i)
    ensures
      var c := s.clients[p];
      var (files, event) := NextEvent(c, SendOf(s, p, i), readOk, sendOk);
      && files.rx == c.files.rx && files.acks <= c.files.acks && files.rejects <= c.files.rejects
      && event.running == c.running
      && (SendOf(s, p, i).phase.Awaiting? && event.wait == Acked ==>
            AckBacked(s, p, i, FS.AckIndex(SendOf(s, p, i).phase.item)))
  {
    assert SenderOk(s, p, i) && AnswersOk(s, p);
    var send := SendOf(s, p, i);
    if send.phase.Awaiting? {
      var k := FS.AckIndex(send.phase.item);
      var a := MakeFileAckKey(i, k);
      assert a / TWO32 == i && a % TWO32 == k;
    }
  }

  lemma StepKeepsSender(s: System, t: System, p: string, i: nat, e: FS.Event)
    requires Grows(s, t) && HasSend(s, p, i) && SenderOk(s, p, i)
    requires SendOf(t, p, i) == FS.Step(SendOf(s, p, i), e)
    requires SendOf(s, p, i).phase.Awaiting? && e.wait == Acked ==>
      AckBacked(s, p, i, FS.AckIndex(SendOf(s, p, i).phase.item))
    ensures SenderOk(t, p, i)
  {
    FS.StepProgress(SendOf(s, p, i), e);
  }

  function SetSend(s: System, p: string, i: nat, send: FS.Send): System
    requires p in s.clients
  {
    s.(clients := s.clients[p := s.clients[p].(sends := s.clients[p].sends[i := send])])
  }

  lemma SetSendFrame(s: System, p: string, i: nat, send: FS.Send)
    requires p in s.clients && (HasSend(s, p, i) ==> SameTransfer(SendOf(s, p, i), send))
    ensures SameReceivers(s, SetSend(s, p, i, send))
  {
  }

  lemma SetSendKeepsSends(s: System, p: string, i: nat, send: FS.Send)
    requires SendsInv(s) && p in s.clients && SameReceivers(s, SetSend(s, p, i, send))
    requires SenderOk(SetSend(s, p, i, send), p, i)
    ensures SendsInv(SetSend(s, p, i, send))
  {
    var t := SetSend(s, p, i, send);
    forall q, j | HasSend(t, q, j) ensures SenderOk(t, q, j) {
      if q != p || j != i {
        assert HasSend(s, q, j);
        SenderPersists(s, t, q, j);
      }
    }
  }

  lemma SetSendKeepsInv(s: System, p: string, i: nat, send: FS.Send)
    requires Inv(s) && p in s.clients && (HasSend(s, p, i) ==> SameTransfer(SendOf(s, p, i), send))
    requires SenderOk(SetSend(s, p, i, send), p, i)
    ensures Inv(SetSend(s, p, i, send))
  {
    var t := SetSend(s, p, i, send);
    SetSendFrame(s, p, i, send);
    PacketsPersist(s, t);
    ClientsPersist(s, t);
    HistoryPersists(s, t);
    SetSendKeepsSends(s, p, i, send);
  }

  /** What a worker puts on the wire is its own metadata or a chunk it has started on. */
  lemma EmittedOk(s: System, p: string, i: nat, before: FS.Send, e: FS.Event)
    requires HasSend(s, p, i) && SenderOk(s, p, i) && SendOf(s, p, i) == FS.Step(before, e)
    requires before.transferId == i && FS.SendInv(before)
    requires FS.Emitted(before, e).Some?
    ensures PacketOk(s, Envelope(p, before.dest, FS.Emitted(before, e).value))
  {
  }

  lemma AckBackingPersists(s: System, t: System, p: string, i: nat, k: nat)
    requires Grows(s, t) && AckBacked(s, p, i, k)
    ensures AckBacked(t, p, i, k)
  {
  }

  lemma WorkerStepKeepsInv(s: System, p: string, i: nat, e: FS.Event)
    requires Inv(s) && HasSend(s, p, i)
    requires SendOf(s, p, i).phase.Awaiting? && e.wait == Acked ==>
      AckBacked(s, p, i, FS.AckIndex(SendOf(s, p, i).phase.item))
    ensures Inv(SetSend(s, p, i, FS.Step(SendOf(s, p, i), e)))
  {
    var send := SendOf(s, p, i);
    assert SenderOk(s, p, i);
    var next := FS.Step(send, e);
    assert SameTransfer(send, next);
    SetSendFrame(s, p, i, next);
    StepKeepsSender(s, SetSend(s, p, i, next), p, i, e);
    SetSendKeepsInv(s, p, i, next);
  }

  lemma WorkerEmissionKeepsInv(s: System, p: string, i: nat, before: FS.Send, e: FS.Event)
    requires Inv(s) && HasSend(s, p, i) && SendOf(s, p, i) == FS.Step(before, e)
    requires before.transferId == i && FS.SendInv(before)
    ensures Inv(Put(s, p, before.dest, FS.Emitted(before, e)))
  {
    assert SenderOk(s, p, i);
    if FS.Emitted(before, e).Some? {
      EmittedOk(s, p, i, before, e);
    }
    PutKeepsInv(s, p, before.dest, FS.Emitted(before, e));
  }

  /** The wait consumes its answer; the step it justifies is still justified afterwards. */
  lemma WaitKeepsInv(s: System, p: string, i: nat, readOk: bool, sendOk: bool)
    requires Inv(s) && HasSend(s, p, i)
    ensures
      var send := SendOf(s, p, i);
      var (files, event) := NextEvent(s.clients[p], send, readOk, sendOk);
      var t := SetAnswers(s, p, files);
      && Inv(t) && HasSend(t, p, i) && SendOf(t, p, i) == send
      && (send.phase.Awaiting? && event.wait == Acked ==> AckBacked(t, p, i, FS.AckIndex(send.phase.item)))
  {
    var c := s.clients[p];
    var send := SendOf(s, p, i);
    var (files, event) := NextEvent(c, send, readOk, sendOk);
    WaitIsBacked(s, p, i, readOk, sendOk);
    var t := SetAnswers(s, p, files);
    EditKeepsTables(s, p, c.(files := files));
    assert AnswersOk(s, p);
    AnswersPersist(s, t, p);
    EditAnswersKeepsInv(s, p, files);
    if send.phase.Awaiting? && event.wait == Acked {
      AckBackingPersists(s, t, p, i, FS.AckIndex(send.phase.item));
    }
  }

  /** An advance is the wait, then the worker's step, then its packet. */
  lemma AdvanceInParts(s: System, p: string, i: nat, readOk: bool, sendOk: bool)
    requires HasSend(s, p, i)
    ensures var (files, event) := NextEvent(s.clients[p], SendOf(s, p, i), readOk, sendOk);
      var send := SendOf(s, p, i);
      Apply(s, FileNetwork.Advance(p, i, readOk, sendOk))
        == Put(SetSend(SetAnswers(s, p, files), p, i, FS.Step(send, event)), p, send.dest, FS.Emitted(send, event))
  {
  }

  lemma WorkerMoveKeepsInv(s: System, p: string, i: nat, e: FS.Event)
    requires Inv(s) && HasSend(s, p, i)
    requires SendOf(s, p, i).phase.Awaiting? && e.wait == Acked ==>
      AckBacked(s, p, i, FS.AckIndex(SendOf(s, p, i).phase.item))
    ensures var send := SendOf(s, p, i);
      Inv(Put(SetSend(s, p, i, FS.Step(send, e)), p, send.dest, FS.Emitted(send, e)))
  {
    var send := SendOf(s, p, i);
    assert send.transferId == i && FS.SendInv(send) by {
      assert SenderOk(s, p, i);
    }
    WorkerStepKeepsInv(s, p, i, e);
    WorkerEmissionKeepsInv(SetSend(s, p, i, FS.Step(send, e)), p, i, send, e);
  }

  lemma AdvanceKeepsInv(s: System, p: string, i: nat, readOk: bool, sendOk: bool)
    requires Inv(s) && HasSend(s, p, i)
    ensures Inv(Apply(s, FileNetwork.Advance(p, i, readOk, sendOk)))
  {
    hide Inv;
    var (files, event) := NextEvent(s.clients[p], SendOf(s, p, i), readOk, sendOk);
    WaitKeepsInv(s, p, i, readOk, sendOk);
    WorkerMoveKeepsInv(SetAnswers(s, p, files), p, i, event);
    AdvanceInParts(s, p, i, readOk, sendOk);
  }

  lemma NextIdIsIrrelevant(s: System, p: string, next: nat)
    requires Inv(s) && p in s.clients
    ensures Inv(s.(clients := s.clients[p := s.clients[p].(nextId := next)]))
  {
    var t := s.(clients := s.clients[p := s.clients[p].(nextId := next)]);
    EditKeepsTables(s, p, s.clients[p].(nextId := next));
    PacketsPersist(s, t);
    SendsAndHistoryPersist(s, t);
    ClientsPersist(s, t);
  }

  lemma NewSendKeepsInv(s: System, p: string, i: nat, dest: string, name: seq<byte>, file: seq<byte>)
    requires Inv(s) && p in s.clients && i !in s.clients[p].sends
    requires i < TWO32 && |file| <= MAX_FILE_TRANSFER_BYTES && |name| < TWO16
    ensures Inv(SetSend(s, p, i, FS.NewSend(dest, i, name, file)))
  {
    SetSendKeepsInv(s, p, i, FS.NewSend(dest, i, name, file));
  }

  lemma StartSendInParts(s: System, p: string, dest: string, name: seq<byte>, file: seq<byte>)
    requires p in s.clients && Apply(s, StartSend(p, dest, name, file)) != s
    ensures s.clients[p].nextId !in s.clients[p].sends && s.clients[p].nextId < TWO32
    ensures |file| <= MAX_FILE_TRANSFER_BYTES && |name| < TWO16
    ensures var id := s.clients[p].nextId;
      var u := SetSend(s, p, id, FS.NewSend(dest, id, name, file));
      Apply(s, StartSend(p, dest, name, file))
        == u.(clients := u.clients[p := u.clients[p].(nextId := (id + 1) % TWO32)])
  {
  }

  lemma StartSendKeepsInv(s: System, p: string, dest: string, name: seq<byte>, file: seq<byte>)
    requires Inv(s)
    ensures Inv(Apply(s, StartSend(p, dest, name, file)))
  {
    hide Inv;
    if p in s.clients && Apply(s, StartSend(p, dest, name, file)) != s {
      var id := s.clients[p].nextId;
      StartSendInParts(s, p, dest, name, file);
      NewSendKeepsInv(s, p, id, dest, name, file);
      NextIdIsIrrelevant(SetSend(s, p, id, FS.NewSend(dest, id, name, file)), p, (id + 1) % TWO32);
    }
  }

  // ---------------------------------------------------------------- the invariant over whole runs

  lemma ApproveKeepsInv(s: System, m: Mark)
    requires Inv(s)
    ensures Inv(Approve(s, m))
  {
    var t := Approve(s, m);
    PacketsPersist(s, t);
    SameClientsKeepInv(s, t);
  }

  lemma AcceptAnswerKeepsInv(s: System, r: string, peer: string, i: nat, now: int, io: Io)
    requires Inv(s) && r in s.clients && s.clients[r].clock == now
    requires Accept(s.clients[r].files.rx, peer, i, now, io).1.Some? ==>
      Mark(r, MakeIncomingFileKey(peer, i)) in s.log.approved
    ensures var (post, response) := Accept(s.clients[r].files.rx, peer, i, now, io);
      Inv(Respond(s, r, peer, post, response))
  {
    assert ReceiverOk(s, r);
    AcceptSound(s, r, peer, i, now, io);
    var (post, response) := Accept(s.clients[r].files.rx, peer, i, now, io);
    RespondKeepsInv(s, r, peer, post, response);
  }

  lemma UserAcceptsKeepsInv(s: System, r: string, peer: string, i: nat, now: int, io: Io)
    requires Inv(s)
    ensures Inv(Apply(s, UserAccepts(r, peer, i, now, io)))
  {
    hide Inv;
    if r in s.clients && s.clients[r].clock <= now {
      var swept, m := Sweep(s, r, now), Mark(r, MakeIncomingFileKey(peer, i));
      assert Inv(swept) by {
        SweepKeepsInv(s, r, now);
      }
      ApproveKeepsInv(swept, m);
      var accepted := Accept(swept.clients[r].files.rx, peer, i, now, io).1.Some?;
      AcceptAnswerKeepsInv(if accepted then Approve(swept, m) else swept, r, peer, i, now, io);
    }
  }

  lemma DeclineAnswerKeepsInv(s: System, r: string, peer: string, i: nat, now: int)
    requires Inv(s) && r in s.clients && s.clients[r].clock == now
    ensures var (post, response) := FileReceiver.Decline(s.clients[r].files.rx, peer, i, now);
      Inv(Respond(s, r, peer, post, response))
  {
    assert ReceiverOk(s, r);
    DeclineSound(s, r, peer, i, now);
    var (post, response) := FileReceiver.Decline(s.clients[r].files.rx, peer, i, now);
    RespondKeepsInv(s, r, peer, post, response);
  }

  lemma DeclineInParts(s: System, r: string, peer: string, i: nat, now: int)
    requires r in s.clients && s.clients[r].clock <= now
    ensures var (post, response) := FileReceiver.Decline(Tick(s, r, now).clients[r].files.rx, peer, i, now);
      Apply(s, UserDeclines(r, peer, i, now)) == Respond(Tick(s, r, now), r, peer, post, response)
  {
  }

  lemma UserDeclinesKeepsInv(s: System, r: string, peer: string, i: nat, now: int)
    requires Inv(s)
    ensures Inv(Apply(s, UserDeclines(r, peer, i, now)))
  {
    hide Inv;
    if r in s.clients && s.clients[r].clock <= now {
      TickKeepsInv(s, r, now);
      DeclineAnswerKeepsInv(Tick(s, r, now), r, peer, i, now);
      DeclineInParts(s, r, peer, i, now);
    } else {
      assert Apply(s, UserDeclines(r, peer, i, now)) == s;
    }
  }

  lemma PollInParts(s: System, r: string, now: int)
    ensures Apply(s, UserPolls(r, now))
         == if r in s.clients && s.clients[r].clock <= now then TakePrompt(Sweep(s, r, now), r) else s
  {
  }

  lemma UserPollsKeepsInv(s: System, r: string, now: int)
    requires Inv(s)
    ensures Inv(Apply(s, UserPolls(r, now)))
  {
    hide Inv;
    var t := Apply(s, UserPolls(r, now));
    PollInParts(s, r, now);
    if r in s.clients && s.clients[r].clock <= now {
      assert Inv(Sweep(s, r, now)) by {
        SweepKeepsInv(s, r, now);
      }
      PopKeepsInv(Sweep(s, r, now), r);
      assert Inv(t);
    }
  }

  lemma PopKeepsInv(s: System, r: string)
    requires Inv(s) && r in s.clients
    ensures Inv(TakePrompt(s, r))
  {
    assert ReceiverOk(s, r);
    PopSound(s, r);
    ChangeKeepsInv(s, r, Pop(s.clients[r].files.rx).0);
  }

  lemma ClearAnswersKeepsInv(s: System, r: string)
    requires Inv(s) && r in s.clients
    ensures Inv(SetAnswers(s, r, s.clients[r].files.(acks := {}, rejects := {})))
  {
    EditAnswersKeepsInv(s, r, s.clients[r].files.(acks := {}, rejects := {}));
  }

  lemma StopKeepsInv(s: System, r: string)
    requires Inv(s) && r in s.clients
    ensures Inv(Apply(s, StopClient(r)))
  {
    hide Inv;
    var t := SetReceiver(s, r, Stop(s.clients[r].files.rx));
    var u := SetAnswers(t, r, t.clients[r].files.(acks := {}, rejects := {}));
    EmptyKeepsInv(s, r);
    ClearAnswersKeepsInv(t, r);
    StoppedKeepsInv(u, r);
    StopInParts(s, r);
  }

  lemma StopInParts(s: System, r: string)
    requires r in s.clients
    ensures var t := SetReceiver(s, r, Stop(s.clients[r].files.rx));
      var u := SetAnswers(t, r, t.clients[r].files.(acks := {}, rejects := {}));
      Apply(s, StopClient(r)) == u.(clients := u.clients[r := u.clients[r].(running := false)])
  {
  }

  lemma EmptyKeepsInv(s: System, r: string)
    requires Inv(s) && r in s.clients
    ensures Inv(SetReceiver(s, r, Stop(s.clients[r].files.rx)))
  {
    assert ReceiverOk(s, r);
    StopSound(s, r);
    ChangeKeepsInv(s, r, Stop(s.clients[r].files.rx));
  }

  lemma StoppedKeepsInv(s: System, r: string)
    requires Inv(s) && r in s.clients
    ensures Inv(s.(clients := s.clients[r := s.clients[r].(running := false)]))
  {
    var t := s.(clients := s.clients[r := s.clients[r].(running := false)]);
    EditKeepsTables(s, r, s.clients[r].(running := false));
    PacketsPersist(s, t);
    SendsAndHistoryPersist(s, t);
    ClientsPersist(s, t);
  }

  /** Every step keeps the invariant. */
  lemma StepKeepsInv(s: System, step: Step)
    requires Inv(s)
    ensures Inv(Apply(s, step))
  {
    match step
    case StartSend(p, dest, name, file) => StartSendKeepsInv(s, p, dest, name, file);
    case Advance(p, i, readOk, sendOk) =>
      if HasSend(s, p, i) {
        AdvanceKeepsInv(s, p, i, readOk, sendOk);
      }
    case Deliver(e, now, io) =>
      if e in s.wire && e.dst in s.clients && s.clients[e.dst].clock <= now {
        assert PacketOk(s, e);
        FilePacketIsNotStun(e.packet);
        DeliverToKeepsInv(s, e, now, io);
      }
    case UserAccepts(r, peer, i, now, io) => UserAcceptsKeepsInv(s, r, peer, i, now, io);
    case UserDeclines(r, peer, i, now) => UserDeclinesKeepsInv(s, r, peer, i, now);
    case UserPolls(r, now) => UserPollsKeepsInv(s, r, now);
    case StopClient(r) =>
      if r in s.clients {
        StopKeepsInv(s, r);
      }
  }

  lemma InitialInv(s: System)
    requires Initial(s)
    ensures Inv(s)
  {
    forall r | r in s.clients ensures ReceiverOk(s, r) && AnswersOk(s, r) {
      var rx := s.clients[r].files.rx;
      forall key ensures KeyInv(rx, key) && FaithfulAt(s, r, rx, key) && LoggedAt(s.log, r, rx, key) {
      }
    }
  }

  /** Every reachable state of the network satisfies the invariant. */
  lemma {:induction false} ReachableInv(s: System, steps: seq<Step>)
    requires Initial(s)
    ensures Inv(Execute(s, steps))
  {
    if steps == [] {
      InitialInv(s);
    } else {
      ReachableInv(s, steps[..|steps| - 1]);
      StepKeepsInv(Execute(s, steps[..|steps| - 1]), steps[|steps| - 1]);
    }
  }

  // ---------------------------------------------------------------- what the invariant says

  /**
   * In every run, what a receiver has written for a transfer is the prefix of that sender's own file
   * given by its chunk count, and every finalized file is some sender's file, short of exactly what its close lost.
   */
  lemma WrittenIsPrefix(s: System, steps: seq<Step>, p: string, i: nat, r: string)
    requires Initial(s) && r in Execute(s, steps).clients
    ensures
      var t := Execute(s, steps);
      var rx := t.clients[r].files.rx;
      var key := MakeIncomingFileKey(p, i);
      && (key in rx.incoming ==>
            && HasSend(t, p, i) && SendOf(t, p, i).dest == r
            && rx.incoming[key].writtenBytes <= |SendOf(t, p, i).file|
            && rx.incoming[key].data == SendOf(t, p, i).file[..rx.incoming[key].writtenBytes])
      && (forall f :: f in rx.files && f.key == key ==>
            HasSend(t, p, i) && SendOf(t, p, i).dest == r && f.content == Flushed(SendOf(t, p, i).file, f.lost))
  {
    ReachableInv(s, steps);
    var t := Execute(s, steps);
    var rx := t.clients[r].files.rx;
    var key := MakeIncomingFileKey(p, i);
    OwnerOfKey(p, i);
    assert ReceiverOk(t, r);
    assert FaithfulAt(t, r, rx, key) && KeyInv(rx, key);
  }

  /** In every run, a send reported successful has its file finalized at the receiver, short of exactly the bytes that
    * the completing close lost; so it is whole if and only if that close lost none, or there was none to lose. */
  lemma SentMeansStored(s: System, steps: seq<Step>, p: string, i: nat)
    requires Initial(s) && HasSend(Execute(s, steps), p, i)
    requires
      var send := SendOf(Execute(s, steps), p, i);
      send.phase.Finished? && send.phase.result == FS.Sent
    ensures
      var t := Execute(s, steps);
      var send := SendOf(t, p, i);
      && send.dest in t.clients
      && var key, files := MakeIncomingFileKey(p, i), t.clients[send.dest].files.rx.files;
         && (exists f :: f in files && f.key == key && f.content == Flushed(send.file, f.lost)
               && (f.content == send.file <==> f.lost == 0 || send.file == []))
         && (ClosedCleanly(files, key) ==> StoredFile(key, send.file, 0) in files)
  {
    ReachableInv(s, steps);
    var t := Execute(s, steps);
    var send := SendOf(t, p, i);
    var key := MakeIncomingFileKey(p, i);
    OwnerOfKey(p, i);
    assert SenderOk(t, p, i);
    assert AcceptedOk(t, ChunkMark(send.dest, key, FS.Chunks(send) - 1));
  }

  /** In every run, an acknowledgement on the wire or taken in by the sender stands for an acceptance. */
  lemma AcksAreSound(s: System, steps: seq<Step>, p: string, i: nat, k: nat)
    requires Initial(s) && p in Execute(s, steps).clients && k < TWO32
    requires
      var t := Execute(s, steps);
      || (exists r :: Envelope(r, p, Ack(i, k)) in t.wire)
      || MakeFileAckKey(i, k) in t.clients[p].files.acks
    ensures
      var t := Execute(s, steps);
      && HasSend(t, p, i)
      && (k != FILE_META_CHUNK_INDEX ==>
            ChunkMark(SendOf(t, p, i).dest, MakeIncomingFileKey(p, i), k) in t.log.accepted
            && k < FS.Chunks(SendOf(t, p, i)))
      && (k == FILE_META_CHUNK_INDEX ==>
            Mark(SendOf(t, p, i).dest, MakeIncomingFileKey(p, i)) in t.log.begun
            && k > FS.Chunks(SendOf(t, p, i)))
  {
    ReachableInv(s, steps);
    var t := Execute(s, steps);
    OwnerOfKey(p, i);
    assert AnswersOk(t, p);
    var a := MakeFileAckKey(i, k);
    assert a / TWO32 == i && a % TWO32 == k;
    assert AckBacked(t, p, i, k);
    assert SenderOk(t, p, i);
    if k != FILE_META_CHUNK_INDEX {
      assert AcceptedOk(t, ChunkMark(SendOf(t, p, i).dest, MakeIncomingFileKey(p, i), k));
    }
  }

  /**
   * Lockstep: in every run, while the sender is on chunk `k` the receiver waits for chunk k or k + 1,
   * or has completed; it is behind or empty-handed only if it has lost the transfer before.
   */
  lemma Lockstep(s: System, steps: seq<Step>, p: string, i: nat)
    requires Initial(s) && HasSend(Execute(s, steps), p, i)
    requires SendOf(Execute(s, steps), p, i).phase.item.Chunk?
    ensures
      var t := Execute(s, steps);
      var send := SendOf(t, p, i);
      var key := MakeIncomingFileKey(p, i);
      var k := send.phase.item.index;
      && send.dest in t.clients
      && var rx := t.clients[send.dest].files.rx;
         && (key in rx.incoming ==> rx.incoming[key].nextChunkIndex <= k + 1)
         && (Mark(send.dest, key) !in t.log.lost ==>
               key in rx.completed || (key in rx.incoming && k <= rx.incoming[key].nextChunkIndex))
  {
    ReachableInv(s, steps);
    var t := Execute(s, steps);
    var send := SendOf(t, p, i);
    var key := MakeIncomingFileKey(p, i);
    OwnerOfKey(p, i);
    assert SenderOk(t, p, i) && BegunOk(t, Mark(send.dest, key));
    assert ReceiverOk(t, send.dest) && FaithfulAt(t, send.dest, t.clients[send.dest].files.rx, key);
    if send.phase.item.index > 0 {
      assert AcceptedOk(t, ChunkMark(send.dest, key, send.phase.item.index - 1));
    }
  }

  /** With approval required, a transfer enters the incoming table only in a step in which the user accepts exactly this
    * request, still pending after the sweep; that holds each time it enters, also after an eviction. */
  lemma EntersOnlyByAccept(s: System, step: Step, r: string, key: string)
    requires r in s.clients && s.clients[r].files.rx.approvalRequired
    requires key !in s.clients[r].files.rx.incoming
    requires r in Apply(s, step).clients && key in Apply(s, step).clients[r].files.rx.incoming
    ensures step.UserAccepts? && step.client == r && key == MakeIncomingFileKey(step.peer, step.id)
    ensures key in Cleanup(s.clients[r].files.rx, step.now).pending && step.io.openOk
    ensures Mark(r, key) in Apply(s, step).log.approved
  {
    hide DeliverTo, Classify, Encode, FS.Step, FS.Emitted;
    match step
    case Deliver(e, now, io) =>
      if e in s.wire && e.dst in s.clients && s.clients[e.dst].clock <= now && Fits(e.packet)
         && Classify(Encode(e.packet)).File? {
        DeliveryEntersNothing(s, e, Classify(Encode(e.packet)).payload, now, io, r, key);
      }
    case _ =>
  }

  lemma DeliveryEntersNothing(
      s: System, e: Envelope, body: seq<byte>, now: int, io: Io, r: string, key: string)
    requires r in s.clients && e.dst in s.clients && s.clients[r].files.rx.approvalRequired
    requires key !in s.clients[r].files.rx.incoming
    ensures key !in DeliverTo(s, e, body, now, io).clients[r].files.rx.incoming
  {
    hide HandlePacket;
    if e.dst == r && !CarriesAnswer(body) && body != [] && Decode(body).Some? {
      PacketEntersNothing(Cleanup(s.clients[r].files.rx, now), e.src, Decode(body).value, now, io, key);
    }
  }

  lemma PacketEntersNothing(rx: Receiver, peer: string, p: Packet, now: int, io: Io, key: string)
    requires rx.approvalRequired && key !in rx.incoming
    ensures key !in HandlePacket(rx, peer, p, now, io).0.incoming
  {
  }

  /** In every run, a key is in at most one table, and nothing is written before the user approved it. */
  lemma ApprovalBeforeBytes(s: System, steps: seq<Step>, r: string, key: string)
    requires Initial(s) && r in Execute(s, steps).clients
    ensures
      var t := Execute(s, steps);
      var rx := t.clients[r].files.rx;
      && Places(rx, key) <= 1
      && (rx.approvalRequired && Mark(r, key) !in t.log.approved ==>
            !Held(rx, key) && forall f :: f in rx.files ==> f.key != key)
  {
    ReachableInv(s, steps);
    var t := Execute(s, steps);
    assert ReceiverOk(t, r);
    assert KeyInv(t.clients[r].files.rx, key) && LoggedAt(t.log, r, t.clients[r].files.rx, key);
  }
}
