/**
 * One client's file-transfer state as the program keeps it: tables updated in place by the handlers,
 * and the sets of acknowledgements and rejections its own sends wait on.
 */
module FileEndpoint {
  import opened Wrappers
  import opened Bytes
  import opened FilePackets
  import opened FileReceiver

  datatype WaitResult = Acked | Rejected | Timeout | Stopped

  datatype Endpoint = Endpoint(rx: Receiver, acks: set<nat>, rejects: set<nat>)

  function HandleIncoming(e: Endpoint, peer: string, body: seq<byte>, now: int, io: Io): (Endpoint, Option<Packet>) {
    var p := Decode(body);
    if body == [] then (e, None)
    else if body[0] == FILE_PACKET_ACK then
      (if p.Some? then e.(acks := e.acks + {MakeFileAckKey(p.value.transferId, p.value.chunkIndex)}) else e, None)
    else if body[0] == FILE_PACKET_REJECT then
      (if p.Some? then e.(rejects := e.rejects + {p.value.transferId}) else e, None)
    else
      var swept := Cleanup(e.rx, now);
      if p.None? then (e.(rx := swept), None)
      else
        var (rx, response) := HandlePacket(swept, peer, p.value, now, io);
        (e.(rx := rx), response)
  }

  /** The wait as it ends: woken by a stop, an acknowledgement or a rejection, else timed out. */
  function WaitForAck(e: Endpoint, t: nat, k: nat, running: bool): (Endpoint, WaitResult) {
    var ackKey := MakeFileAckKey(t, k);
    var acks := e.acks - {ackKey};
    if running && ackKey !in e.acks && t !in e.rejects then (e.(acks := acks), Timeout)
    else if !running then (e.(acks := acks, rejects := e.rejects - {t}), Stopped)
    else if t in e.rejects then (e.(acks := acks, rejects := e.rejects - {t}), Rejected)
    else (e.(acks := acks), Acked)
  }

  method EraseExpired<V>(m: map<string, V>, now: int, ttl: int, stamp: V -> int) returns (kept: map<string, V>)
    ensures kept == Unexpired(m, now, ttl, stamp)
  {
    kept := m;
    var todo := m.Keys;
    while todo != {}
      invariant todo <= m.Keys
      invariant kept == map k | k in m && (k in todo || now - stamp(m[k]) <= ttl) :: m[k]
      decreases todo
    {
      var k :| k in todo;
      if now - stamp(kept[k]) > ttl {
        kept := kept - {k};
      }
      todo := todo - {k};
    }
  }

  method RemoveStale(queue: seq<Prompt>, keys: set<string>) returns (kept: seq<Prompt>)
    ensures kept == StillPending(queue, keys)
  {
    kept := [];
    for i := 0 to |queue|
      invariant kept == StillPending(queue[..i], keys)
    {
      assert queue[..i + 1][..i] == queue[..i];
      if PromptKey(queue[i]) in keys {
        kept := kept + [queue[i]];
      }
    }
    assert queue[..|queue|] == queue;
  }

  class FileTransfers {
    const approvalRequired: bool
    var incoming: map<string, Transfer>
    var completed: map<string, Completed>
    var pending: map<string, Prompt>
    var queue: seq<Prompt>
    var rejected: map<string, int>
    var files: set<StoredFile>
    var acks: set<nat>
    var rejectedIds: set<nat>

    ghost function Tables(): Receiver
      reads this
    {
      Receiver(approvalRequired, incoming, completed, pending, queue, rejected, files)
    }

    ghost function Value(): Endpoint
      reads this
    {
      Endpoint(Tables(), acks, rejectedIds)
    }

    constructor (approvalRequired: bool)
      ensures Value() == Endpoint(NewReceiver(approvalRequired), {}, {})
    {
      this.approvalRequired := approvalRequired;
      incoming, completed, pending, queue, rejected := map[], map[], map[], [], map[];
      files, acks, rejectedIds := {}, {}, {};
    }

    method CleanupFileTransfersLocked(now: int)
      modifies this
      ensures Value() == old(Value()).(rx := Cleanup(old(Tables()), now))
    {
      incoming := EraseExpired(incoming, now, INCOMING_TIMEOUT, (t: Transfer) => t.lastUpdate);
      completed := EraseExpired(completed, now, COMPLETED_TTL, (c: Completed) => c.completedAt);
      pending := EraseExpired(pending, now, PENDING_PROMPT_TTL, (p: Prompt) => p.lastUpdate);
      queue := RemoveStale(queue, pending.Keys);
      rejected := EraseExpired(rejected, now, REJECTED_TTL, (at: int) => at);
    }

    method BeginIncomingFileTransferLocked(key: string, prompt: Prompt, now: int, openOk: bool) returns (ok: bool)
      modifies this
      ensures ok == openOk
      ensures Value() == old(Value()).(rx := if ok then Begin(old(Tables()), key, prompt, now) else old(Tables()))
    {
      if !openOk {
        return false;
      }
      var transfer := Transfer(prompt.peerId, prompt.fileName, prompt.chunkCount, 0, prompt.totalSize, 0, [], now);
      incoming := incoming[key := transfer];
      return true;
    }

    method HandleMetaLocked(peer: string, p: Packet, now: int, io: Io) returns (response: Option<Packet>)
      requires p.Meta?
      modifies this
      ensures (Tables(), response) == HandleMeta(old(Tables()), peer, p, now, io)
      ensures acks == old(acks) && rejectedIds == old(rejectedIds)
    {
      response := None;
      var key := MakeIncomingFileKey(peer, p.transferId);
      var prompt := Prompt(peer, p.transferId, p.fileName, p.chunkCount, p.totalSize, now, now);
      if key in rejected {
        rejected := rejected[key := now];
        response := Some(Reject(p.transferId));
      } else if key in completed {
        response := Some(Ack(p.transferId, FILE_META_CHUNK_INDEX));
      } else if key in incoming {
        incoming := incoming[key := incoming[key].(lastUpdate := now)];
        response := Some(Ack(p.transferId, FILE_META_CHUNK_INDEX));
      } else if approvalRequired {
        if key !in pending {
          pending := pending[key := prompt];
          queue := queue + [prompt];
        } else {
          pending := pending[key := pending[key].(lastUpdate := now)];
        }
      } else {
        var begun := BeginIncomingFileTransferLocked(key, prompt, now, io.openOk);
        if begun {
          response := Some(Ack(p.transferId, FILE_META_CHUNK_INDEX));
        }
      }
    }

    method HandleDataLocked(peer: string, p: Packet, now: int, io: Io) returns (response: Option<Packet>)
      requires p.Data?
      modifies this
      ensures (Tables(), response) == HandleData(old(Tables()), peer, p, now, io)
      ensures acks == old(acks) && rejectedIds == old(rejectedIds)
    {
      response := None;
      var key := MakeIncomingFileKey(peer, p.transferId);
      if key in rejected {
        rejected := rejected[key := now];
        response := Some(Reject(p.transferId));
        return;
      }
      if key in completed {
        if p.chunkIndex < completed[key].chunkCount {
          response := Some(Ack(p.transferId, p.chunkIndex));
        }
        return;
      }
      if key !in incoming {
        return;
      }

      var transfer := incoming[key].(lastUpdate := now);
      incoming := incoming[key := transfer];
      if p.chunkIndex > transfer.nextChunkIndex || p.chunkIndex >= transfer.chunkCount {
        return;
      }
      if p.chunkIndex < transfer.nextChunkIndex {
        response := Some(Ack(p.transferId, p.chunkIndex));
        return;
      }

      var expectedSize := ChunkSize(transfer.totalSize, p.chunkIndex);
      if |p.payload| != expectedSize {
        return;
      }
      if !io.writeOk {
        incoming := incoming - {key};
        assert incoming == old(incoming) - {key};
        return;
      }
      transfer := transfer.(data := transfer.data + p.payload);
      transfer := transfer.(writtenBytes := transfer.writtenBytes + |p.payload|);
      transfer := transfer.(nextChunkIndex := transfer.nextChunkIndex + 1);
      incoming := incoming[key := transfer];
      assert incoming == old(incoming)[key := transfer];

      if transfer.nextChunkIndex == transfer.chunkCount && transfer.writtenBytes == transfer.totalSize {
        if !io.renameOk {
          incoming := incoming - {key};
          assert incoming == old(incoming) - {key};
          return;
        }
        files := files + {StoredFile(key, Flushed(transfer.data, io.lost), io.lost)};
        completed := completed[key := Completed(transfer.chunkCount, now)];
        incoming := incoming - {key};
        assert incoming == old(incoming) - {key};
      }
      response := Some(Ack(p.transferId, p.chunkIndex));
    }

    method HandleIncomingFilePacket(peer: string, body: seq<byte>, now: int, io: Io)
      returns (response: Option<Packet>)
      modifies this
      ensures (Value(), response) == HandleIncoming(old(Value()), peer, body, now, io)
    {
      response := None;
      if |body| <= 0 {
        return;
      }
      var kind := body[0];
      var packet := Decode(body);
      if kind == FILE_PACKET_ACK {
        if packet.Some? {
          acks := acks + {MakeFileAckKey(packet.value.transferId, packet.value.chunkIndex)};
        }
        return;
      }
      if kind == FILE_PACKET_REJECT {
        if packet.Some? {
          rejectedIds := rejectedIds + {packet.value.transferId};
        }
        return;
      }

      CleanupFileTransfersLocked(now);
      if packet.Some? {
        if packet.value.Meta? {
          response := HandleMetaLocked(peer, packet.value, now, io);
        } else {
          response := HandleDataLocked(peer, packet.value, now, io);
        }
      }
    }

    method PopPendingFilePrompt(now: int) returns (out: Option<Prompt>)
      modifies this
      ensures Value().(rx := old(Tables())) == old(Value())
      ensures (Tables(), out) == Pop(Cleanup(old(Tables()), now))
    {
      CleanupFileTransfersLocked(now);
      if queue == [] {
        return None;
      }
      out := Some(queue[0]);
      queue := queue[1..];
    }

    method AcceptPendingFilePrompt(peer: string, t: nat, now: int, io: Io) returns (response: Option<Packet>)
      modifies this
      ensures Value().(rx := old(Tables())) == old(Value())
      ensures (Tables(), response) == Accept(Cleanup(old(Tables()), now), peer, t, now, io)
    {
      CleanupFileTransfersLocked(now);
      var key := MakeIncomingFileKey(peer, t);
      if key !in pending {
        return None;
      }
      var begun := BeginIncomingFileTransferLocked(key, pending[key], now, io.openOk);
      if !begun {
        return None;
      }
      pending := pending - {key};
      response := Some(Ack(t, FILE_META_CHUNK_INDEX));
    }

    method DeclinePendingFilePrompt(peer: string, t: nat, now: int) returns (response: Option<Packet>)
      modifies this
      ensures Value().(rx := old(Tables())) == old(Value())
      ensures (Tables(), response) == Decline(old(Tables()), peer, t, now)
    {
      var key := MakeIncomingFileKey(peer, t);
      if key !in pending {
        return None;
      }
      rejected := rejected[key := now];
      pending := pending - {key};
      response := Some(Reject(t));
    }

    method WaitForFileAck(t: nat, k: nat, running: bool) returns (result: WaitResult)
      modifies this
      ensures (Value(), result) == WaitForAck(old(Value()), t, k, running)
    {
      var ackKey := MakeFileAckKey(t, k);
      var signaled := !running || ackKey in acks || t in rejectedIds;
      if !signaled {
        acks := acks - {ackKey};
        return Timeout;
      }
      if !running {
        acks := acks - {ackKey};
        rejectedIds := rejectedIds - {t};
        return Stopped;
      }
      if t in rejectedIds {
        rejectedIds := rejectedIds - {t};
        acks := acks - {ackKey};
        return Rejected;
      }
      acks := acks - {ackKey};
      return Acked;
    }

    method CleanupFileTransfersOnStop()
      modifies this
      ensures Value() == Endpoint(Stop(old(Tables())), {}, {})
    {
      incoming, completed, pending, queue, rejected := map[], map[], map[], [], map[];
      acks, rejectedIds := {}, {};
    }
  }
}
